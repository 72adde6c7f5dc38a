/** The receiving threads of the striped transfer (Assignment-2/multiplethreads.c, getdata) as a system of small steps:
    receive into the thread's buffer, first strtok, second strtok, copy the token down (line 56), lock, seek, write,
    count, unlock. Only the steps from lock to unlock are under the mutex. strtok has one cursor for all threads, and a
    NULL token ends the process. `log` records the order of the writes. */
module Transfer {
  import opened Options
  import opened CStrings
  import opened Buffers
  import opened Reassembly
  import opened Sender

  /** strtok's static variable: a place in some thread's buffer. */
  datatype Cursor = Cursor(owner: nat, at: nat)

  /** What a thread does next, with its local variables: the position, and the token as a place in some buffer. */
  datatype Thread =
    | Receiving
    | Received
    | Halved(pos: nat)
    | Tokened(pos: nat, owner: nat, from: nat)
    | Framed(pos: nat, owner: nat, from: nat)
    | Locked(pos: nat, owner: nat, from: nat)
    | Sought(pos: nat, owner: nat, from: nat)
    | Wrote(pos: nat, owner: nat, from: nat)
    | Counted
    | Finished
    | Failed

  datatype State = State(inbox: seq<seq<string>>, threads: seq<Thread>, temps: seq<string>, cursor: Option<Cursor>,
                         holder: Option<nat>, file: string, fpos: nat, received: nat, log: seq<nat>)

  /** Everything the sender puts on the connections, and idle threads. */
  function Start(src: string, n: nat): State {
    State(seq(n, q requires 0 <= q < n => StreamOf(src, n, q)), seq(n, _ => Receiving), seq(n, _ => ""), None,
          None, "", 0, 0, [])
  }

  predicate Sized(st: State) {
    |st.inbox| == |st.threads| == |st.temps|
  }

  /** No thread has used a NULL token. */
  predicate Alive(st: State) {
    forall q :: 0 <= q < |st.threads| ==> !st.threads[q].Failed?
  }

  /** Thread q can take its next step. */
  predicate Enabled(st: State, q: nat) {
    && Sized(st) && Alive(st) && q < |st.threads|
    && !st.threads[q].Finished?
    && (st.threads[q].Framed? ==> st.holder.None?)
  }

  function Set(st: State, q: nat, t: Thread): State
    requires q < |st.threads|
  {
    st.(threads := st.threads[q := t])
  }

  /** The string that a thread's token is, when it is looked at. */
  function Text(st: State, owner: nat, from: nat): string {
    if owner < |st.temps| then StringAt(st.temps[owner], from) else ""
  }

  /** recv, and strcpy into the thread's buffer. */
  function ReceiveStep(st: State, q: nat): State
    requires Sized(st) && q < |st.threads|
  {
    if st.inbox[q] == [] then Set(st, q, Finished)
    else Set(st, q, Received).(inbox := st.inbox[q := st.inbox[q][1..]],
                               temps := st.temps[q := Filled(st.temps[q], st.inbox[q][0])])
  }

  /** strtok(temp, ";") and atoi. */
  function FirstStep(st: State, q: nat): State
    requires Sized(st) && q < |st.threads|
  {
    match Tok(st.temps[q], 0)
    case None => Set(st, q, Failed)
    case Some(c) =>
      Set(st, q, Halved(Atoi(StringAt(c.buf, c.start)))).(temps := st.temps[q := c.buf], cursor := Some(Cursor(q, c.next)))
  }

  /** strtok(NULL, ";"), wherever the cursor is. */
  function SecondStep(st: State, q: nat, pos: nat): State
    requires Sized(st) && q < |st.threads|
  {
    if st.cursor.None? || st.cursor.value.owner >= |st.temps| then Set(st, q, Failed)
    else
      var o := st.cursor.value.owner;
      match Tok(st.temps[o], st.cursor.value.at)
      case None => Set(st, q, Failed)
      case Some(c) =>
        Set(st, q, Tokened(pos, o, c.start)).(temps := st.temps[o := c.buf], cursor := Some(Cursor(o, c.next)))
  }

  /** strcpy(temp, pt). */
  function CopyStep(st: State, q: nat, pos: nat, owner: nat, from: nat): State
    requires Sized(st) && q < |st.threads|
  {
    Set(st, q, Framed(pos, owner, from)).(temps := st.temps[q := Filled(st.temps[q], Text(st, owner, from))])
  }

  /** fwrite(pt, strlen(pt) + 1). */
  function WriteStep(st: State, q: nat, pos: nat, owner: nat, from: nat): State
    requires Sized(st) && q < |st.threads|
  {
    var text := Text(st, owner, from);
    Set(st, q, Wrote(pos, owner, from)).(file := PosWrite(st.file, st.fpos, text + [NUL]),
                                         fpos := st.fpos + |text| + 1, log := st.log + [NumberAt(pos)])
  }

  function Next(st: State, q: nat): State
    requires Enabled(st, q)
  {
    match st.threads[q]
    case Receiving => ReceiveStep(st, q)
    case Received => FirstStep(st, q)
    case Halved(pos) => SecondStep(st, q, pos)
    case Tokened(pos, owner, from) => CopyStep(st, q, pos, owner, from)
    case Framed(pos, owner, from) => Set(st, q, Locked(pos, owner, from)).(holder := Some(q))
    case Locked(pos, owner, from) => Set(st, q, Sought(pos, owner, from)).(fpos := pos)
    case Sought(pos, owner, from) => WriteStep(st, q, pos, owner, from)
    case Wrote(pos, owner, from) => Set(st, q, Counted).(received := st.received + |Text(st, owner, from)|)
    case Counted => Set(st, q, Receiving).(holder := None)
  }

  ghost predicate CanRun(st: State, steps: seq<nat>)
    decreases |steps|
  {
    steps == [] || (Enabled(st, steps[0]) && CanRun(Next(st, steps[0]), steps[1..]))
  }

  ghost function Run(st: State, steps: seq<nat>): State
    requires CanRun(st, steps)
    decreases |steps|
  {
    if steps == [] then st else Run(Next(st, steps[0]), steps[1..])
  }

  lemma RunCons(st: State, steps: seq<nat>)
    ensures steps == [] ==> CanRun(st, steps) && Run(st, steps) == st
    ensures steps != [] && Enabled(st, steps[0]) && CanRun(Next(st, steps[0]), steps[1..]) ==>
              CanRun(st, steps) && Run(st, steps) == Run(Next(st, steps[0]), steps[1..])
  {
  }

  lemma RunFront(st: State, q: nat, rest: seq<nat>)
    requires Enabled(st, q) && CanRun(Next(st, q), rest)
    ensures CanRun(st, [q] + rest) && Run(st, [q] + rest) == Run(Next(st, q), rest)
  {
    hide Enabled, Next;
    assert ([q] + rest)[0] == q && ([q] + rest)[1..] == rest;
  }

  lemma {:induction false} RunConcat(st: State, a: seq<nat>, b: seq<nat>)
    requires CanRun(st, a) && CanRun(Run(st, a), b)
    ensures CanRun(st, a + b) && Run(st, a + b) == Run(Run(st, a), b)
    decreases |a|
  {
    hide Enabled, Next;
    if a == [] {
      assert a + b == b;
    } else {
      RunConcat(Next(st, a[0]), a[1..], b);
      assert (a + b)[1..] == a[1..] + b;
    }
  }

  // ---------------------------------------------------------------------------------------------
  // What holds in every run
  // ---------------------------------------------------------------------------------------------

  ghost predicate InCritical(t: Thread) {
    t.Locked? || t.Sought? || t.Wrote? || t.Counted?
  }

  /** A thread is between lock and unlock exactly when it holds the mutex; one that has finished has nothing to read. */
  ghost predicate RunOk(st: State) {
    && Sized(st)
    && (st.holder.Some? ==> st.holder.value < |st.threads|)
    && (forall q :: 0 <= q < |st.threads| ==> (InCritical(st.threads[q]) <==> st.holder == Some(q)))
    && (forall q :: 0 <= q < |st.threads| && st.threads[q].Finished? ==> st.inbox[q] == [])
  }

  lemma StartRunOk(src: string, n: nat)
    ensures RunOk(Start(src, n))
  {
  }

  /** A step of thread q: where the others are, and what they have to read, stays the same. */
  lemma NextFrame(st: State, q: nat)
    requires Enabled(st, q)
    ensures var st' := Next(st, q);
            && Sized(st') && |st'.threads| == |st.threads|
            && (forall r :: 0 <= r < |st.threads| && r != q ==>
                  st'.threads[r] == st.threads[r] && st'.inbox[r] == st.inbox[r])
            && (st.threads[q].Receiving? || st'.inbox == st.inbox)
  {
    hide Tok, Filled, PosWrite, StringAt;
  }

  lemma StepKeepsRunOk(st: State, q: nat)
    requires RunOk(st) && Enabled(st, q)
    ensures RunOk(Next(st, q))
  {
    hide Tok, Filled, PosWrite, StringAt, Text;
  }

  lemma {:induction false} RunKeepsRunOk(st: State, steps: seq<nat>)
    requires RunOk(st) && CanRun(st, steps)
    ensures RunOk(Run(st, steps))
    decreases |steps|
  {
    hide RunOk, Enabled, Next;
    if steps != [] {
      StepKeepsRunOk(st, steps[0]);
      RunKeepsRunOk(Next(st, steps[0]), steps[1..]);
    }
  }

  /** A state that some run of n threads reaches on the sender's output. */
  ghost predicate Reachable(src: string, n: nat, st: State) {
    exists steps :: CanRun(Start(src, n), steps) && Run(Start(src, n), steps) == st
  }

  /** No two threads are between lock and unlock, in any run. */
  lemma MutualExclusion(src: string, n: nat, st: State, q: nat, r: nat)
    requires Reachable(src, n, st)
    requires q < |st.threads| && r < |st.threads| && InCritical(st.threads[q]) && InCritical(st.threads[r])
    ensures q == r
  {
    var steps :| CanRun(Start(src, n), steps) && Run(Start(src, n), steps) == st;
    StartRunOk(src, n);
    RunKeepsRunOk(Start(src, n), steps);
  }
}
