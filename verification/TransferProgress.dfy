/** The receiving threads never block one another for good: every run ends with all threads finished, or with a thread
    that used a NULL token (Assignment-2/multiplethreads.c, getdata). */
module TransferProgress {
  import opened Buffers
  import opened Reassembly
  import opened Sender
  import opened Transfer

  ghost predicate AllFinished(st: State) {
    forall q :: 0 <= q < |st.threads| ==> st.threads[q].Finished?
  }

  /** Whoever holds the mutex can go on; if nobody holds it, every thread that has not finished can. */
  lemma Progress(st: State)
    requires RunOk(st) && Alive(st) && !AllFinished(st)
    ensures exists q :: Enabled(st, q)
  {
    var q :| 0 <= q < |st.threads| && !st.threads[q].Finished?;
    var r := if st.holder.Some? then st.holder.value else q;
    assert Enabled(st, r);
  }

  /** Steps left in the current turn, and the end of the connection. */
  function Stage(t: Thread): nat {
    match t
    case Receiving => 1
    case Received => 9
    case Halved(_) => 8
    case Tokened(_, _, _) => 7
    case Framed(_, _, _) => 6
    case Locked(_, _, _) => 5
    case Sought(_, _, _) => 4
    case Wrote(_, _, _) => 3
    case Counted => 2
    case Finished => 0
    case Failed => 0
  }

  /** The steps that the first m threads have left. */
  function Work(st: State, m: nat): nat
    requires m <= |st.inbox| == |st.threads|
  {
    if m == 0 then 0 else Work(st, m - 1) + WorkOf(st, m - 1)
  }

  function WorkOf(st: State, q: nat): nat
    requires q < |st.inbox| == |st.threads|
  {
    9 * |st.inbox[q]| + Stage(st.threads[q])
  }

  /** A step of thread q is one step less for thread q, or its last. */
  lemma StepWorkOf(st: State, q: nat)
    requires Enabled(st, q)
    ensures var st' := Next(st, q);
            && Sized(st') && |st'.threads| == |st.threads|
            && WorkOf(st', q) < WorkOf(st, q)
            && (!st'.threads[q].Failed? ==> WorkOf(st', q) == WorkOf(st, q) - 1)
  {
    hide Tok, Filled, PosWrite, StringAt, Text, NumberAt;
  }

  lemma StepWork(st: State, q: nat, m: nat)
    requires Enabled(st, q) && m <= |st.threads|
    ensures var st' := Next(st, q);
            && Sized(st') && |st'.threads| == |st.threads|
            && (q < m ==> Work(st', m) < Work(st, m))
            && (q < m && !st'.threads[q].Failed? ==> Work(st', m) == Work(st, m) - 1)
            && (q >= m ==> Work(st', m) == Work(st, m))
  {
    StepWorkOf(st, q);
    NextFrame(st, q);
    assert |st.inbox| == |st.threads| && q < |st.threads|;
    hide *;
    WorkMoves(st, Next(st, q), q, m);
  }

  /** The work of the others is the same. */
  lemma {:induction false} WorkMoves(st: State, st': State, q: nat, m: nat)
    requires |st.inbox| == |st.threads| == |st'.threads| == |st'.inbox| && m <= |st.threads| && q < |st.threads|
    requires forall r :: 0 <= r < |st.threads| && r != q ==>
               st'.threads[r] == st.threads[r] && st'.inbox[r] == st.inbox[r]
    ensures Work(st', m) == Work(st, m) + if q < m then WorkOf(st', q) - WorkOf(st, q) else 0
  {
    hide WorkOf;
    if m > 0 {
      WorkMoves(st, st', q, m - 1);
      if q != m - 1 {
        SameWorkOf(st, st', m - 1);
      }
    }
  }

  lemma SameWorkOf(st: State, st': State, r: nat)
    requires r < |st.inbox| == |st.threads| && |st.threads| == |st'.threads| == |st'.inbox|
    requires st'.threads[r] == st.threads[r] && st'.inbox[r] == st.inbox[r]
    ensures WorkOf(st', r) == WorkOf(st, r)
  {
  }

  lemma EnabledIsThread(st: State, q: nat)
    requires Enabled(st, q)
    ensures q < |st.threads| && Sized(st) && Alive(st)
  {
  }

  /** As long as no thread has failed, every step is one step less to do. */
  lemma {:induction false} RunWork(st: State, steps: seq<nat>)
    requires CanRun(st, steps) && Sized(st)
    ensures var end := Run(st, steps);
            && Sized(end) && |end.threads| == |st.threads|
            && |steps| + Work(end, |end.threads|) <= Work(st, |st.threads|)
            && (Alive(end) ==> |steps| + Work(end, |end.threads|) == Work(st, |st.threads|))
    decreases |steps|
  {
    hide Enabled, Next, Work, Alive;
    if steps != [] {
      EnabledIsThread(st, steps[0]);
      StepWork(st, steps[0], |st.threads|);
      RunWork(Next(st, steps[0]), steps[1..]);
      if Alive(Run(st, steps)) {
        FailedStays(Next(st, steps[0]), steps[1..]);
        NextFails(st, steps[0]);
      }
    }
  }

  lemma NextFails(st: State, q: nat)
    requires Enabled(st, q) && Alive(Next(st, q))
    ensures q < |st.threads| && q < |Next(st, q).threads| && !Next(st, q).threads[q].Failed?
  {
    NextFrame(st, q);
    hide Next;
  }

  /** Nothing happens behind a failure. */
  lemma FailedStays(st: State, steps: seq<nat>)
    requires CanRun(st, steps) && Alive(Run(st, steps))
    ensures Alive(st)
  {
    hide Alive, Next;
    if steps != [] { EnabledIsThread(st, steps[0]); }
  }

  /** No work is left exactly when all threads have finished. */
  lemma {:induction false} NoWorkIff(st: State, m: nat)
    requires RunOk(st) && Alive(st) && m <= |st.threads|
    ensures Work(st, m) == 0 <==> forall q :: 0 <= q < m ==> st.threads[q].Finished?
  {
    if m > 0 {
      NoWorkIff(st, m - 1);
    }
  }

  // ---------------------------------------------------------------------------------------------
  // How many steps there are
  // ---------------------------------------------------------------------------------------------

  /** The frames of the first j connections. */
  function Dealt(m: nat, n: nat, j: nat): nat
    requires 0 < n
  {
    if j == 0 then 0 else Dealt(m, n, j - 1) + Share(m, n, j - 1)
  }

  lemma {:induction false} DealtIs(m: nat, n: nat, j: nat)
    requires j <= n && 0 < n
    ensures Dealt(m, n, j) == j * (m / n) + if j < m % n then j else m % n
  {
    if j > 0 {
      DealtIs(m, n, j - 1);
      assert j * (m / n) == (j - 1) * (m / n) + m / n;
    }
  }

  /** Every chunk is dealt to some connection, once. */
  lemma AllDealt(m: nat, n: nat)
    requires 0 < n
    ensures Dealt(m, n, n) == m
  {
    DealtIs(m, n, n);
    assert m == n * (m / n) + m % n;
  }

  lemma {:induction false} StartWork(src: string, n: nat, m: nat)
    requires 0 < n && m <= n
    ensures Work(Start(src, n), m) == 9 * Dealt(ChunkCount(src), n, m) + m
  {
    hide ChunkCount, Share;
    if m > 0 {
      StartWork(src, n, m - 1);
      StreamLength(src, n, m - 1);
    }
  }

  /** Nine steps for every chunk and one for the end of every connection: no run is longer, and all threads have finished
      exactly when it is that long and no thread has failed. Until then it can be continued, unless a thread has
      failed. */
  lemma RunsEnd(src: string, n: nat, steps: seq<nat>)
    requires 0 < n && CanRun(Start(src, n), steps)
    ensures |steps| <= 9 * ChunkCount(src) + n
    ensures var end := Run(Start(src, n), steps);
            && (AllFinished(end) <==> Alive(end) && |steps| == 9 * ChunkCount(src) + n)
            && (!Alive(end) || AllFinished(end) || exists q :: Enabled(end, q))
  {
    hide Enabled, Next, Work, CanRun, Run, ChunkCount, Dealt;
    var st := Start(src, n);
    StartRunOk(src, n);
    RunKeepsRunOk(st, steps);
    var end := Run(st, steps);
    RunWork(st, steps);
    StartWork(src, n, n);
    AllDealt(ChunkCount(src), n);
    if Alive(end) {
      NoWorkIff(end, |end.threads|);
      if !AllFinished(end) { Progress(end); }
    }
  }
}
