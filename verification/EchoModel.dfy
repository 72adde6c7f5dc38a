/** The buffered non-blocking echo client (Assignment-2/nonblockingio.c, strcli) and the upper-casing server
    (Assignment-2/server.c, main) as one system. Reads, writes and sends move any number of bytes. */
module EchoModel {
  import opened Octets

  const MAXLINE: nat := 256
  const BUFSIZE: nat := 1024
  /** One batch of data is sent per turn. */
  const BATCH: nat := 256

  /** The number of bytes the client means to send in so many turns. */
  function DataSize(turns: nat): nat {
    256 * turns
  }

  function ToUpper(b: byte): byte {
    if 97 <= b <= 122 then b - 32 else b
  }

  function Upper(s: Bytes): (r: Bytes)
    ensures |r| == |s| && forall i :: 0 <= i < |s| ==> r[i] == ToUpper(s[i])
  {
    seq(|s|, i requires 0 <= i < |s| => ToUpper(s[i]))
  }

  const SMALL: Bytes := [97, 98, 99, 100, 101, 102, 103, 104, 105, 106, 107, 108, 109,
                         110, 111, 112, 113, 114, 115, 116, 117, 118, 119, 120, 121, 122]
  const CAPITAL: Bytes := [65, 66, 67, 68, 69, 70, 71, 72, 73, 74, 75, 76, 77,
                           78, 79, 80, 81, 82, 83, 84, 85, 86, 87, 88, 89, 90]

  /** toupper: the 26 letters become the capital ones, and every other byte stays. */
  lemma ToUpperTable()
    ensures |SMALL| == |CAPITAL| == 26
    ensures forall i :: 0 <= i < 26 ==> ToUpper(SMALL[i]) == CAPITAL[i]
    ensures forall b: byte :: b !in SMALL ==> ToUpper(b) == b
  {
    forall b: byte | 97 <= b <= 122 ensures b in SMALL {
      assert SMALL[b as nat - 97] == b;
    }
  }

  lemma UpperConcat(a: Bytes, b: Bytes)
    ensures Upper(a + b) == Upper(a) + Upper(b)
  {
  }

  /** The client. `buffer` is the text between the two cursors, `used` the position of the filling one. */
  datatype Client = Client(turns: nat, shut: bool, buffer: Bytes, used: nat, flushed: Bytes, received: nat, over: bool)

  /** The whole system: what the client has sent so far, the bytes under way to the server, the server's buffer with
      its upper-cased part, and the bytes under way back. */
  datatype System = System(client: Client, sent: Bytes, out: Bytes, held: Bytes, raised: nat, closed: bool, back: Bytes)

  datatype Step =
    | Send(chunk: Bytes)
    | Shutdown
    | Read(n: nat)
    | EndOfFile
    | Flush(n: nat)
    | Receive(n: nat)
    | Raise
    | Answer(n: nat)
    | Close

  // ---------------------------------------------------------------------------------------------
  // The client's own actions
  // ---------------------------------------------------------------------------------------------

  /** The client takes bytes off the socket. It stops, and drops them, if it already had everything it meant to send. */
  function Taken(c: Client, bytes: Bytes, limit: nat): Client {
    if c.received == DataSize(limit) then c.(over := true)
    else c.(buffer := c.buffer + bytes, used := c.used + |bytes|, received := c.received + |bytes|)
  }

  /** The client writes bytes to the file. Once the cursors meet, both go back to the start of the array. */
  function Flushed(c: Client, n: nat): Client
    requires n <= |c.buffer|
  {
    c.(flushed := c.flushed + c.buffer[..n], buffer := c.buffer[n..], used := if n == |c.buffer| then 0 else c.used)
  }

  // ---------------------------------------------------------------------------------------------
  // Steps and runs
  // ---------------------------------------------------------------------------------------------

  function Start(): System {
    System(Client(0, false, [], 0, [], 0, false), [], [], [], 0, false, [])
  }

  predicate Enabled(limit: nat, s: System, step: Step) {
    var c := s.client;
    match step
    case Send(chunk) => !c.over && c.turns < limit && |chunk| <= BATCH
    case Shutdown => !c.over && c.turns >= limit && !c.shut
    case Read(n) => !c.over && c.used < MAXLINE && 0 < n <= |s.back| && c.used + n <= MAXLINE
    case EndOfFile => !c.over && c.used < MAXLINE && s.back == [] && s.closed
    case Flush(n) => !c.over && 0 < n <= |c.buffer|
    case Receive(n) => !s.closed && s.held == [] && 0 < n <= |s.out| && n <= BUFSIZE
    case Raise => !s.closed && s.raised < |s.held|
    case Answer(n) => !s.closed && s.raised == |s.held| && 0 < n <= |s.held|
    case Close => !s.closed && s.held == [] && s.out == [] && c.shut
  }

  function Next(limit: nat, s: System, step: Step): System
    requires Enabled(limit, s, step)
  {
    var c := s.client;
    match step
    case Send(chunk) => s.(client := c.(turns := c.turns + 1), sent := s.sent + chunk, out := s.out + chunk)
    case Shutdown => s.(client := c.(shut := true))
    case Read(n) => s.(client := Taken(c, s.back[..n], limit), back := s.back[n..])
    case EndOfFile => s.(client := c.(over := true))
    case Flush(n) => s.(client := Flushed(c, n))
    case Receive(n) => s.(held := s.out[..n], raised := 0, out := s.out[n..])
    case Raise => s.(held := s.held[s.raised := ToUpper(s.held[s.raised])], raised := s.raised + 1)
    case Answer(n) => s.(back := s.back + s.held[..n], held := s.held[n..], raised := s.raised - n)
    case Close => s.(closed := true)
  }

  /** Steps that can be taken one after the other. */
  predicate CanRun(limit: nat, s: System, steps: seq<Step>)
    decreases |steps|
  {
    steps == [] || (Enabled(limit, s, steps[0]) && CanRun(limit, Next(limit, s, steps[0]), steps[1..]))
  }

  function Run(limit: nat, s: System, steps: seq<Step>): System
    requires CanRun(limit, s, steps)
    decreases |steps|
  {
    if steps == [] then s else Run(limit, Next(limit, s, steps[0]), steps[1..])
  }

  lemma {:induction false} RunConcat(limit: nat, s: System, a: seq<Step>, b: seq<Step>)
    requires CanRun(limit, s, a) && CanRun(limit, Run(limit, s, a), b)
    decreases |a|
    ensures CanRun(limit, s, a + b) && Run(limit, s, a + b) == Run(limit, Run(limit, s, a), b)
  {
    hide Enabled, Next;
    if a == [] {
      assert a + b == b;
    } else {
      RunConcat(limit, Next(limit, s, a[0]), a[1..], b);
      assert (a + b)[1..] == a[1..] + b;
    }
  }

  // ---------------------------------------------------------------------------------------------
  // Stream conservation
  // ---------------------------------------------------------------------------------------------

  /** All there is of the stream, from the file back to the client's socket, in upper case. */
  function Stream(s: System): Bytes
    requires s.raised <= |s.held|
  {
    s.client.flushed + s.client.buffer + s.back + s.held[..s.raised] + Upper(s.held[s.raised..]) + Upper(s.out)
  }

  ghost predicate Conserved(s: System) {
    s.raised <= |s.held| && Stream(s) == Upper(s.sent)
  }

  ghost predicate ClientOk(limit: nat, s: System) {
    var c := s.client;
    && |c.buffer| <= c.used <= MAXLINE
    && (c.buffer == [] ==> c.used == 0)
    && c.received == |c.flushed| + |c.buffer|
    && |s.sent| <= DataSize(c.turns)
    && c.turns <= limit
    && (c.shut ==> c.turns == limit)
  }

  ghost predicate EndsOk(s: System) {
    && |s.held| <= BUFSIZE
    && (s.closed ==> s.client.shut && s.out == [] && s.held == [])
    && (s.client.over ==> s.closed && s.back == [])
  }

  ghost predicate Good(limit: nat, s: System) {
    Conserved(s) && ClientOk(limit, s) && EndsOk(s)
  }

  /** Bytes that have left the server or are still to be read are not yet counted by the client. */
  lemma StreamLength(s: System)
    requires Conserved(s)
    ensures |s.sent| == |s.client.flushed| + |s.client.buffer| + |s.back| + |s.held| + |s.out|
  {
    hide Upper;
    assert |Upper(s.sent)| == |s.sent|;
  }

  /** So the test for 100 percent, done before the bytes just read are counted, never stops the client. */
  lemma NeverAtLimit(limit: nat, s: System)
    requires Good(limit, s) && s.back != []
    ensures s.client.received < DataSize(limit)
  {
    StreamLength(s);
    assert |s.sent| <= DataSize(limit);
  }

  lemma SendConserves(limit: nat, s: System, chunk: Bytes)
    requires Conserved(s) && Enabled(limit, s, Send(chunk))
    ensures Conserved(Next(limit, s, Send(chunk)))
  {
    hide Upper;
    UpperConcat(s.sent, chunk);
    UpperConcat(s.out, chunk);
  }

  lemma ReceiveConserves(limit: nat, s: System, n: nat)
    requires Conserved(s) && Enabled(limit, s, Receive(n))
    ensures Conserved(Next(limit, s, Receive(n)))
  {
    hide Upper;
    var s' := Next(limit, s, Receive(n));
    UpperConcat(s'.held, s'.out);
    assert s'.held + s'.out == s.out;
    assert s'.held[0..] == s'.held && s'.held[..0] == [];
    assert s.held[..s.raised] == [] && s.held[s.raised..] == [];
    assert Upper([]) == [];
  }

  lemma RaiseConserves(limit: nat, s: System)
    requires Conserved(s) && Enabled(limit, s, Raise)
    ensures Conserved(Next(limit, s, Raise))
  {
    hide Upper;
    var s', k := Next(limit, s, Raise), s.raised;
    var b := s.held[k];
    assert s'.held[..k + 1] == s.held[..k] + [ToUpper(b)];
    assert s.held[k..] == [b] + s'.held[k + 1..];
    UpperConcat([b], s'.held[k + 1..]);
    assert Upper([b]) == [ToUpper(b)];
  }

  lemma AnswerConserves(limit: nat, s: System, n: nat)
    requires Conserved(s) && Enabled(limit, s, Answer(n))
    ensures Conserved(Next(limit, s, Answer(n)))
  {
    hide Upper;
    var s' := Next(limit, s, Answer(n));
    assert s.held == s.held[..n] + s.held[n..];
    assert s.held[..s.raised] == s.held && s'.held[..s'.raised] == s'.held;
    assert s.held[s.raised..] == [] && s'.held[s'.raised..] == [];
  }

  lemma ReadConserves(limit: nat, s: System, n: nat)
    requires Good(limit, s) && Enabled(limit, s, Read(n))
    ensures Conserved(Next(limit, s, Read(n)))
  {
    hide Upper;
    NeverAtLimit(limit, s);
    assert s.back == s.back[..n] + s.back[n..];
  }

  lemma FlushConserves(limit: nat, s: System, n: nat)
    requires Conserved(s) && Enabled(limit, s, Flush(n))
    ensures Conserved(Next(limit, s, Flush(n)))
  {
    hide Upper;
    assert s.client.buffer == s.client.buffer[..n] + s.client.buffer[n..];
  }

  lemma StepConserves(limit: nat, s: System, step: Step)
    requires Good(limit, s) && Enabled(limit, s, step)
    ensures Conserved(Next(limit, s, step))
  {
    hide Upper;
    match step
    case Send(chunk) => SendConserves(limit, s, chunk);
    case Read(n) => ReadConserves(limit, s, n);
    case Flush(n) => FlushConserves(limit, s, n);
    case Receive(n) => ReceiveConserves(limit, s, n);
    case Raise => RaiseConserves(limit, s);
    case Answer(n) => AnswerConserves(limit, s, n);
    case Shutdown =>
    case EndOfFile =>
    case Close =>
  }

  lemma StepKeepsGood(limit: nat, s: System, step: Step)
    requires Good(limit, s) && Enabled(limit, s, step)
    ensures Good(limit, Next(limit, s, step))
  {
    StepConserves(limit, s, step);
    if step.Read? { NeverAtLimit(limit, s); }
    StepKeepsClient(limit, s, step);
    StepKeepsEnds(limit, s, step);
    hide Conserved, ClientOk, EndsOk, Next, Enabled;
  }

  lemma StepKeepsClient(limit: nat, s: System, step: Step)
    requires ClientOk(limit, s) && Enabled(limit, s, step)
    requires step.Read? ==> s.client.received != DataSize(limit)
    ensures ClientOk(limit, Next(limit, s, step))
  {
  }

  lemma StepKeepsEnds(limit: nat, s: System, step: Step)
    requires EndsOk(s) && Enabled(limit, s, step)
    requires s.client.shut ==> s.client.turns >= limit
    requires step.Read? ==> s.client.received != DataSize(limit)
    ensures EndsOk(Next(limit, s, step))
  {
    hide DataSize;
  }

  lemma {:induction false} RunKeepsGood(limit: nat, s: System, steps: seq<Step>)
    requires Good(limit, s) && CanRun(limit, s, steps)
    ensures Good(limit, Run(limit, s, steps))
    decreases |steps|
  {
    hide Good, Enabled, Next;
    if steps != [] {
      StepKeepsGood(limit, s, steps[0]);
      RunKeepsGood(limit, Next(limit, s, steps[0]), steps[1..]);
    }
  }

  lemma StartIsGood(limit: nat)
    ensures Good(limit, Start())
  {
  }

  /** In every reachable state, what was written to the file, what is between the cursors, what is under way back, and
      the upper-cased rest of the server's buffer and of what is under way out, make up the upper-cased text sent. */
  lemma StreamConservation(limit: nat, steps: seq<Step>)
    requires CanRun(limit, Start(), steps)
    ensures var s := Run(limit, Start(), steps);
            && s.raised <= |s.held|
            && Upper(s.sent) == s.client.flushed + s.client.buffer + s.back
                                + s.held[..s.raised] + Upper(s.held[s.raised..] + s.out)
            && s.client.flushed <= Upper(s.sent)
            && s.client.received == |s.client.flushed| + |s.client.buffer| <= |s.sent| <= DataSize(limit)
  {
    hide Upper, Enabled, Next, CanRun, Run;
    StartIsGood(limit);
    RunKeepsGood(limit, Start(), steps);
    var s := Run(limit, Start(), steps);
    UpperConcat(s.held[s.raised..], s.out);
    StreamLength(s);
    StreamStarts(s);
    assert |s.sent| <= DataSize(limit);
  }

  lemma StreamStarts(s: System)
    requires Conserved(s)
    ensures s.client.flushed <= Upper(s.sent)
    ensures Upper(s.sent) == s.client.flushed + s.client.buffer + s.back
                             + s.held[..s.raised] + (Upper(s.held[s.raised..]) + Upper(s.out))
  {
    hide Upper;
    var f, g := s.client.flushed,
      s.client.buffer + s.back + s.held[..s.raised] + Upper(s.held[s.raised..]) + Upper(s.out);
    assert Upper(s.sent) == f + g;
  }

  /** At the end nothing is under way: file and buffer hold the whole upper-cased stream, and all of it was counted.
      The client does not write the rest of the buffer, so the file is complete exactly if the buffer is empty. */
  lemma EndOfStream(limit: nat, steps: seq<Step>)
    requires CanRun(limit, Start(), steps) && Run(limit, Start(), steps).client.over
    ensures var s := Run(limit, Start(), steps);
            && s.client.flushed + s.client.buffer == Upper(s.sent)
            && s.client.received == |s.sent|
            && s.client.turns == limit
            && (s.client.flushed == Upper(s.sent) <==> s.client.buffer == [])
  {
    hide Upper, Enabled, Next, CanRun, Run;
    StartIsGood(limit);
    RunKeepsGood(limit, Start(), steps);
    var s := Run(limit, Start(), steps);
    StreamLength(s);
    assert Upper([]) == [];
    assert |s.client.flushed + s.client.buffer| == |s.client.flushed| + |s.client.buffer|;
  }

  lemma RunCons(limit: nat, s: System, steps: seq<Step>)
    ensures steps == [] ==> CanRun(limit, s, steps) && Run(limit, s, steps) == s
    ensures steps != [] && Enabled(limit, s, steps[0]) && CanRun(limit, Next(limit, s, steps[0]), steps[1..]) ==>
              && CanRun(limit, s, steps)
              && Run(limit, s, steps) == Run(limit, Next(limit, s, steps[0]), steps[1..])
  {
  }

  // ---------------------------------------------------------------------------------------------
  // Every run ends, and only at the end of the stream
  // ---------------------------------------------------------------------------------------------

  /** What remains to be done: each byte has up to six moves ahead of it, each turn up to 256 bytes. */
  function Work(limit: nat, s: System): int {
    var c := s.client;
    1537 * (limit - c.turns) + 6 * |s.out| + 5 * |s.held| - s.raised + 3 * |s.back| + |c.buffer|
    + (if c.shut then 0 else 1) + (if s.closed then 0 else 1) + (if c.over then 0 else 1)
  }

  /** A step of the client lessens the work. */
  lemma ClientLessens(limit: nat, s: System, step: Step)
    requires Enabled(limit, s, step) && s.raised <= |s.held| && s.client.turns <= limit
    requires step.Send? || step.Shutdown? || step.Read? || step.EndOfFile? || step.Flush?
    requires step.Read? ==> s.client.received != DataSize(limit)
    ensures Work(limit, Next(limit, s, step)) < Work(limit, s)
  {
    hide DataSize;
    match step
    case Send(chunk) =>
    case Shutdown =>
    case Read(n) =>
    case EndOfFile =>
    case Flush(n) =>
  }

  /** A step of the server lessens the work. */
  lemma ServerLessens(limit: nat, s: System, step: Step)
    requires Enabled(limit, s, step) && s.raised <= |s.held|
    requires step.Receive? || step.Raise? || step.Answer? || step.Close?
    ensures Work(limit, Next(limit, s, step)) < Work(limit, s)
  {
    match step
    case Receive(n) =>
    case Raise =>
    case Answer(n) =>
    case Close =>
  }

  /** Every step lessens the work, so no run from a good state is longer than it. */
  lemma StepLessens(limit: nat, s: System, step: Step)
    requires Good(limit, s) && Enabled(limit, s, step)
    ensures 0 <= Work(limit, Next(limit, s, step)) < Work(limit, s)
  {
    StepKeepsGood(limit, s, step);
    GoodBounds(limit, s);
    WorkIsNat(limit, Next(limit, s, step));
    if step.Read? { NeverAtLimit(limit, s); }
    hide Good, Work, Next, DataSize;
    if step.Receive? || step.Raise? || step.Answer? || step.Close? {
      ServerLessens(limit, s, step);
    } else {
      ClientLessens(limit, s, step);
    }
  }

  lemma GoodBounds(limit: nat, s: System)
    requires Good(limit, s)
    ensures s.raised <= |s.held| && s.client.turns <= limit
  {
    hide Stream, Upper;
  }

  lemma {:induction false} RunsAreBounded(limit: nat, s: System, steps: seq<Step>)
    requires Good(limit, s) && CanRun(limit, s, steps)
    ensures |steps| + Work(limit, Run(limit, s, steps)) <= Work(limit, s)
    decreases |steps|
  {
    hide Good, Enabled, Next, Work;
    if steps != [] {
      StepKeepsGood(limit, s, steps[0]);
      StepLessens(limit, s, steps[0]);
      RunsAreBounded(limit, Next(limit, s, steps[0]), steps[1..]);
    }
  }

  /** While the client is not done, something can be done: the cursors' reset keeps the buffer from blocking. */
  lemma NeverStuck(limit: nat, s: System)
    requires Good(limit, s) && !s.client.over
    ensures exists step :: Enabled(limit, s, step)
  {
    var c := s.client;
    if c.turns < limit { assert Enabled(limit, s, Send([])); }
    else if !c.shut { assert Enabled(limit, s, Shutdown); }
    else if c.buffer != [] { assert Enabled(limit, s, Flush(1)); }
    else if s.back != [] { assert Enabled(limit, s, Read(1)); }
    else if s.closed { assert Enabled(limit, s, EndOfFile); }
    else if s.raised < |s.held| { assert Enabled(limit, s, Raise); }
    else if s.held != [] { assert Enabled(limit, s, Answer(1)); }
    else if s.out != [] { assert Enabled(limit, s, Receive(1)); }
    else { assert Enabled(limit, s, Close); }
  }

  /** A run that cannot be continued has reached the end of the stream, and no run is longer than this bound. */
  lemma AlwaysEnds(limit: nat, steps: seq<Step>)
    requires CanRun(limit, Start(), steps)
    ensures |steps| <= 1537 * limit + 3
    ensures Run(limit, Start(), steps).client.over
            || exists step :: Enabled(limit, Run(limit, Start(), steps), step)
  {
    hide Enabled, Next, CanRun, Run;
    StartIsGood(limit);
    RunKeepsGood(limit, Start(), steps);
    RunsAreBounded(limit, Start(), steps);
    var s := Run(limit, Start(), steps);
    WorkIsNat(limit, s);
    if !s.client.over { NeverStuck(limit, s); }
  }

  lemma WorkIsNat(limit: nat, s: System)
    requires Good(limit, s)
    ensures Work(limit, s) >= 0
  {
    GoodBounds(limit, s);
    hide Good;
  }
}
