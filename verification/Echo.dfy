/** The code of the echo client (Assignment-2/nonblockingio.c, strcli) and of the server (Assignment-2/server.c, main)
    against the steps of the system. What the calls to select, read, send and write report is a parameter. */
module Echo {
  import opened Octets
  import opened Options
  import opened EchoModel

  // ---------------------------------------------------------------------------------------------
  // The server
  // ---------------------------------------------------------------------------------------------

  /** The server upper-cases the bytes it received in place. */
  method UpperInPlace(buf: array<byte>, n: nat)
    requires n <= buf.Length
    modifies buf
    ensures buf[..] == Upper(old(buf[..n])) + old(buf[n..])
  {
    var i := 0;
    while i < n
      invariant 0 <= i <= n
      invariant forall k :: 0 <= k < i ==> buf[k] == ToUpper(old(buf[k]))
      invariant forall k :: i <= k < buf.Length ==> buf[k] == old(buf[k])
    {
      buf[i] := ToUpper(buf[i]);
      i := i + 1;
    }
  }

  /** The server's loop: zero the buffer, receive, upper-case, send; what it sends is what it received in upper case,
      however the text arrives. */
  method Serve(arrivals: seq<Bytes>) returns (sent: Bytes)
    requires forall i :: 0 <= i < |arrivals| ==> 0 < |arrivals[i]| <= BUFSIZE
    ensures sent == Upper(Concat(arrivals))
  {
    sent := [];
    var buf := new byte[BUFSIZE](_ => 0);
    for i := 0 to |arrivals|
      invariant sent == Upper(Concat(arrivals[..i]))
    {
      var n := |arrivals[i]|;
      Recv(buf, arrivals[i]);
      UpperInPlace(buf, n);
      assert buf[..n] == Upper(arrivals[i]);
      ConcatSnoc(arrivals[..i], arrivals[i]);
      UpperConcat(Concat(arrivals[..i]), arrivals[i]);
      assert arrivals[..i + 1] == arrivals[..i] + [arrivals[i]];
      sent := sent + buf[..n];
    }
    assert arrivals[..|arrivals|] == arrivals;
  }

  /** bzero and recv. */
  method Recv(buf: array<byte>, bytes: Bytes)
    requires |bytes| <= buf.Length
    modifies buf
    ensures buf[..|bytes|] == bytes
    ensures forall k :: |bytes| <= k < buf.Length ==> buf[k] == 0
  {
    forall k | 0 <= k < buf.Length {
      buf[k] := if k < |bytes| then bytes[k] else 0;
    }
  }

  function Concat(parts: seq<Bytes>): Bytes {
    if parts == [] then [] else parts[0] + Concat(parts[1..])
  }

  lemma {:induction false} ConcatSnoc(parts: seq<Bytes>, last: Bytes)
    ensures Concat(parts + [last]) == Concat(parts) + last
  {
    if parts == [] {
      assert [last][1..] == [];
    } else {
      assert (parts + [last])[1..] == parts[1..] + [last];
      ConcatSnoc(parts[1..], last);
    }
  }

  /** In the system, upper-casing a whole received chunk is one step per byte. */
  lemma {:induction false} RaiseIsRun(limit: nat, s: System)
    requires !s.closed && s.raised <= |s.held|
    ensures var steps := seq(|s.held| - s.raised, _ => Raise);
            && CanRun(limit, s, steps)
            && Run(limit, s, steps) == s.(held := s.held[..s.raised] + Upper(s.held[s.raised..]), raised := |s.held|)
    decreases |s.held| - s.raised
  {
    var n := |s.held| - s.raised;
    var steps := seq(n, _ => Raise);
    RunCons(limit, s, steps);
    if n == 0 {
      assert s.held == s.held[..s.raised] + Upper(s.held[s.raised..]);
    } else {
      var s' := Next(limit, s, Raise);
      RaiseIsRun(limit, s');
      assert steps[1..] == seq(n - 1, _ => Raise);
      assert s'.held[..s'.raised] + Upper(s'.held[s'.raised..]) == s.held[..s.raised] + Upper(s.held[s.raised..]);
    }
  }

  // ---------------------------------------------------------------------------------------------
  // The client
  // ---------------------------------------------------------------------------------------------

  /** The bytes that are sent over and over. */
  function Data(): (data: Bytes)
    ensures |data| == BATCH && forall k :: 0 <= k < BATCH ==> data[k] == 101
  {
    seq(BATCH, _ => 101)
  }

  /** They are built by doubling. */
  method BuildData() returns (data: Bytes)
    ensures data == Data()
  {
    data := [101];
    ghost var n := 1;
    for i := 0 to 8
      invariant n == Power2(i) && data == seq(n, _ => 101)
    {
      var temp := data;
      data := data + temp;
      n := n + n;
    }
  }

  function Power2(n: nat): nat {
    if n == 0 then 1 else 2 * Power2(n - 1)
  }

  /** What select and read report on the socket. */
  datatype Reading = NotReady | Failed | Ended | Arrived(bytes: Bytes)

  /** What the calls of one turn report: the read, the number of bytes sent (none when the call failed) and the number
      written to the file, if socket and file are ready. */
  datatype Turn = Turn(reading: Reading, sending: Option<nat>, writing: Option<nat>)

  // What the four parts of a turn do to the client.

  function AfterRead(limit: nat, c: Client, t: Turn): Client {
    if c.used >= MAXLINE then c
    else match t.reading
      case Ended => c.(over := true)
      case Arrived(bytes) => Taken(c, bytes, limit)
      case _ => c
  }

  function AfterSend(limit: nat, c: Client, t: Turn): Client {
    if t.sending.Some? && c.turns < limit then c.(turns := c.turns + 1) else c
  }

  function AfterWrite(wanted: bool, c: Client, t: Turn): Client {
    if wanted && t.writing.Some? && 0 < t.writing.value <= |c.buffer| then Flushed(c, t.writing.value) else c
  }

  function AfterShutdown(limit: nat, c: Client): Client {
    if c.turns >= limit then c.(shut := true) else c
  }

  /** The client after a turn. Whether the file is asked for is decided before the read. */
  function AfterTurn(limit: nat, c: Client, t: Turn): Client {
    var c1 := AfterRead(limit, c, t);
    if c1.over then c1
    else AfterShutdown(limit, AfterWrite(c.buffer != [], AfterSend(limit, c1, t), t))
  }

  /** What the turn puts on the socket. */
  function SentIn(limit: nat, c: Client, t: Turn): Bytes {
    if !AfterRead(limit, c, t).over && c.turns < limit && t.sending.Some? && t.sending.value <= BATCH
    then Data()[..t.sending.value] else []
  }

  /** No call reports more than was asked of it. */
  predicate Possible(limit: nat, c: Client, t: Turn) {
    && (t.reading.Arrived? ==> 0 < |t.reading.bytes| && c.used + |t.reading.bytes| <= MAXLINE)
    && (t.sending.Some? ==> t.sending.value <= BATCH)
    && (t.writing.Some? ==> t.writing.value <= |AfterRead(limit, c, t).buffer|)
  }

  /** What the turn reads off the socket. */
  function NewBytes(c: Client, t: Turn): Bytes {
    if c.used < 256 && t.reading.Arrived? then t.reading.bytes else []
  }

  /** A turn, call by call. It ends the loop, and does nothing else, when the read reports the end or the 100 percent are
      there. Otherwise the bytes read come behind those in the buffer; if there were any, as many as write reports go
      from the front of the buffer to the file, and an empty buffer starts at the front of the array again; a send
      counts as one batch whatever it took; behind the last batch the socket is shut. */
  lemma TurnEffects(limit: nat, c: Client, t: Turn)
    requires !c.over && Possible(limit, c, t)
    ensures var ends := c.used < 256 && (t.reading.Ended? || (t.reading.Arrived? && c.received == 256 * limit));
            var c' := AfterTurn(limit, c, t);
            if ends then c' == c.(over := true) && SentIn(limit, c, t) == []
            else
              var all := c.buffer + NewBytes(c, t);
              var n := if c.buffer != [] && t.writing.Some? then t.writing.value else 0;
              && n <= |all| && c'.flushed == c.flushed + all[..n] && c'.buffer == all[n..] && !c'.over
              && c'.received == c.received + |NewBytes(c, t)|
              && c'.used == (if n > 0 && c'.buffer == [] then 0 else c.used + |NewBytes(c, t)|)
              && c'.turns == c.turns + (if t.sending.Some? && c.turns < limit then 1 else 0)
              && (c'.shut <==> c.shut || c'.turns >= limit)
              && SentIn(limit, c, t)
                 == if t.sending.Some? && c.turns < limit then seq(t.sending.value, _ => 101) else []
  {
    var c1 := AfterRead(limit, c, t);
    var all := c.buffer + NewBytes(c, t);
    if !c1.over {
      assert c1.buffer == all;
      assert all[..0] == [] && all[0..] == all;
      if t.sending.Some? {
        assert Data()[..t.sending.value] == seq(t.sending.value, _ => 101);
      }
    }
  }

  class StrCli {
    const fr: array<byte>
    var friptr: nat
    var froptr: nat
    var i: nat
    var shut: bool
    var file: Bytes
    var recvData: nat
    var over: bool

    ghost predicate Valid()
      reads this
    {
      fr.Length == MAXLINE && froptr <= friptr <= MAXLINE
    }

    ghost function Abs(): Client
      reads this, fr
      requires Valid()
    {
      Client(i, shut, fr[froptr..friptr], friptr, file, recvData, over)
    }

    constructor ()
      ensures Valid() && fresh(fr) && Abs() == Start().client
    {
      fr := new byte[MAXLINE];
      friptr, froptr, i, shut, file, recvData, over := 0, 0, 0, false, [], 0, false;
    }

    /** One turn of the select loop. */
    method TakeTurn(limit: nat, data: Bytes, t: Turn) returns (sent: Bytes)
      requires Valid() && !over && data == Data() && Possible(limit, Abs(), t)
      modifies this, fr
      ensures Valid() && Abs() == AfterTurn(limit, old(Abs()), t)
      ensures sent == SentIn(limit, old(Abs()), t)
    {
      hide AfterRead, Flushed, Taken;
      sent := [];
      var wanted := froptr != friptr;
      ReadIntoBuffer(limit, t);
      if over {
        return;
      }
      if t.sending.Some? && i < limit {
        sent := data[..t.sending.value];
        i := i + 1;
      }
      if wanted {
        WriteFromBuffer(t);
      }
      if !(i < limit) {
        shut := true;
      }
    }

    /** Read behind the filling cursor. */
    method ReadIntoBuffer(limit: nat, t: Turn)
      requires Valid() && Possible(limit, Abs(), t)
      modifies this, fr
      ensures Valid() && Abs() == AfterRead(limit, old(Abs()), t) && i == old(i)
    {
      if friptr >= MAXLINE {
        return;
      }
      match t.reading
      case Ended => over := true;
      case Arrived(bytes) =>
        CopyIn(bytes);
        if recvData * 100 == 100 * DataSize(limit) {
          over := true;
          return;
        }
        friptr := friptr + |bytes|;
        recvData := recvData + |bytes|;
      case _ =>
    }

    method CopyIn(bytes: Bytes)
      requires Valid() && friptr + |bytes| <= MAXLINE
      modifies fr
      ensures fr[froptr..friptr + |bytes|] == old(fr[froptr..friptr]) + bytes
      ensures fr[froptr..friptr] == old(fr[froptr..friptr])
    {
      forall k | 0 <= k < |bytes| {
        fr[friptr + k] := bytes[k];
      }
    }

    /** Write from between the cursors; when they meet, both go back to the start. */
    method WriteFromBuffer(t: Turn)
      requires Valid() && (t.writing.Some? ==> t.writing.value <= friptr - froptr)
      modifies this
      ensures Valid() && Abs() == AfterWrite(true, old(Abs()), t)
    {
      var n := friptr - froptr;
      if t.writing.Some? && n > 0 {
        var nwritten := t.writing.value;
        BufferParts(fr[..], froptr, friptr, nwritten);
        assert fr[..][froptr..friptr] == fr[froptr..friptr];
        file := file + fr[froptr..froptr + nwritten];
        froptr := froptr + nwritten;
        if froptr == friptr {
          froptr := 0;
          friptr := 0;
        }
      }
    }

    /** The whole loop, the server working between the turns: the object goes through the states that the system
        goes through, until the read reports the end. */
    method Loop(limit: nat, moves: seq<Move>)
      requires Valid() && Abs() == Start().client && Plays(limit, Start(), moves)
      modifies this, fr
      ensures Valid() && Abs() == Played(limit, Start(), moves).client
      ensures over ==> file + fr[froptr..friptr] == Upper(Played(limit, Start(), moves).sent)
    {
      hide AfterTurn, Possible, SentIn, AfterMove, CanMove, Upper;
      var data := BuildData();
      ghost var s := Start();
      for k := 0 to |moves|
        invariant Valid() && Abs() == s.client && Plays(limit, s, moves[k..])
        invariant Played(limit, s, moves[k..]) == Played(limit, Start(), moves)
      {
        assert moves[k..][0] == moves[k] && moves[k..][1..] == moves[k + 1..];
        MoveClient(limit, s, moves[k]);
        if !over {
          var sent := TakeTurn(limit, data, moves[k].turn);
        }
        s := AfterMove(limit, s, moves[k]);
      }
      PlayedStream(limit, moves);
    }
  }

  lemma BufferParts(s: Bytes, a: nat, b: nat, n: nat)
    requires a + n <= b <= |s|
    ensures s[a..b][..n] == s[a..a + n] && s[a..b][n..] == s[a + n..b]
  {
  }

  // ---------------------------------------------------------------------------------------------
  // Client and server together
  // ---------------------------------------------------------------------------------------------

  /** The server makes some steps, then the client one turn. */
  datatype Move = Move(server: seq<Step>, turn: Turn)

  predicate ByServer(step: Step) {
    step.Receive? || step.Raise? || step.Answer? || step.Close?
  }

  predicate AllByServer(steps: seq<Step>) {
    forall k :: 0 <= k < |steps| ==> ByServer(steps[k])
  }

  /** The read returns the first bytes under way back, or the end if there will be no more. */
  predicate Fits(limit: nat, s: System, t: Turn) {
    && Possible(limit, s.client, t)
    && (t.reading.Arrived? ==> t.reading.bytes <= s.back)
    && (t.reading.Ended? ==> s.back == [] && s.closed)
  }

  /** The system after a client's turn. */
  function SystemAfterTurn(limit: nat, s: System, t: Turn): System
    requires Fits(limit, s, t)
  {
    var sent := SentIn(limit, s.client, t);
    s.(client := AfterTurn(limit, s.client, t), sent := s.sent + sent, out := s.out + sent,
       back := if s.client.used < MAXLINE && t.reading.Arrived? then s.back[|t.reading.bytes|..] else s.back)
  }

  /** A move that the system can make; a client that has left its loop takes no more turns. */
  predicate CanMove(limit: nat, s: System, m: Move) {
    && AllByServer(m.server)
    && CanRun(limit, s, m.server)
    && (s.client.over || Fits(limit, Run(limit, s, m.server), m.turn))
  }

  function AfterMove(limit: nat, s: System, m: Move): System
    requires CanMove(limit, s, m)
  {
    var r := Run(limit, s, m.server);
    if s.client.over then r else SystemAfterTurn(limit, r, m.turn)
  }

  predicate Plays(limit: nat, s: System, moves: seq<Move>)
    decreases |moves|
  {
    moves == [] || (CanMove(limit, s, moves[0]) && Plays(limit, AfterMove(limit, s, moves[0]), moves[1..]))
  }

  function Played(limit: nat, s: System, moves: seq<Move>): System
    requires Plays(limit, s, moves)
    decreases |moves|
  {
    if moves == [] then s else Played(limit, AfterMove(limit, s, moves[0]), moves[1..])
  }

  lemma {:induction false} ServerKeepsClient(limit: nat, s: System, steps: seq<Step>)
    requires CanRun(limit, s, steps) && AllByServer(steps)
    ensures Run(limit, s, steps).client == s.client
    decreases |steps|
  {
    if steps != [] {
      assert ByServer(steps[0]);
      ServerKeepsClient(limit, Next(limit, s, steps[0]), steps[1..]);
    }
  }

  lemma MoveClient(limit: nat, s: System, m: Move)
    requires CanMove(limit, s, m)
    ensures var c := AfterMove(limit, s, m).client;
            if s.client.over then c == s.client
            else Possible(limit, s.client, m.turn) && c == AfterTurn(limit, s.client, m.turn)
  {
    hide AfterTurn, Possible, SentIn, CanRun, Run, AllByServer;
    ServerKeepsClient(limit, s, m.server);
  }

  // The steps that a turn consists of.

  function ReadSteps(c: Client, t: Turn): seq<Step> {
    if c.used >= MAXLINE then []
    else match t.reading
      case Ended => [EndOfFile]
      case Arrived(bytes) => [Read(|bytes|)]
      case _ => []
  }

  function SendSteps(limit: nat, c: Client, t: Turn): seq<Step>
    requires t.sending.Some? ==> t.sending.value <= BATCH
  {
    if t.sending.Some? && c.turns < limit then [Send(Data()[..t.sending.value])] else []
  }

  function WriteSteps(wanted: bool, c: Client, t: Turn): seq<Step> {
    if wanted && t.writing.Some? && 0 < t.writing.value <= |c.buffer| then [Flush(t.writing.value)] else []
  }

  function ShutdownSteps(limit: nat, c: Client): seq<Step> {
    if c.turns >= limit && !c.shut then [Shutdown] else []
  }

  function TurnSteps(limit: nat, c: Client, t: Turn): seq<Step>
    requires Possible(limit, c, t)
  {
    var c1 := AfterRead(limit, c, t);
    var c2 := AfterSend(limit, c1, t);
    if c1.over then ReadSteps(c, t)
    else ReadSteps(c, t) + SendSteps(limit, c1, t) + WriteSteps(c.buffer != [], c2, t)
         + ShutdownSteps(limit, AfterWrite(c.buffer != [], c2, t))
  }

  lemma AtMostOneStep(limit: nat, s: System, steps: seq<Step>)
    requires |steps| <= 1 && (steps != [] ==> Enabled(limit, s, steps[0]))
    ensures CanRun(limit, s, steps)
    ensures Run(limit, s, steps) == if steps == [] then s else Next(limit, s, steps[0])
  {
    RunCons(limit, s, steps);
    if steps != [] { RunCons(limit, Next(limit, s, steps[0]), []); }
  }

  lemma ReadIsRun(limit: nat, s: System, t: Turn)
    requires !s.client.over && Fits(limit, s, t)
    ensures var steps := ReadSteps(s.client, t);
            && CanRun(limit, s, steps)
            && Run(limit, s, steps) == s.(client := AfterRead(limit, s.client, t),
                 back := if s.client.used < MAXLINE && t.reading.Arrived? then s.back[|t.reading.bytes|..] else s.back)
  {
    hide CanRun, Run;
    AtMostOneStep(limit, s, ReadSteps(s.client, t));
  }

  lemma SendIsRun(limit: nat, s: System, t: Turn)
    requires !s.client.over && (t.sending.Some? ==> t.sending.value <= BATCH)
    ensures var steps := SendSteps(limit, s.client, t);
            var sent := if t.sending.Some? && s.client.turns < limit then Data()[..t.sending.value] else [];
            && CanRun(limit, s, steps)
            && Run(limit, s, steps) == s.(client := AfterSend(limit, s.client, t), sent := s.sent + sent,
                                          out := s.out + sent)
  {
    hide CanRun, Run;
    AtMostOneStep(limit, s, SendSteps(limit, s.client, t));
  }

  lemma WriteIsRun(limit: nat, s: System, wanted: bool, t: Turn)
    requires !s.client.over
    ensures var steps := WriteSteps(wanted, s.client, t);
            && CanRun(limit, s, steps)
            && Run(limit, s, steps) == s.(client := AfterWrite(wanted, s.client, t))
  {
    hide CanRun, Run;
    AtMostOneStep(limit, s, WriteSteps(wanted, s.client, t));
  }

  lemma ShutdownIsRun(limit: nat, s: System)
    requires !s.client.over
    ensures var steps := ShutdownSteps(limit, s.client);
            && CanRun(limit, s, steps)
            && Run(limit, s, steps) == s.(client := AfterShutdown(limit, s.client))
  {
    hide CanRun, Run;
    AtMostOneStep(limit, s, ShutdownSteps(limit, s.client));
  }

  /** A turn of the loop is a run of the system. */
  lemma TurnIsRun(limit: nat, s: System, t: Turn)
    requires !s.client.over && Fits(limit, s, t)
    ensures CanRun(limit, s, TurnSteps(limit, s.client, t))
    ensures Run(limit, s, TurnSteps(limit, s.client, t)) == SystemAfterTurn(limit, s, t)
  {
    hide CanRun, Run, ReadSteps, SendSteps, WriteSteps, ShutdownSteps, AfterRead, AfterShutdown;
    var c, wanted := s.client, s.client.buffer != [];
    ReadIsRun(limit, s, t);
    var steps1 := ReadSteps(c, t);
    var s1 := Run(limit, s, steps1);
    if !s1.client.over {
      AfterReadKeeps(limit, c, t);
      SendIsRun(limit, s1, t);
      var steps2 := SendSteps(limit, s1.client, t);
      var s2 := Run(limit, s1, steps2);
      RunConcat(limit, s, steps1, steps2);
      WriteIsRun(limit, s2, wanted, t);
      var steps3 := WriteSteps(wanted, s2.client, t);
      var s3 := Run(limit, s2, steps3);
      RunConcat(limit, s, steps1 + steps2, steps3);
      ShutdownIsRun(limit, s3);
      RunConcat(limit, s, steps1 + steps2 + steps3, ShutdownSteps(limit, s3.client));
    }
  }

  lemma AfterReadKeeps(limit: nat, c: Client, t: Turn)
    ensures AfterRead(limit, c, t).turns == c.turns
  {
  }

  /** So whatever server and loop do together is a run of the system. */
  lemma {:induction false} PlayedIsReachable(limit: nat, s: System, moves: seq<Move>)
    requires Plays(limit, s, moves)
    ensures exists steps :: CanRun(limit, s, steps) && Run(limit, s, steps) == Played(limit, s, moves)
    decreases |moves|
  {
    hide CanRun, Run, SystemAfterTurn, Fits, TurnSteps, ByServer;
    if moves == [] {
      RunCons(limit, s, []);
    } else {
      var m, s' := moves[0], AfterMove(limit, s, moves[0]);
      var head := m.server;
      if !s.client.over {
        var r := Run(limit, s, m.server);
        ServerKeepsClient(limit, s, m.server);
        FitsPossible(limit, r, m.turn);
        TurnIsRun(limit, r, m.turn);
        RunConcat(limit, s, m.server, TurnSteps(limit, r.client, m.turn));
        head := m.server + TurnSteps(limit, r.client, m.turn);
      }
      PlayedIsReachable(limit, s', moves[1..]);
      var tail :| CanRun(limit, s', tail) && Run(limit, s', tail) == Played(limit, s', moves[1..]);
      RunConcat(limit, s, head, tail);
    }
  }

  lemma FitsPossible(limit: nat, s: System, t: Turn)
    requires Fits(limit, s, t)
    ensures Possible(limit, s.client, t)
  {
  }

  /** What the loop leaves behind when it ends, and what it has written before. */
  lemma PlayedStream(limit: nat, moves: seq<Move>)
    requires Plays(limit, Start(), moves)
    ensures var s := Played(limit, Start(), moves);
            && s.client.flushed <= Upper(s.sent)
            && (s.client.over ==> s.client.flushed + s.client.buffer == Upper(s.sent))
  {
    hide *;
    PlayedIsReachable(limit, Start(), moves);
    var steps :| CanRun(limit, Start(), steps) && Run(limit, Start(), steps) == Played(limit, Start(), moves);
    StreamConservation(limit, steps);
    if Played(limit, Start(), moves).client.over { EndOfStream(limit, steps); }
  }

  // ---------------------------------------------------------------------------------------------
  // The rest of the buffer
  // ---------------------------------------------------------------------------------------------

  /** A turn in which the socket is writable and send takes `k` bytes. */
  function SendTurn(k: nat): Move {
    Move([], Turn(NotReady, Some(k), None))
  }

  /** The server upper-cases the byte, answers and closes, and the client reads the byte. */
  function ByteMove(): Move {
    Move([Receive(1), Raise, Answer(1), Close], Turn(Arrived([69]), None, None))
  }

  /** In its next turn the client reads the end of the stream. */
  function EndMove(): Move {
    Move([], Turn(Ended, None, None))
  }

  /** One byte sent in the first turn, none in the others. */
  function OneByte(turns: nat, shut: bool): System {
    System(Client(turns, shut, [], 0, [], 0, false), [101], [101], [], 0, false, [])
  }

  lemma FirstTurn(limit: nat)
    requires limit > 0
    ensures CanMove(limit, Start(), SendTurn(1))
    ensures AfterMove(limit, Start(), SendTurn(1)) == OneByte(1, limit == 1)
  {
    RunCons(limit, Start(), []);
    hide CanRun, Run;
    assert Data()[..1] == [101];
  }

  lemma EmptyTurn(limit: nat, k: nat)
    requires 0 < k < limit
    ensures CanMove(limit, OneByte(k, false), SendTurn(0))
    ensures AfterMove(limit, OneByte(k, false), SendTurn(0)) == OneByte(k + 1, k + 1 == limit)
  {
    RunCons(limit, OneByte(k, false), []);
    hide CanRun, Run;
    assert Data()[..0] == [];
  }

  lemma PlaysCons(limit: nat, s: System, m: Move, rest: seq<Move>)
    requires CanMove(limit, s, m) && Plays(limit, AfterMove(limit, s, m), rest)
    ensures Plays(limit, s, [m] + rest)
    ensures Played(limit, s, [m] + rest) == Played(limit, AfterMove(limit, s, m), rest)
  {
    hide CanMove, AfterMove;
    assert ([m] + rest)[0] == m && ([m] + rest)[1..] == rest;
  }

  lemma PlaysNothing(limit: nat, s: System)
    ensures Plays(limit, s, []) && Played(limit, s, []) == s
  {
  }

  /** The byte has been answered. */
  function Answered(limit: nat): System {
    System(Client(limit, true, [], 0, [], 0, false), [101], [], [], 0, true, [69])
  }

  lemma ServerAnswers(limit: nat)
    ensures CanRun(limit, OneByte(limit, true), ByteMove().server)
    ensures Run(limit, OneByte(limit, true), ByteMove().server) == Answered(limit)
  {
    hide CanRun, Run;
    var s0 := OneByte(limit, true);
    var s1 := Next(limit, s0, Receive(1));
    var s2 := Next(limit, s1, Raise);
    assert s2.held == [69];
    var s3 := Next(limit, s2, Answer(1));
    var s4 := Next(limit, s3, Close);
    assert s4 == Answered(limit);
    var l3, l2, l1, l0 := [Close], [Answer(1), Close], [Raise, Answer(1), Close], ByteMove().server;
    assert l3[1..] == [] && l2[1..] == l3 && l1[1..] == l2 && l0[1..] == l1;
    RunCons(limit, s4, []);
    RunCons(limit, s3, l3);
    RunCons(limit, s2, l2);
    RunCons(limit, s1, l1);
    RunCons(limit, s0, l0);
  }

  /** The byte has been read; it is in the buffer. */
  function InBuffer(limit: nat, over: bool): System {
    System(Client(limit, true, [69], 1, [], 1, over), [101], [], [], 0, true, [])
  }

  lemma ByteArrives(limit: nat)
    requires limit > 0
    ensures CanMove(limit, OneByte(limit, true), ByteMove())
    ensures AfterMove(limit, OneByte(limit, true), ByteMove()) == InBuffer(limit, false)
  {
    ServerAnswers(limit);
    hide CanRun, Run, Data;
  }

  lemma EndArrives(limit: nat)
    requires limit > 0
    ensures CanMove(limit, InBuffer(limit, false), EndMove())
    ensures AfterMove(limit, InBuffer(limit, false), EndMove()) == InBuffer(limit, true)
  {
    RunCons(limit, InBuffer(limit, false), []);
    hide CanRun, Run, Data;
  }

  /** The remaining turns, from the k-th on. */
  lemma {:induction false} ByteLost(limit: nat, k: nat) returns (moves: seq<Move>)
    requires 0 < k <= limit
    ensures Plays(limit, OneByte(k, k == limit), moves)
    ensures var end := Played(limit, OneByte(k, k == limit), moves);
            end.client.over && end.client.flushed == [] && end.sent == [101]
    decreases limit - k
  {
    hide Plays, Played, CanMove, AfterMove;
    if k == limit {
      ByteArrives(limit);
      EndArrives(limit);
      PlaysNothing(limit, InBuffer(limit, true));
      PlaysCons(limit, InBuffer(limit, false), EndMove(), []);
      PlaysCons(limit, OneByte(limit, true), ByteMove(), [EndMove()] + []);
      moves := [ByteMove()] + ([EndMove()] + []);
    } else {
      EmptyTurn(limit, k);
      var rest := ByteLost(limit, k + 1);
      PlaysCons(limit, OneByte(k, false), SendTurn(0), rest);
      moves := [SendTurn(0)] + rest;
    }
  }

  /** Client and server can play so that the loop ends with a byte in the buffer, which never reaches the file. */
  lemma LeftoverLost(limit: nat) returns (moves: seq<Move>)
    requires limit > 0
    ensures Plays(limit, Start(), moves)
    ensures var end := Played(limit, Start(), moves);
            end.client.over && end.client.flushed == [] && end.sent == [101]
  {
    hide *;
    FirstTurn(limit);
    var rest := ByteLost(limit, 1);
    PlaysCons(limit, Start(), SendTurn(1), rest);
    moves := [SendTurn(1)] + rest;
  }

  /** The loop writes everything, however client and server play, exactly when there is nothing to send. */
  lemma FileCompleteIff(limit: nat)
    ensures (forall moves :: Plays(limit, Start(), moves) && Played(limit, Start(), moves).client.over ==>
               Played(limit, Start(), moves).client.flushed == Upper(Played(limit, Start(), moves).sent))
            <==> limit == 0
  {
    hide Plays, Played;
    if limit == 0 {
      forall moves | Plays(limit, Start(), moves) && Played(limit, Start(), moves).client.over
        ensures Played(limit, Start(), moves).client.flushed == Upper(Played(limit, Start(), moves).sent)
      {
        NothingSent(moves);
      }
    } else {
      var moves := LeftoverLost(limit);
      assert |Upper([101])| == 1;
    }
  }

  lemma NothingSent(moves: seq<Move>)
    requires Plays(0, Start(), moves)
    ensures Played(0, Start(), moves).client.flushed == Upper(Played(0, Start(), moves).sent)
  {
    hide Plays, Played, CanRun, Run;
    PlayedIsReachable(0, Start(), moves);
    var steps :| CanRun(0, Start(), steps) && Run(0, Start(), steps) == Played(0, Start(), moves);
    StreamConservation(0, steps);
    assert DataSize(0) == 0;
  }

  // ---------------------------------------------------------------------------------------------
  // Batches that were counted as sent
  // ---------------------------------------------------------------------------------------------

  /** The turn counts a batch. */
  predicate Counts(limit: nat, c: Client, t: Turn) {
    !AfterRead(limit, c, t).over && c.turns < limit && t.sending.Some?
  }

  /** Every send that was counted took a whole batch. */
  predicate AllWhole(limit: nat, s: System, moves: seq<Move>)
    requires Plays(limit, s, moves)
    decreases |moves|
  {
    moves == [] ||
    ((!s.client.over && Counts(limit, s.client, moves[0].turn) ==> moves[0].turn.sending == Some(BATCH))
     && AllWhole(limit, AfterMove(limit, s, moves[0]), moves[1..]))
  }

  /** What one move adds to the bytes sent and to the batches counted. */
  lemma MoveSends(limit: nat, s: System, m: Move)
    requires CanMove(limit, s, m)
    ensures var s' := AfterMove(limit, s, m);
            if !s.client.over && Counts(limit, s.client, m.turn) then
              s'.client.turns == s.client.turns + 1 && |s'.sent| == |s.sent| + m.turn.sending.value
              && m.turn.sending.value <= BATCH
            else s'.client.turns == s.client.turns && |s'.sent| == |s.sent|
  {
    ServerKeepsClient(limit, s, m.server);
    ServerSends(limit, s, m.server);
    hide Run, CanRun, AllByServer, Taken, Flushed;
  }

  lemma {:induction false} ServerSends(limit: nat, s: System, steps: seq<Step>)
    requires CanRun(limit, s, steps) && AllByServer(steps)
    ensures Run(limit, s, steps).sent == s.sent
    decreases |steps|
  {
    if steps != [] {
      assert ByServer(steps[0]);
      ServerSends(limit, Next(limit, s, steps[0]), steps[1..]);
    }
  }

  lemma {:induction false} PlaySends(limit: nat, s: System, moves: seq<Move>)
    requires Plays(limit, s, moves) && |s.sent| <= DataSize(s.client.turns)
    ensures var end := Played(limit, s, moves);
            && |end.sent| <= DataSize(end.client.turns)
            && (|end.sent| == DataSize(end.client.turns) <==>
                  |s.sent| == DataSize(s.client.turns) && AllWhole(limit, s, moves))
    decreases |moves|
  {
    if moves != [] {
      MoveSends(limit, s, moves[0]);
      hide CanMove, AfterMove, Counts;
      PlaySends(limit, AfterMove(limit, s, moves[0]), moves[1..]);
    }
  }

  /** The client counts a batch as sent when send takes less of it, or fails: a play that ends has sent all that was meant
      to be sent exactly if every send it counted took a whole batch. */
  lemma AllSentIff(limit: nat, moves: seq<Move>)
    requires Plays(limit, Start(), moves) && Played(limit, Start(), moves).client.over
    ensures |Played(limit, Start(), moves).sent| == DataSize(limit) <==> AllWhole(limit, Start(), moves)
  {
    PlaySends(limit, Start(), moves);
    PlayedIsReachable(limit, Start(), moves);
    hide Plays, Played, AllWhole, CanRun, Run;
    var steps :| CanRun(limit, Start(), steps) && Run(limit, Start(), steps) == Played(limit, Start(), moves);
    EndOfStream(limit, steps);
  }
}
