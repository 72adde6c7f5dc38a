/** A run of Assignment-2/multiplethreads.c that ends without a failure and is wrong: thread 1 calls strtok first, loses the
    cursor to thread 0, and gets the end of thread 0's next frame, which line 52 copies under the spent cursor. */
module RefilledRun {
  import opened Options
  import opened CStrings
  import opened Buffers
  import opened Overlap
  import opened Reassembly
  import opened Sender
  import opened Transfer
  import opened TransferProgress
  import opened TidyRuns
  import opened TidyResults
  import opened OverlapResults
  import opened SharedCursor
  import opened CursorRefill

  // ---------------------------------------------------------------------------------------------
  // A turn behind the strtok calls
  // ---------------------------------------------------------------------------------------------

  /** Copy, lock, seek, write, count and unlock, with nobody in between. */
  function AfterTurn(st: State, q: nat, pos: nat, o: nat, from: nat): State
    requires Sized(st) && q < |st.threads| && o < |st.threads|
  {
    var temps := st.temps[q := Filled(st.temps[q], StringAt(st.temps[o], from))];
    var text := StringAt(temps[o], from);
    st.(threads := st.threads[q := Receiving], temps := temps, holder := None,
        file := PosWrite(st.file, pos, text + [NUL]), fpos := pos + |text| + 1,
        received := st.received + |text|, log := st.log + [NumberAt(pos)])
  }

  function Six(q: nat): seq<nat> {
    [q] + ([q] + ([q] + ([q] + ([q] + ([q] + [])))))
  }

  lemma TurnRuns(st: State, q: nat, pos: nat, o: nat, from: nat)
    requires Sized(st) && Alive(st) && q < |st.threads| && o < |st.threads| && st.holder.None?
    requires st.threads[q] == Tokened(pos, o, from)
    ensures CanRun(st, Six(q)) && Run(st, Six(q)) == AfterTurn(st, q, pos, o, from)
  {
    hide StringAt, Filled, PosWrite, NumberAt, CanRun, Run;
    var st1 := Next(st, q);
    var st2 := Next(st1, q);
    var st3 := Next(st2, q);
    var st4 := Next(st3, q);
    var st5 := Next(st4, q);
    var st6 := Next(st5, q);
    assert st6.threads == st.threads[q := Receiving];
    RunCons(st6, []);
    RunFront(st5, q, []);
    RunFront(st4, q, [q] + []);
    RunFront(st3, q, [q] + ([q] + []));
    RunFront(st2, q, [q] + ([q] + ([q] + [])));
    RunFront(st1, q, [q] + ([q] + ([q] + ([q] + []))));
    RunFront(st, q, [q] + ([q] + ([q] + ([q] + ([q] + [])))));
  }

  // ---------------------------------------------------------------------------------------------
  // Thread 0 takes its first two frames
  // ---------------------------------------------------------------------------------------------

  /** Nothing has been received; buffers and cursor are whatever they are. */
  function Fresh(src: string, n: nat, temps: seq<string>, cursor: Option<Cursor>): State {
    Start(src, n).(temps := temps, cursor := cursor)
  }

  lemma FreshInv(src: string, n: nat, temps: seq<string>, cursor: Option<Cursor>)
    requires 0 < n && |temps| == n
    ensures Inv(Loads(src), src, n, Fresh(src, n, temps, cursor))
  {
    StartInv(src, n);
    var st0, st := Start(src, n), Fresh(src, n, temps, cursor);
    assert st == st0.(temps := temps, cursor := cursor) && |st0.threads| == n && st0.holder.None?;
    assert forall q :: 0 <= q < n ==> st0.threads[q].Receiving?;
    FreshThreads(Loads(src), src, n, st0, temps, cursor);
    FreshLog(src, n, st0, temps, cursor);
    hide Fresh, Start, ThreadsOk, LogOk, Loads, Replay, Total;
  }

  lemma FreshThreads(w: seq<string>, src: string, n: nat, st: State, temps: seq<string>, cursor: Option<Cursor>)
    requires |temps| == n && ThreadsOk(w, src, n, st) && st.holder.None?
    requires forall q :: 0 <= q < n ==> st.threads[q].Receiving?
    ensures ThreadsOk(w, src, n, st.(temps := temps, cursor := cursor))
  {
    hide StreamOf, Load, StageOk, Idx;
    var st' := st.(temps := temps, cursor := cursor);
    forall q | 0 <= q < n ensures ThreadOk(w, src, n, st', q) {
      assert ThreadOk(w, src, n, st, q) && Got(src, n, st', q) == Got(src, n, st, q);
    }
  }

  lemma FreshLog(src: string, n: nat, st: State, temps: seq<string>, cursor: Option<Cursor>)
    requires 0 < n == |st.inbox| == |st.threads| && LogOk(src, n, st)
    ensures LogOk(src, n, st.(temps := temps, cursor := cursor))
  {
    hide Written, Idx, InOrder, Distinct, ChunkCount;
    var st' := st.(temps := temps, cursor := cursor);
    forall q | 0 <= q < n ensures Written(src, n, st', q) == Written(src, n, st, q) {
      SameWritten(src, n, st, st', q);
    }
  }

  lemma SameWritten(src: string, n: nat, st: State, st': State, q: nat)
    requires q < n == |st.inbox| == |st.threads| && st'.inbox == st.inbox && st'.threads == st.threads
    ensures Written(src, n, st', q) == Written(src, n, st, q)
  {
    hide StreamOf;
  }

  /** Thread 0 makes its first call. */
  lemma ZeroFirst(src: string, n: nat, st: State) returns (st1: State)
    requires Clean(src) && 0 < n && 0 < ChunkCount(src) && Inv(Loads(src), src, n, st)
    requires n == |st.inbox| == |st.threads| == |st.temps| && st.threads[0].Received? && NobodyHalved(st)
    requires Stands(st.temps[0], 0, FrameOf(src, 0)) && Current(src, n, st, 0) == 0
    ensures TidyStep(st, 0) && Next(st, 0) == st1 && Inv(Loads(src), src, n, st1)
    ensures st1 == st.(threads := st.threads[0 := Halved(Place(0))], temps := st.temps[0 := st1.temps[0]],
                       cursor := Some(Cursor(0, TokenAt(0))))
            && |st1.temps| == n && Stands(st1.temps[0], TokenAt(0), Chunk(src, 0) + ";")
  {
    InvIsAlive(Loads(src), src, n, st);
    FrameFirst(st.temps[0], src, 0);
    st1 := Next(st, 0);
    FirstIs(st, 0);
    StepKeepsInv(Loads(src), src, n, st, 0);
    hide Inv, Next, Tok, StringAt, Stands, Loads, FrameOf, TokenAt, ChunkCount, Chunk, Place;
    InvThread(Loads(src), src, n, st1, 0);
    PosIs(Loads(src), src, n, st1, 0);
    CurrentKept(src, n, st, st1);
  }

  /** And its second one. */
  lemma ZeroSecond(src: string, n: nat, st: State) returns (st1: State)
    requires Clean(src) && 0 < n && 0 < ChunkCount(src) && Inv(Loads(src), src, n, st)
    requires n == |st.inbox| == |st.threads| == |st.temps| && st.threads[0] == Halved(Place(0))
    requires st.cursor == Some(Cursor(0, TokenAt(0))) && Stands(st.temps[0], TokenAt(0), Chunk(src, 0) + ";")
    ensures TidyStep(st, 0) && Next(st, 0) == st1 && Inv(Loads(src), src, n, st1)
    ensures st1 == st.(threads := st.threads[0 := Tokened(Place(0), 0, TokenAt(0))],
                       temps := st.temps[0 := st1.temps[0]], cursor := Some(Cursor(0, |FrameOf(src, 0)|)))
            && |st1.temps| == n
  {
    InvIsAlive(Loads(src), src, n, st);
    FrameSecond(st.temps[0], src, 0);
    st1 := Next(st, 0);
    TakesStep(st, 0, 0, TokenAt(0));
    StepKeepsInv(Loads(src), src, n, st, 0);
    hide Inv, Next, Tok, StringAt, Stands, Loads, FrameOf, TokenAt, ChunkCount, Chunk, Place;
  }

  lemma TidyFront(st: State, q: nat, rest: seq<nat>)
    requires TidyStep(st, q) && (rest == [] || TidyRun(Next(st, q), rest))
    ensures TidyRun(st, [q] + rest)
  {
    hide Next;
    assert ([q] + rest)[0] == q && ([q] + rest)[1..] == rest;
  }

  lemma PosIs(w: seq<string>, src: string, n: nat, st: State, q: nat)
    requires q < n == |st.inbox| == |st.threads| == |st.temps| && ThreadOk(w, src, n, st, q) && st.threads[q].Halved?
    ensures st.threads[q].pos == Place(Current(src, n, st, q))
  {
    hide StreamOf, HalfRead, Load, Idx, Place;
  }

  lemma CurrentKept(src: string, n: nat, st: State, st': State)
    requires 0 < n == |st.inbox| && st'.inbox == st.inbox
    ensures Current(src, n, st', 0) == Current(src, n, st, 0)
  {
  }

  /** Thread 0 writes the chunk. */
  lemma ZeroWrites(src: string, n: nat, st: State)
    requires Clean(src) && 0 < n && Inv(Loads(src), src, n, st)
    requires n == |st.inbox| == |st.threads| == |st.temps| && st.threads[0] == Tokened(Place(0), 0, TokenAt(0))
    requires st.holder.None?
    ensures CanRun(st, Six(0)) && Run(st, Six(0)) == AfterTurn(st, 0, Place(0), 0, TokenAt(0))
    ensures Inv(Loads(src), src, n, AfterTurn(st, 0, Place(0), 0, TokenAt(0)))
  {
    InvIsAlive(Loads(src), src, n, st);
    hide Inv, AfterTurn, CanRun, Run, TidyRun, Alive, Six, Place, TokenAt;
    TurnRuns(st, 0, Place(0), 0, TokenAt(0));
    SixTidy(st, 0, Place(0), 0, TokenAt(0));
    RunKeepsInv(Loads(src), src, n, st, Six(0));
  }

  /** Thread 0 receives its second frame. */
  lemma ZeroReceives(src: string, n: nat, st: State) returns (end: State)
    requires Clean(src) && 0 < n < ChunkCount(src) && Inv(Loads(src), src, n, st)
    requires n == |st.inbox| == |st.threads| == |st.temps| && st.threads[0].Receiving?
    requires st.inbox[0] == StreamOf(src, n, 0)[1..]
    ensures Enabled(st, 0) && Next(st, 0) == end && Inv(Loads(src), src, n, end) && st.inbox[0] != []
    ensures end.threads == st.threads[0 := Received] && end.inbox == st.inbox[0 := st.inbox[0][1..]]
    ensures |end.temps| == n && end.holder == st.holder && end.cursor == st.cursor
    ensures Stands(end.temps[0], 0, FrameOf(src, n))
  {
    InvIsAlive(Loads(src), src, n, st);
    SecondFrame(src, n);
    end := Next(st, 0);
    StepKeepsInv(Loads(src), src, n, st, 0);
    FrameHasNoNul(src, n);
    FilledStands(st.temps[0], FrameOf(src, n));
    hide Inv, Filled, FrameOf, Loads, Stands, ChunkCount, StreamOf, Alive;
  }

  lemma SecondFrame(src: string, n: nat)
    requires 0 < n < ChunkCount(src)
    ensures 1 < |StreamOf(src, n, 0)| && StreamOf(src, n, 0)[1] == FrameOf(src, n)
    ensures StreamOf(src, n, 0)[1..][0] == FrameOf(src, n)
  {
    StreamLength(src, n, 0);
    ShareBound(ChunkCount(src), n, 0, 1);
    assert Idx(0, 1, n) == n;
  }

  /** A turn behind the calls is tidy. */
  lemma SixTidy(st: State, q: nat, pos: nat, o: nat, from: nat)
    requires Sized(st) && Alive(st) && q < |st.threads| && o < |st.threads| && st.holder.None?
    requires st.threads[q] == Tokened(pos, o, from)
    ensures TidyRun(st, Six(q))
  {
    hide StringAt, Filled, PosWrite, NumberAt, TidyRun;
    var st1 := Next(st, q);
    var st2 := Next(st1, q);
    var st3 := Next(st2, q);
    var st4 := Next(st3, q);
    var st5 := Next(st4, q);
    TidyFront(st5, q, []);
    TidyFront(st4, q, [q] + []);
    TidyFront(st3, q, [q] + ([q] + []));
    TidyFront(st2, q, [q] + ([q] + ([q] + [])));
    TidyFront(st1, q, [q] + ([q] + ([q] + ([q] + []))));
    TidyFront(st, q, [q] + ([q] + ([q] + ([q] + ([q] + [])))));
  }

  // ---------------------------------------------------------------------------------------------
  // Thread 1 stands between its calls meanwhile
  // ---------------------------------------------------------------------------------------------

  /** The same state, but that thread 1 has received its next frame and made its first call. */
  function WithOne(st: State, p: nat): State
    requires Sized(st) && 1 < |st.threads| && st.inbox[1] != []
  {
    st.(threads := st.threads[1 := Halved(p)], inbox := st.inbox[1 := st.inbox[1][1..]])
  }

  ghost predicate OneWaits(st: State) {
    Sized(st) && 1 < |st.threads| && st.threads[1].Receiving? && st.inbox[1] != []
  }

  lemma ZeroAlone(st: State, p: nat)
    requires OneWaits(st) && Enabled(st, 0)
    ensures OneWaits(Next(st, 0))
    ensures Enabled(WithOne(st, p), 0) && Next(WithOne(st, p), 0) == WithOne(Next(st, 0), p)
  {
    hide Tok, StringAt, Filled, PosWrite, NumberAt;
    assert st.threads[0] == WithOne(st, p).threads[0];
    var one, two := Next(WithOne(st, p), 0), Next(st, 0);
    assert one.threads == WithOne(two, p).threads && one.inbox == WithOne(two, p).inbox;
  }

  /** Thread 0's steps are the same. */
  lemma {:induction false} ZeroAloneRuns(st: State, p: nat, steps: seq<nat>)
    requires OneWaits(st) && CanRun(st, steps) && forall i :: 0 <= i < |steps| ==> steps[i] == 0
    ensures OneWaits(Run(st, steps))
    ensures CanRun(WithOne(st, p), steps) && Run(WithOne(st, p), steps) == WithOne(Run(st, steps), p)
    decreases |steps|
  {
    hide Enabled, Next, OneWaits, WithOne;
    if steps != [] {
      assert steps[0] == 0;
      ZeroAlone(st, p);
      ZeroAloneRuns(Next(st, 0), p, steps[1..]);
    }
  }

  // ---------------------------------------------------------------------------------------------
  // Thread 1 gets the end of thread 0's frame
  // ---------------------------------------------------------------------------------------------

  /** The end of the second frame, from where the first one ended, without the delimiter. */
  function Tail(src: string, n: nat): string {
    var f, at := FrameOf(src, n), |FrameOf(src, 0)|;
    if at < |f| then f[at..|f| - 1] else ""
  }

  lemma TailChars(d: string, c: string, at: nat, f: string, t: string)
    requires f == d + ";" + (c + ";") && |d| < at < |f| - 1 && t == f[at..|f| - 1]
    ensures |f| == at + |t| + 1 && f[|f| - 1] == ';'
    ensures forall k :: 0 <= k < |t| ==> t[k] == f[at + k] && 0 <= at + k - |d| - 1 < |c| && t[k] == c[at + k - |d| - 1]
  {
  }

  lemma FrameFront(d: string, c: string, f: string)
    requires f == d + ";" + (c + ";")
    ensures |f| > 0 && f[..|f| - 1] == d + ";" + c
  {
  }

  /** Where the first frame ends, the second one is in its chunk. */
  lemma TailNumbers(src: string, n: nat)
    requires Clean(src) && 0 < n && Refills(src, n) && |src| <= INT_RANGE
    ensures n < ChunkCount(src)
    ensures |Decimal(Place(n))| < |FrameOf(src, 0)| && |FrameOf(src, 0)| + 1 < |FrameOf(src, n)| < |FrameOf(src, 0)| + 11
  {
    FrameLength(src, 0);
    FrameLength(src, n);
    ChunkAt(src, 0);
    ChunkAt(src, n);
    PositionDigits(Place(n));
    assert |Decimal(Place(0))| >= 1;
    hide Decimal, Chunk, FrameOf;
  }

  lemma TailIs(src: string, n: nat)
    requires Clean(src) && 0 < n && Refills(src, n) && |src| <= INT_RANGE
    ensures n < ChunkCount(src)
    ensures var f, at, t := FrameOf(src, n), |FrameOf(src, 0)|, Tail(src, n);
            && |f| == at + |t| + 1 && 0 < |t| < 10 && f[|f| - 1] == ';'
            && forall k :: 0 <= k < |t| ==> t[k] == f[at + k] && t[k] != ';' && t[k] != NUL
    ensures FrameText(FrameOf(src, n)[..|FrameOf(src, n)| - 1], src, n)
  {
    TailNumbers(src, n);
    ChunkIsClean(src, n);
    FrameIs(src, n);
    var d, c, f, at, t := Decimal(Place(n)), Chunk(src, n), FrameOf(src, n), |FrameOf(src, 0)|, Tail(src, n);
    assert t == f[at..|f| - 1];
    hide Decimal, Chunk, FrameOf, ChunkCount, Place, Refills, Tail;
    TailChars(d, c, at, f, t);
    FrameFront(d, c, f);
    forall k | 0 <= k < |t| ensures t[k] == f[at + k] && t[k] != ';' && t[k] != NUL {
      assert t[k] == c[at + k - |d| - 1] && t[k] in c;
    }
  }

  lemma TailStands(buf: string, f: string, at: nat, t: string)
    requires Stands(buf, 0, f) && |f| == at + |t| + 1 && f[|f| - 1] == ';'
    requires forall k :: 0 <= k < |t| ==> t[k] == f[at + k] && t[k] != NUL
    ensures Stands(buf, at, t + ";")
    ensures at + |t| < |buf| && Stands(buf[at + |t| := NUL], 0, f[..|f| - 1])
  {
    var s := t + ";";
    forall k | 0 <= k < |s| ensures buf[at + k] == s[k] && s[k] != NUL {
      assert buf[0 + (at + k)] == f[at + k];
    }
    var g, b := f[..|f| - 1], buf[at + |t| := NUL];
    forall k | 0 <= k < |g| ensures b[0 + k] == g[k] && g[k] != NUL {
      assert buf[0 + k] == f[k];
    }
  }

  /** The call at the spent cursor takes the tail, and the frame can still be read. */
  lemma TailToken(buf: string, src: string, n: nat)
    requires Clean(src) && 0 < n && Refills(src, n) && |src| <= INT_RANGE && Stands(buf, 0, FrameOf(src, n))
    ensures var at, t := |FrameOf(src, 0)|, Tail(src, n);
            && at + |t| < |buf|
            && Tok(buf, at) == Some(Cut(buf[at + |t| := NUL], at, at + |t| + 1))
            && StringAt(buf[at + |t| := NUL], at) == t
            && FullRead(buf[at + |t| := NUL], src, n)
  {
    TailIs(src, n);
    TailTaken(buf, src, n, FrameOf(src, n), |FrameOf(src, 0)|, Tail(src, n));
  }

  lemma TailTaken(buf: string, src: string, n: nat, f: string, at: nat, t: string)
    requires Clean(src) && n < ChunkCount(src) && Stands(buf, 0, f)
    requires |f| == at + |t| + 1 && 0 < |t| && f[|f| - 1] == ';'
    requires forall k :: 0 <= k < |t| ==> t[k] == f[at + k] && t[k] != ';' && t[k] != NUL
    requires FrameText(f[..|f| - 1], src, n)
    ensures at + |t| < |buf| && Tok(buf, at) == Some(Cut(buf[at + |t| := NUL], at, at + |t| + 1))
    ensures StringAt(buf[at + |t| := NUL], at) == t && FullRead(buf[at + |t| := NUL], src, n)
  {
    hide *;
    TailStands(buf, f, at, t);
    TailTok(buf, at, t);
    StandsFullRead(buf[at + |t| := NUL], f[..|f| - 1], src, n);
  }

  lemma TailTok(buf: string, at: nat, t: string)
    requires Stands(buf, at, t + ";") && t != "" && ';' !in t
    ensures at + |t| < |buf| && Tok(buf, at) == Some(Cut(buf[at + |t| := NUL], at, at + |t| + 1))
    ensures StringAt(buf[at + |t| := NUL], at) == t
  {
    var s := t + ";";
    assert IsField(t) && t + ";" + "" == s;
    TokensOf(t, "");
    hide Tok, Token, AfterToken, TokenStart, StringAt, Stands;
    TailTokIs(buf, at, s, t);
  }

  lemma TailTokIs(buf: string, at: nat, s: string, t: string)
    requires Stands(buf, at, s) && Token(s) == Some(t) && AfterToken(s) == "" && TokenStart(s) == 0 && |s| == |t| + 1
    ensures at + |t| < |buf| && Tok(buf, at) == Some(Cut(buf[at + |t| := NUL], at, at + |t| + 1))
    ensures StringAt(buf[at + |t| := NUL], at) == t
  {
    var stop := at + |t|;
    StopIs(at, s, t);
    hide *;
    TokIs(buf, at, s, t, "");
    TokText(buf, at, s, t);
    StandsString(buf[stop := NUL], at, t);
  }

  lemma StopIs(at: nat, s: string, t: string)
    requires TokenStart(s) == 0 && |s| == |t| + 1
    ensures Stop(at, s, t) == at + |t| && NextAt(at, s, "") == at + |t| + 1
  {
    hide TokenStart;
  }

  /** Thread 1 has taken the tail, written it and unlocked. */
  function AfterSteal(src: string, n: nat, st: State): State
    requires OneWaits(st) && |FrameOf(src, 0)| + |Tail(src, n)| < |st.temps[0]|
  {
    var at, t := |FrameOf(src, 0)|, Tail(src, n);
    st.(inbox := st.inbox[1 := st.inbox[1][1..]],
        temps := st.temps[0 := st.temps[0][at + |t| := NUL]][1 := Filled(st.temps[1], t)],
        cursor := Some(Cursor(0, at + |t| + 1)), file := PosWrite(st.file, Place(1), t + [NUL]),
        fpos := Place(1) + |t| + 1, received := st.received + |t|, log := st.log + [1])
  }

  /** Thread 1's second call. */
  function Stolen(src: string, n: nat, st: State): State
    requires OneWaits(st) && |FrameOf(src, 0)| + |Tail(src, n)| < |st.temps[0]|
  {
    var at, t := |FrameOf(src, 0)|, Tail(src, n);
    WithOne(st, Place(1)).(threads := st.threads[1 := Tokened(Place(1), 0, at)],
                           temps := st.temps[0 := st.temps[0][at + |t| := NUL]],
                           cursor := Some(Cursor(0, at + |t| + 1)))
  }

  lemma OneCalls(src: string, n: nat, st: State)
    requires OneWaits(st) && Alive(st) && st.cursor == Some(Cursor(0, |FrameOf(src, 0)|))
    requires var at, t := |FrameOf(src, 0)|, Tail(src, n);
             at + |t| < |st.temps[0]| && Tok(st.temps[0], at) == Some(Cut(st.temps[0][at + |t| := NUL], at, at + |t| + 1))
    ensures Enabled(WithOne(st, Place(1)), 1) && Next(WithOne(st, Place(1)), 1) == Stolen(src, n, st)
    ensures Sized(Stolen(src, n, st)) && Alive(Stolen(src, n, st))
  {
    hide Tok, StringAt, FrameOf, Tail, Place;
    var one := WithOne(st, Place(1));
    assert forall q :: 0 <= q < |st.threads| && q != 1 ==> one.threads[q] == st.threads[q];
    TakesStep(one, 1, 0, |FrameOf(src, 0)|);
    assert one.threads[1 := Tokened(Place(1), 0, |FrameOf(src, 0)|)]
           == st.threads[1 := Tokened(Place(1), 0, |FrameOf(src, 0)|)];
  }

  lemma OneSteals(src: string, n: nat, st: State)
    requires Clean(src) && 0 < n && Refills(src, n) && |src| <= INT_RANGE
    requires OneWaits(st) && Alive(st) && st.holder.None? && st.cursor == Some(Cursor(0, |FrameOf(src, 0)|))
    requires Stands(st.temps[0], 0, FrameOf(src, n))
    ensures |FrameOf(src, 0)| + |Tail(src, n)| < |st.temps[0]|
    ensures CanRun(WithOne(st, Place(1)), [1] + Six(1))
    ensures Run(WithOne(st, Place(1)), [1] + Six(1)) == AfterSteal(src, n, st)
  {
    TailToken(st.temps[0], src, n);
    OneCalls(src, n, st);
    StealEnds(src, n, st);
    assert 1 < |st.threads| && Stolen(src, n, st).holder.None?
           && Stolen(src, n, st).threads[1] == Tokened(Place(1), 0, |FrameOf(src, 0)|);
    assert |Stolen(src, n, st).threads| > 1;
    hide *;
    TurnRuns(Stolen(src, n, st), 1, Place(1), 0, |FrameOf(src, 0)|);
    RunFront(WithOne(st, Place(1)), 1, Six(1));
  }

  lemma StealEnds(src: string, n: nat, st: State)
    requires OneWaits(st) && st.holder.None? && |FrameOf(src, 0)| + |Tail(src, n)| < |st.temps[0]|
    requires StringAt(st.temps[0][|FrameOf(src, 0)| + |Tail(src, n)| := NUL], |FrameOf(src, 0)|) == Tail(src, n)
    ensures var two := Stolen(src, n, st);
            Sized(two) && AfterTurn(two, 1, Place(1), 0, |FrameOf(src, 0)|) == AfterSteal(src, n, st)
  {
    NumberAtPlace(1);
    StolenTemps(src, n, st);
    hide StringAt, FrameOf, Tail, Place, NumberAt, PosWrite, Filled;
    assert st.threads[1 := Tokened(Place(1), 0, |FrameOf(src, 0)|)][1 := Receiving] == st.threads;
  }

  lemma StolenTemps(src: string, n: nat, st: State)
    requires OneWaits(st) && |FrameOf(src, 0)| + |Tail(src, n)| < |st.temps[0]|
    ensures var b := st.temps[0][|FrameOf(src, 0)| + |Tail(src, n)| := NUL];
            && Stolen(src, n, st).temps == st.temps[0 := b] && st.temps[0 := b][1] == st.temps[1]
            && st.temps[0 := b][1 := Filled(st.temps[1], Tail(src, n))][0] == b
  {
    hide FrameOf, Tail, Filled, Place;
  }

  // ---------------------------------------------------------------------------------------------
  // The run goes on without a failure
  // ---------------------------------------------------------------------------------------------

  /** The texts that are written in this run: of chunk 1, the tail. */
  function Wrong(src: string, n: nat): (w: seq<string>)
    requires 1 < ChunkCount(src)
    ensures |w| == ChunkCount(src) && w == Loads(src)[1 := Tail(src, n)]
  {
    Loads(src)[1 := Tail(src, n)]
  }

  lemma WrongPart(src: string, n: nat, k: nat)
    requires 1 < ChunkCount(src)
    ensures k != 1 ==> Part(Wrong(src, n), k) == Part(Loads(src), k)
    ensures Part(Wrong(src, n), 1) == Tail(src, n)
  {
    hide Load, ChunkCount, Tail;
  }

  lemma StageOther(w: seq<string>, v: seq<string>, src: string, st: State, st': State, r: nat, k: nat)
    requires r < |st.threads| == |st.temps| && r < |st'.threads| == |st'.temps|
    requires st'.threads[r] == st.threads[r] && !st.threads[r].Halved?
    requires st'.temps[r] == st.temps[r] || (st.threads[r].Received? && FullRead(st'.temps[r], src, k))
    requires Part(v, k) == Part(w, k) && StageOk(w, src, st, r, k)
    ensures StageOk(v, src, st', r, k)
  {
    hide HalfRead, FullRead, Stands, StringAt, Load, Part;
  }

  /** A thread outside the mutex, with the texts of its own chunks as they were. */
  lemma ThreadOther(w: seq<string>, v: seq<string>, src: string, n: nat, st: State, st': State, r: nat)
    requires r < n == |st.inbox| == |st.threads| == |st.temps| && n == |st'.inbox| == |st'.threads| == |st'.temps|
    requires st'.threads[r] == st.threads[r] && st'.inbox[r] == st.inbox[r] && !st.threads[r].Halved?
    requires st.holder.None? && st'.holder.None?
    requires st'.temps[r] == st.temps[r]
             || (st.threads[r].Received? && FullRead(st'.temps[r], src, Current(src, n, st, r)))
    requires forall k: nat :: k % n == r ==> Part(v, k) == Part(w, k)
    requires ThreadOk(w, src, n, st, r)
    ensures ThreadOk(v, src, n, st', r) && Written(src, n, st', r) == Written(src, n, st, r)
  {
    hide StageOk, FullRead, Load, Part, Idx, StreamOf;
    var got := Got(src, n, st, r);
    forall j: nat | got <= j < |StreamOf(src, n, r)| ensures Part(v, Idx(r, j, n)) == Load(src, Idx(r, j, n)) {
      IdxInverse(r, j, n);
    }
    if Busy(st.threads[r]) {
      IdxInverse(r, got - 1, n);
      StageOther(w, v, src, st, st', r, Idx(r, got - 1, n));
    }
  }

  /** The threads but thread 1. */
  lemma OthersAfterSteal(src: string, n: nat, st: State, st': State, r: nat)
    requires Clean(src) && 1 < n < ChunkCount(src) && Refills(src, n) && |src| <= INT_RANGE
    requires n == |st.inbox| == |st.threads| == |st.temps| && OneWaits(st) && NobodyHalved(st) && st.holder.None?
    requires st.threads[0].Received? && Stands(st.temps[0], 0, FrameOf(src, n)) && Current(src, n, st, 0) == n
    requires |FrameOf(src, 0)| + |Tail(src, n)| < |st.temps[0]| && st' == AfterSteal(src, n, st)
    requires n == |st'.inbox| == |st'.threads| == |st'.temps|
    requires r < n && r != 1 && ThreadOk(Loads(src), src, n, st, r)
    ensures ThreadOk(Wrong(src, n), src, n, st', r)
    ensures Written(src, n, st', r) == Written(src, n, st, r)
  {
    TailToken(st.temps[0], src, n);
    StealFrame(src, n, st, r);
    assert !st.threads[r].Halved?;
    OtherParts(src, n, r);
    hide *;
    ThreadOther(Loads(src), Wrong(src, n), src, n, st, st', r);
  }

  lemma OtherParts(src: string, n: nat, r: nat)
    requires 1 < ChunkCount(src) && r != 1 && 1 < n
    ensures forall k: nat :: k % n == r ==> Part(Wrong(src, n), k) == Part(Loads(src), k)
  {
    forall k: nat | k % n == r ensures Part(Wrong(src, n), k) == Part(Loads(src), k) {
      OneIsFirst(n);
      WrongPart(src, n, k);
    }
  }

  lemma StealFrame(src: string, n: nat, st: State, r: nat)
    requires n == |st.inbox| == |st.threads| == |st.temps| && OneWaits(st) && r < n && r != 1
    requires |FrameOf(src, 0)| + |Tail(src, n)| < |st.temps[0]|
    ensures var st' := AfterSteal(src, n, st);
            && n == |st'.inbox| == |st'.threads| == |st'.temps|
            && st'.threads == st.threads && st'.inbox[r] == st.inbox[r] && st'.holder == st.holder
            && (r != 0 ==> st'.temps[r] == st.temps[r])
            && (r == 0 ==> st'.temps[r] == st.temps[0][|FrameOf(src, 0)| + |Tail(src, n)| := NUL])
  {
    hide FrameOf, Tail, PosWrite, Filled, Place;
  }

  /** Thread 1. */
  lemma OneAfterSteal(src: string, n: nat, st: State)
    requires Clean(src) && 1 < n < ChunkCount(src) && OneWaits(st) && st.holder.None?
    requires n == |st.inbox| == |st.threads| == |st.temps| && st.inbox[1] == StreamOf(src, n, 1)
    requires |FrameOf(src, 0)| + |Tail(src, n)| < |st.temps[0]| && ThreadOk(Loads(src), src, n, st, 1)
    ensures ThreadOk(Wrong(src, n), src, n, AfterSteal(src, n, st), 1)
    ensures Written(src, n, st, 1) == 0 && Written(src, n, AfterSteal(src, n, st), 1) == 1
  {
    var v, w, st' := Wrong(src, n), Loads(src), AfterSteal(src, n, st);
    hide FullRead, Load, Part, FrameOf, Tail, Wrong, Loads, Stands, ChunkCount, PosWrite, Filled, StageOk, StreamOf;
    assert st'.threads == st.threads && st'.inbox[1] == StreamOf(src, n, 1)[1..];
    forall j: nat | 1 <= j < |StreamOf(src, n, 1)| ensures Part(v, Idx(1, j, n)) == Load(src, Idx(1, j, n)) {
      MulAtLeast(j, n);
      WrongPart(src, n, Idx(1, j, n));
    }
  }

  lemma OneIsFirst(n: nat)
    requires 1 < n
    ensures 1 % n == 1 && 1 / n == 0
  {
  }

  lemma {:induction false} ReplayAgrees(w: seq<string>, v: seq<string>, log: seq<nat>)
    requires forall k :: k in log ==> Part(v, k) == Part(w, k)
    ensures Replay(v, log) == Replay(w, log) && Total(v, log) == Total(w, log)
  {
    hide Part, PosWrite;
    if log != [] {
      var before, k := log[..|log| - 1], log[|log| - 1];
      assert k in log && forall c :: c in before ==> c in log;
      ReplayAgrees(w, v, before);
    }
  }

  lemma LogAfterSteal(src: string, n: nat, st: State, st': State)
    requires 1 < n < ChunkCount(src) && n == |st.inbox| == |st.threads| && n == |st'.inbox| == |st'.threads|
    requires LogOk(src, n, st) && st'.log == st.log + [1]
    requires Written(src, n, st, 1) == 0 && Written(src, n, st', 1) == 1
    requires forall r :: 0 <= r < n && r != 1 ==> Written(src, n, st', r) == Written(src, n, st, r)
    ensures 1 !in st.log && LogOk(src, n, st')
  {
    OneIsFirst(n);
    assert 1 !in st.log;
    assert Idx(1, 0, n) == 1;
    hide LogOk, Written, Idx, ChunkCount;
    LogGrows(src, n, st, st', 1);
  }

  lemma FileAfterSteal(src: string, n: nat, st: State)
    requires 1 < n < ChunkCount(src) && OneWaits(st) && |FrameOf(src, 0)| + |Tail(src, n)| < |st.temps[0]|
    requires st.holder.None? && 1 !in st.log
    requires st.file == Replay(Loads(src), st.log) && st.received == Total(Loads(src), st.log)
    ensures var st' := AfterSteal(src, n, st);
            && st'.file == Replay(Wrong(src, n), st'.log) && st'.received == Total(Wrong(src, n), st'.log)
            && Uncounted(st') == 0 && st'.log == st.log + [1]
  {
    var v, w := Wrong(src, n), Loads(src);
    forall k | k in st.log ensures Part(v, k) == Part(w, k) { WrongPart(src, n, k); }
    ReplayAgrees(w, v, st.log);
    AppendParts(v, st.log, 1);
    WrongPart(src, n, 1);
    hide Part, Replay, Total, Wrong, Loads, Tail, FrameOf, Filled, PosWrite, ChunkCount, Place;
  }

  lemma InvAfterSteal(src: string, n: nat, st: State)
    requires Clean(src) && 1 < n < ChunkCount(src) && Refills(src, n) && |src| <= INT_RANGE
    requires Inv(Loads(src), src, n, st) && OneWaits(st) && NobodyHalved(st) && st.holder.None?
    requires n == |st.temps| && st.threads[0].Received? && Stands(st.temps[0], 0, FrameOf(src, n))
    requires Current(src, n, st, 0) == n && st.inbox[1] == StreamOf(src, n, 1)
    requires |FrameOf(src, 0)| + |Tail(src, n)| < |st.temps[0]|
    ensures Inv(Wrong(src, n), src, n, AfterSteal(src, n, st))
  {
    var st' := AfterSteal(src, n, st);
    InvThread(Loads(src), src, n, st, 1);
    OneAfterSteal(src, n, st);
    StealFrame(src, n, st, 0);
    forall r | 0 <= r < n && r != 1
      ensures ThreadOk(Wrong(src, n), src, n, st', r) && Written(src, n, st', r) == Written(src, n, st, r)
    {
      InvThread(Loads(src), src, n, st, r);
      OthersAfterSteal(src, n, st, st', r);
    }
    InvParts(Loads(src), src, n, st);
    StealFrame(src, n, st, 0);
    StealLog(src, n, st);
    hide *;
    ThreadsAre(Wrong(src, n), src, n, st');
    LogAfterSteal(src, n, st, st');
    FileAfterSteal(src, n, st);
    InvFrom(Wrong(src, n), src, n, st');
  }

  lemma StealLog(src: string, n: nat, st: State)
    requires OneWaits(st) && |FrameOf(src, 0)| + |Tail(src, n)| < |st.temps[0]|
    ensures AfterSteal(src, n, st).log == st.log + [1]
  {
    hide FrameOf, Tail, PosWrite, Filled, Place;
  }

  lemma InvParts(w: seq<string>, src: string, n: nat, st: State)
    requires Inv(w, src, n, st)
    ensures 0 < n == |st.inbox| == |st.threads| == |st.temps| && LogOk(src, n, st) && st.file == Replay(w, st.log)
    ensures st.holder.None? ==> st.received == Total(w, st.log)
  {
    hide LogOk, Replay, Total, ThreadOk;
  }

  lemma InvFrom(w: seq<string>, src: string, n: nat, st: State)
    requires 0 < n == |st.inbox| == |st.threads| && ThreadsOk(w, src, n, st) && LogOk(src, n, st)
    requires st.file == Replay(w, st.log) && st.received == Total(w, st.log) && Uncounted(st) == 0
    ensures Inv(w, src, n, st)
  {
    hide ThreadsOk, LogOk, Replay, Total, Uncounted;
  }

  // ---------------------------------------------------------------------------------------------
  // From the start to the end
  // ---------------------------------------------------------------------------------------------

  lemma FullReadPos(buf: string, src: string, k: nat)
    requires FullRead(buf, src, k)
    ensures Tok(buf, 0).Some? && Atoi(StringAt(Tok(buf, 0).value.buf, Tok(buf, 0).value.start)) == Place(k)
  {
    hide Tok, StringAt, HalfRead, Place;
  }

  /** Thread 1 has received its first frame; it makes its first call. */
  lemma OneFirst(src: string, st: State) returns (next: State)
    requires Sized(st) && Alive(st) && 1 < |st.threads| && st.threads[1].Received? && FullRead(st.temps[1], src, 1)
    ensures Enabled(st, 1) && Next(st, 1) == next && |next.temps| == |st.temps|
    ensures next == st.(threads := st.threads[1 := Halved(Place(1))], temps := next.temps, cursor := next.cursor)
  {
    ReceivedEnabled(st, 1);
    assert 1 < |st.temps|;
    hide *;
    FullReadPos(st.temps[1], src, 1);
    FirstIs(st, 1);
    var c := Tok(st.temps[1], 0).value;
    next := st.(threads := st.threads[1 := Halved(Place(1))], temps := st.temps[1 := c.buf], cursor := Some(Cursor(1, c.next)));
  }

  lemma ReceivedEnabled(st: State, q: nat)
    requires Sized(st) && Alive(st) && q < |st.threads| && st.threads[q].Received?
    ensures Enabled(st, q) && |st.temps| == |st.threads|
  {
  }

  lemma HalvedFirst(src: string, st: State, temps: seq<string>, cursor: Option<Cursor>)
    requires Sized(st) && 1 < |st.threads| && st.inbox[1] != [] && |temps| == |st.threads| && st.threads[1].Receiving?
    ensures var one := FirstReceived(src, st, 1);
            one.(threads := one.threads[1 := Halved(Place(1))], temps := temps, cursor := cursor)
            == WithOne(st.(temps := temps, cursor := cursor), Place(1))
  {
    hide Filled, FrameOf, Place;
    assert st.threads[1 := Received][1 := Halved(Place(1))] == st.threads[1 := Halved(Place(1))];
  }

  /** Thread 1 receives its frame and makes its first call. */
  lemma OneStarts(src: string, n: nat) returns (st: State)
    requires Clean(src) && 1 < n < ChunkCount(src)
    ensures n == |st.inbox| == |st.threads| == |st.temps| && st == Fresh(src, n, st.temps, st.cursor) && OneWaits(st)
    ensures CanRun(Start(src, n), [1] + ([1] + []))
    ensures Run(Start(src, n), [1] + ([1] + [])) == WithOne(st, Place(1))
  {
    var start := Start(src, n);
    StartInv(src, n);
    ReceiveFirst(src, n, start, 1);
    var one := FirstReceived(src, start, 1);
    InvIsAlive(Loads(src), src, n, one);
    assert one.threads[1].Received? && |one.threads| == n && start.threads[1].Receiving? && Enabled(start, 1);
    var two := OneFirst(src, one);
    st := Fresh(src, n, two.temps, two.cursor);
    HalvedFirst(src, start, two.temps, two.cursor);
    assert OneWaits(st) && two == WithOne(st, Place(1));
    hide *;
    RunCons(two, []);
    RunFront(one, 1, []);
    RunFront(start, 1, [1] + []);
  }

  /** What the state looks like when thread 0 has received its second frame. */
  ghost predicate Ready(src: string, n: nat, st: State) {
    && n == |st.inbox| == |st.threads| == |st.temps| && OneWaits(st) && NobodyHalved(st) && st.holder.None?
    && Inv(Loads(src), src, n, st) && st.threads[0].Received? && Stands(st.temps[0], 0, FrameOf(src, n))
    && Current(src, n, st, 0) == n && st.inbox[1] == StreamOf(src, n, 1)
    && st.cursor == Some(Cursor(0, |FrameOf(src, 0)|))
  }

  /** Thread 0 has received its first frame and is in this stage, and nobody else has moved. */
  ghost predicate ZeroAt(src: string, n: nat, st: State, t: Thread) {
    && 1 < n == |st.inbox| == |st.threads| == |st.temps| && st.holder.None?
    && st.threads[0] == t && (forall q :: 1 <= q < n ==> st.threads[q].Receiving?)
    && 1 <= |StreamOf(src, n, 0)| && st.inbox[0] == StreamOf(src, n, 0)[1..] && st.inbox[1] == StreamOf(src, n, 1)
  }

  lemma ZeroMoves(src: string, n: nat, st: State, st': State, t: Thread, t': Thread)
    requires ZeroAt(src, n, st, t) && st'.threads == st.threads[0 := t'] && st'.inbox == st.inbox
    requires |st'.temps| == n && st'.holder.None?
    ensures ZeroAt(src, n, st', t')
  {
    hide StreamOf;
  }

  lemma ZeroStarts(src: string, n: nat, st: State) returns (st1: State)
    requires Clean(src) && 1 < n < ChunkCount(src) && |st.temps| == n && st == Fresh(src, n, st.temps, st.cursor)
    ensures Enabled(st, 0) && Next(st, 0) == st1 && Inv(Loads(src), src, n, st1)
    ensures ZeroAt(src, n, st1, Received) && Stands(st1.temps[0], 0, FrameOf(src, 0))
  {
    FreshInv(src, n, st.temps, st.cursor);
    FreshIs(src, n, st);
    FrameHasNoNul(src, 0);
    FilledStands(st.temps[0], FrameOf(src, 0));
    hide Inv, Fresh, Enabled, Next, FirstReceived, Stands, FrameOf, Loads, Filled, FullRead, StreamOf, ChunkCount;
    ReceiveFirst(src, n, st, 0);
    st1 := FirstReceived(src, st, 0);
    FirstReceivedIs(src, st, 0);
    hide ZeroAt;
    ZeroBegins(src, n, st, st1);
  }

  lemma FirstReceivedIs(src: string, st: State, q: nat)
    requires Sized(st) && q < |st.threads| && st.inbox[q] != []
    ensures var st' := FirstReceived(src, st, q);
            && st'.threads == st.threads[q := Received] && st'.inbox == st.inbox[q := st.inbox[q][1..]]
            && |st'.temps| == |st.temps| && st'.temps[q] == Filled(st.temps[q], FrameOf(src, q))
            && st'.holder == st.holder && st'.cursor == st.cursor
  {
    hide Filled, FrameOf;
  }

  lemma ZeroBegins(src: string, n: nat, st: State, st': State)
    requires 1 < n == |st.inbox| == |st.threads| && (forall q :: 0 <= q < n ==> st.threads[q].Receiving?)
    requires st.inbox[0] == StreamOf(src, n, 0) && st.inbox[1] == StreamOf(src, n, 1) && st.inbox[0] != []
    requires st'.threads == st.threads[0 := Received] && st'.inbox == st.inbox[0 := st.inbox[0][1..]]
    requires |st'.temps| == n && st'.holder.None?
    ensures ZeroAt(src, n, st', Received)
  {
    hide StreamOf;
  }

  lemma FreshIs(src: string, n: nat, st: State)
    requires 1 < n && |st.temps| == n && st == Fresh(src, n, st.temps, st.cursor)
    ensures n == |st.inbox| == |st.threads| && st.holder.None? && forall q :: 0 <= q < n ==> st.threads[q].Receiving?
    ensures st.inbox[0] == StreamOf(src, n, 0) && st.inbox[1] == StreamOf(src, n, 1)
  {
    hide StreamOf;
  }

  lemma ZeroAtCalls(src: string, n: nat, st: State, t: Thread)
    requires ZeroAt(src, n, st, t) && 0 < ChunkCount(src)
    ensures n == |st.inbox| == |st.threads| == |st.temps| && st.holder.None? && st.threads[0] == t
    ensures Current(src, n, st, 0) == 0 && (!t.Halved? ==> NobodyHalved(st))
  {
    FirstFrame(src, n, 0);
    hide StreamOf;
    assert Idx(0, 0, n) == 0;
  }

  /** Thread 0's two calls. */
  lemma ZeroCalls(src: string, n: nat, st: State) returns (st1: State, st2: State)
    requires Clean(src) && 0 < ChunkCount(src) && Inv(Loads(src), src, n, st)
    requires ZeroAt(src, n, st, Received) && Stands(st.temps[0], 0, FrameOf(src, 0))
    ensures Enabled(st, 0) && Next(st, 0) == st1 && Enabled(st1, 0) && Next(st1, 0) == st2
    ensures Inv(Loads(src), src, n, st2) && ZeroAt(src, n, st2, Tokened(Place(0), 0, TokenAt(0)))
    ensures st2.cursor == Some(Cursor(0, |FrameOf(src, 0)|))
  {
    ZeroAtCalls(src, n, st, Received);
    assert 0 < n;
    hide Inv, Next, Enabled, Stands, FrameOf, Place, TokenAt, Chunk, Loads, ZeroAt, ChunkCount;
    st1 := ZeroFirst(src, n, st);
    ZeroMoves(src, n, st, st1, Received, Halved(Place(0)));
    st2 := ZeroSecond(src, n, st1);
    ZeroMoves(src, n, st1, st2, Halved(Place(0)), Tokened(Place(0), 0, TokenAt(0)));
  }

  /** Thread 0 writes, and receives its second frame. */
  lemma ZeroTurns(src: string, n: nat, st: State) returns (end: State)
    requires Clean(src) && 1 < n < ChunkCount(src) && Inv(Loads(src), src, n, st)
    requires ZeroAt(src, n, st, Tokened(Place(0), 0, TokenAt(0))) && st.cursor == Some(Cursor(0, |FrameOf(src, 0)|))
    ensures CanRun(st, Six(0) + ([0] + [])) && Run(st, Six(0) + ([0] + [])) == end && Ready(src, n, end)
  {
    var t := Tokened(Place(0), 0, TokenAt(0));
    ZeroAtCalls(src, n, st, t);
    AfterTurnIs(st, 0, Place(0), 0, TokenAt(0));
    hide *;
    ZeroWrites(src, n, st);
    var st1 := AfterTurn(st, 0, Place(0), 0, TokenAt(0));
    ZeroMoves(src, n, st, st1, t, Receiving);
    ZeroAtInbox(src, n, st1, Receiving);
    end := ZeroReceives(src, n, st1);
    ZeroReady(src, n, st1, end);
    RunCons(end, []);
    RunFront(st1, 0, []);
    RunConcat(st, Six(0), [0] + []);
  }

  lemma ZeroAtInbox(src: string, n: nat, st: State, t: Thread)
    requires ZeroAt(src, n, st, t)
    ensures n == |st.inbox| == |st.threads| == |st.temps| && st.threads[0] == t
    ensures 1 <= |StreamOf(src, n, 0)| && st.inbox[0] == StreamOf(src, n, 0)[1..]
  {
  }

  lemma AfterTurnIs(st: State, q: nat, pos: nat, o: nat, from: nat)
    requires Sized(st) && q < |st.threads| && o < |st.threads|
    ensures var st' := AfterTurn(st, q, pos, o, from);
            && st'.threads == st.threads[q := Receiving] && st'.inbox == st.inbox && st'.cursor == st.cursor
            && st'.holder.None? && |st'.temps| == |st.temps|
  {
    hide StringAt, Filled, PosWrite;
  }

  lemma ZeroReady(src: string, n: nat, st: State, end: State)
    requires Clean(src) && 1 < n < ChunkCount(src) && ZeroAt(src, n, st, Receiving) && st.inbox[0] != []
    requires st.cursor == Some(Cursor(0, |FrameOf(src, 0)|)) && Inv(Loads(src), src, n, end)
    requires end.threads == st.threads[0 := Received] && end.inbox == st.inbox[0 := st.inbox[0][1..]]
    requires |end.temps| == n && end.holder == st.holder && end.cursor == st.cursor
    requires Stands(end.temps[0], 0, FrameOf(src, n))
    ensures Ready(src, n, end)
  {
    FirstFrame(src, n, 1);
    ZeroNext(src, n, st, end);
    ZeroWaits(src, n, st, end);
    hide Inv, Stands, FrameOf, OneWaits, NobodyHalved, Current, StreamOf, ZeroAt, Loads, ChunkCount, Clean;
  }

  lemma ZeroWaits(src: string, n: nat, st: State, end: State)
    requires 1 < n && ZeroAt(src, n, st, Receiving) && st.inbox[0] != [] && StreamOf(src, n, 1) != []
    requires end.threads == st.threads[0 := Received] && end.inbox == st.inbox[0 := st.inbox[0][1..]]
    requires |end.temps| == n && end.holder == st.holder
    ensures n == |end.inbox| == |end.threads| == |end.temps| && end.holder.None? && end.threads[0].Received?
    ensures OneWaits(end) && NobodyHalved(end) && end.inbox[1] == StreamOf(src, n, 1)
  {
    hide StreamOf;
    assert |end.threads| == |st.threads| && |end.inbox| == |st.inbox|;
    assert end.inbox[1] == st.inbox[1] && end.threads[1] == st.threads[1];
  }

  lemma ZeroNext(src: string, n: nat, st: State, end: State)
    requires ZeroAt(src, n, st, Receiving) && st.inbox[0] != [] && |end.inbox| == n
    requires end.inbox == st.inbox[0 := st.inbox[0][1..]]
    ensures Current(src, n, end, 0) == n
  {
    hide StreamOf;
    assert |StreamOf(src, n, 0)| - |end.inbox[0]| == 2;
    assert Idx(0, 1, n) == n;
  }

  /** Thread 0's ten steps. */
  lemma ZeroRuns(src: string, n: nat, st: State) returns (end: State, steps: seq<nat>)
    requires Clean(src) && 1 < n < ChunkCount(src) && |st.temps| == n && st == Fresh(src, n, st.temps, st.cursor)
    ensures CanRun(st, steps) && Run(st, steps) == end && Ready(src, n, end)
    ensures forall i :: 0 <= i < |steps| ==> steps[i] == 0
  {
    hide *;
    var st1 := ZeroStarts(src, n, st);
    var st2, st3 := ZeroCalls(src, n, st1);
    end := ZeroTurns(src, n, st3);
    RunFront(st2, 0, Six(0) + ([0] + []));
    RunFront(st1, 0, [0] + (Six(0) + ([0] + [])));
    RunFront(st, 0, [0] + ([0] + (Six(0) + ([0] + []))));
    steps := [0] + ([0] + ([0] + (Six(0) + ([0] + []))));
    AllZero();
  }

  lemma AllZero()
    ensures var steps := [0] + ([0] + ([0] + (Six(0) + ([0] + []))));
            forall i :: 0 <= i < |steps| ==> steps[i] == 0
  {
  }

  /** A run that ends without a failure, with the tail in the place of chunk 1. */
  lemma RefilledEnd(src: string, n: nat) returns (end: State)
    requires Clean(src) && 1 < n && Refills(src, n) && |src| <= INT_RANGE
    ensures Reachable(src, n, end) && AllFinished(end) && 1 < ChunkCount(src) && end.file == KeptContent(Wrong(src, n))
  {
    hide *;
    var ones, before, stolen := StolenReached(src, n);
    var rest := CanFinish(Wrong(src, n), src, n, stolen);
    end := Run(stolen, rest);
    RunKeepsInv(Wrong(src, n), src, n, stolen, rest);
    FinishedIsComplete(Wrong(src, n), src, n, end);
    WrongInside(src, n);
    ExactFile(Wrong(src, n), end.log);
    RunConcat(Start(src, n), ones + before, rest);
    ReachableBy(src, n, ones + before + rest);
  }

  /** A run to the state in which thread 1 has written the tail. */
  lemma StolenReached(src: string, n: nat) returns (ones: seq<nat>, steps: seq<nat>, stolen: State)
    requires Clean(src) && 1 < n && Refills(src, n) && |src| <= INT_RANGE
    ensures CanRun(Start(src, n), ones + steps) && Run(Start(src, n), ones + steps) == stolen
    ensures 1 < ChunkCount(src) && Inv(Wrong(src, n), src, n, stolen)
  {
    TailIs(src, n);
    hide *;
    var st0 := OneStarts(src, n);
    var st, zeros := ZeroRuns(src, n, st0);
    ReadyIs(src, n, st);
    ZeroAloneRuns(st0, Place(1), zeros);
    OneSteals(src, n, st);
    InvAfterSteal(src, n, st);
    stolen := AfterSteal(src, n, st);
    ones := [1] + ([1] + []);
    steps := zeros + ([1] + Six(1));
    RunConcat(WithOne(st0, Place(1)), zeros, [1] + Six(1));
    RunConcat(Start(src, n), ones, steps);
  }

  lemma ReachableBy(src: string, n: nat, steps: seq<nat>)
    requires CanRun(Start(src, n), steps)
    ensures Reachable(src, n, Run(Start(src, n), steps))
  {
  }

  lemma ReadyIs(src: string, n: nat, st: State)
    requires Ready(src, n, st)
    ensures n == |st.inbox| == |st.threads| == |st.temps| && OneWaits(st) && NobodyHalved(st) && st.holder.None?
    ensures Inv(Loads(src), src, n, st) && st.threads[0].Received? && Stands(st.temps[0], 0, FrameOf(src, n))
    ensures Current(src, n, st, 0) == n && st.inbox[1] == StreamOf(src, n, 1)
    ensures st.cursor == Some(Cursor(0, |FrameOf(src, 0)|)) && Alive(st)
  {
    InvIsAlive(Loads(src), src, n, st);
  }

  lemma WrongInside(src: string, n: nat)
    requires Clean(src) && 1 < n && Refills(src, n) && |src| <= INT_RANGE && 1 < ChunkCount(src)
    ensures Inside(Wrong(src, n)) && |Wrong(src, n)| == ChunkCount(src)
  {
    TailIs(src, n);
    LoadsInside(src);
    hide Load, Tail, ChunkCount, Refills, FrameOf;
  }

  /** The file is not what it should be: behind the tail there is a NUL. */
  lemma WrongContent(src: string, n: nat)
    requires Clean(src) && 1 < n && Refills(src, n) && |src| <= INT_RANGE
    ensures 1 < ChunkCount(src) && KeptContent(Wrong(src, n)) != KeptContent(Loads(src))
  {
    TailIs(src, n);
    var t := Tail(src, n);
    SecondLoad(src);
    WrongPart(src, n, 1);
    KeptByteAt(Wrong(src, n), 1, |t|);
    KeptByteAt(Loads(src), 1, |t|);
    LastAfterOne(src, n);
    hide KeptContent, KeptByte, Load, Tail, Wrong, Loads, ChunkCount, Refills, Place, Part;
    var p := Place(1) + |t|;
    assert KeptContent(Wrong(src, n))[p] == KeptByte(Wrong(src, n), p);
    assert KeptContent(Loads(src))[p] == KeptByte(Loads(src), p);
  }

  /** What is kept of chunk 1 is longer than the tail and holds no NUL. */
  lemma SecondLoad(src: string)
    requires Clean(src) && 2 < ChunkCount(src)
    ensures |Part(Loads(src), 1)| > 10 && NUL !in Part(Loads(src), 1)
    ensures forall r :: 0 <= r < |Part(Loads(src), 1)| ==> Part(Loads(src), 1)[r] != NUL
  {
    ChunkAt(src, 1);
    ChunkIsClean(src, 1);
    PositionDigits(Place(1));
    var d := |Decimal(Place(1))| + 1;
    KeptIs(Overlapping, d, Chunk(src, 1));
    assert Load(src, 1) == Chunk(src, 1)[d..];
    hide Chunk, Decimal;
    forall r | 0 <= r < |Load(src, 1)| ensures Load(src, 1)[r] != NUL {
      assert Load(src, 1)[r] == Chunk(src, 1)[d + r] && Chunk(src, 1)[d + r] in Chunk(src, 1);
    }
  }

  lemma LastAfterOne(src: string, n: nat)
    requires Clean(src) && 1 < n < ChunkCount(src)
    ensures Place(1) + 10 < LastByte(Wrong(src, n)) && Place(1) + 10 < LastByte(Loads(src))
  {
    hide Load, Tail;
  }

  // ---------------------------------------------------------------------------------------------
  // The condition
  // ---------------------------------------------------------------------------------------------

  /** Every run that ends without a failure leaves the file that a tidy run leaves, exactly when there is one connection or
      no refill. */
  lemma AlwaysExactIff(src: string, n: nat)
    requires Clean(src) && |src| <= INT_RANGE && 0 < n
    ensures (forall st :: Reachable(src, n, st) && AllFinished(st) ==> st.file == KeptContent(Loads(src)))
            <==> n == 1 || !Refills(src, n)
  {
    hide *;
    if n == 1 || !Refills(src, n) {
      forall st | Reachable(src, n, st) && AllFinished(st) ensures st.file == KeptContent(Loads(src)) {
        if n == 1 {
          OneThreadTidy(src, st);
        } else {
          EndsTidy(src, n, st);
        }
        ExactOverlapped(src, n, st);
      }
    } else {
      var end := RefilledEnd(src, n);
      WrongContent(src, n);
    }
  }

  lemma OneThreadTidy(src: string, st: State)
    requires Clean(src) && Reachable(src, 1, st)
    ensures TidyReachable(src, 1, st)
  {
    hide Inv, CanRun, Run, TidyRun, Start;
    var steps :| CanRun(Start(src, 1), steps) && Run(Start(src, 1), steps) == st;
    StartInv(src, 1);
    EveryRunTidy(Loads(src), src, 1, Start(src, 1), steps);
  }
}
