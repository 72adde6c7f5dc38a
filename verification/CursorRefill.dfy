/** When all runs that end without a failure are right (Assignment-2/multiplethreads.c, lines 52 to 55). A thread that
    called strtok first and has lost the cursor to another one stays behind for good, unless a longer frame is copied
    into the buffer under the spent cursor. */
module CursorRefill {
  import opened Options
  import opened CStrings
  import opened Buffers
  import opened ChunkFrame
  import opened Reassembly
  import opened Sender
  import opened Transfer
  import opened TransferProgress
  import opened TidyRuns
  import opened TidyResults

  /** Connection 0 has a second frame, and it is longer than the first one by two characters: there is a character that is
      not the delimiter behind the place where the first one ended. */
  ghost predicate Refills(src: string, n: nat) {
    n < ChunkCount(src) && |FrameOf(src, n)| >= |FrameOf(src, 0)| + 2
  }

  lemma FrameLength(src: string, k: nat)
    requires Clean(src) && k < ChunkCount(src)
    ensures |FrameOf(src, k)| == TokenAt(k) + |Chunk(src, k)| + 1
  {
    FrameIs(src, k);
    hide Chunk, Decimal, FrameOf;
  }

  /** In terms of the source: it does exactly when there are more than n + 1 chunks, or n + 1 of which the last one is
      long enough for its position. */
  lemma RefillsIff(src: string, n: nat)
    requires Clean(src) && 0 < n
    ensures Refills(src, n) <==>
              ChunkCount(src) > n + 1
              || (ChunkCount(src) == n + 1 && |Decimal(Place(n))| + |Chunk(src, n)| >= CHUNK + 3)
  {
    if n < ChunkCount(src) {
      FrameLength(src, 0);
      FrameLength(src, n);
      ChunkAt(src, 0);
      ChunkAt(src, n);
      assert Place(0) == 0 && Place(n) >= 500;
      DecimalLength(Place(0), 1);
      DecimalLength(Place(n), 2);
      assert Pow10(1) == 10 && Pow10(2) == 100;
      hide Decimal, Chunk, FrameOf;
    }
  }

  /** Otherwise only connection 0 can have two frames. */
  lemma FewFrames(src: string, n: nat, q: nat, j: nat)
    requires Clean(src) && !Refills(src, n) && q < n && 1 <= j < |StreamOf(src, n, q)|
    ensures q == 0 && j == 1 && Idx(q, j, n) == n && n < ChunkCount(src)
  {
    RefillsIff(src, n);
    StreamLength(src, n, q);
    ShareBound(ChunkCount(src), n, q, j);
    hide Refills, Decimal, Chunk, ChunkCount, Share;
    MulAtLeast(j, n);
    if j >= 2 {
      MulAtLeast(j - 1, n);
      MulDifference(j, 1, n);
    }
  }

  // ---------------------------------------------------------------------------------------------
  // Without a refill
  // ---------------------------------------------------------------------------------------------

  /** The chunk whose frame thread q received last. */
  function Current(src: string, n: nat, st: State, q: nat): nat
    requires q < n == |st.inbox|
  {
    var got := |StreamOf(src, n, q)| - |st.inbox[q]|;
    if got >= 1 then Idx(q, got - 1, n) else 0
  }

  /** The thread has the part of its connection's frames behind it that it has not in front. */
  ghost predicate InboxOk(src: string, n: nat, st: State, q: nat)
    requires q < n == |st.inbox| == |st.threads|
  {
    var got := |StreamOf(src, n, q)| - |st.inbox[q]|;
    && 0 <= got && st.inbox[q] == StreamOf(src, n, q)[got..]
    && (st.threads[q].Received? || st.threads[q].Halved? ==> 1 <= got)
  }

  /** The cursor in front of the chunk of its owner, who stands between its two calls. */
  ghost predicate LiveOk(src: string, n: nat, st: State, o: nat, at: nat)
    requires o < n == |st.inbox| == |st.threads| == |st.temps|
  {
    var k := Current(src, n, st, o);
    st.threads[o].Halved? && at == TokenAt(k) && Stands(st.temps[o], at, Chunk(src, k) + ";")
  }

  /** Its owner will not put anything under a spent cursor: not by the copy it is about to make, nor by its next frame. */
  ghost predicate SpentOk(st: State, o: nat, at: nat)
    requires o < |st.inbox| == |st.threads| == |st.temps|
  {
    var t := st.threads[o];
    && (t.Tokened? ==> t.owner == o && |Text(st, o, t.from)| < at)
    && (!t.Received? && !t.Halved? && !t.Failed? && st.inbox[o] != [] ==>
          |st.inbox[o][0]| <= at + 1 && st.inbox[o][0] != "" && st.inbox[o][0][|st.inbox[o][0]| - 1] == ';')
  }

  ghost predicate CursorOk(src: string, n: nat, st: State)
    requires n == |st.inbox| == |st.threads| == |st.temps|
  {
    st.cursor.Some? ==>
      var o, at := st.cursor.value.owner, st.cursor.value.at;
      && o < n
      && (Tok(st.temps[o], at).Some? ==> LiveOk(src, n, st, o, at))
      && (Tok(st.temps[o], at).None? ==> SpentOk(st, o, at))
  }

  ghost predicate ReceivedOk(src: string, n: nat, st: State, q: nat)
    requires q < n == |st.inbox| == |st.threads| == |st.temps|
  {
    st.threads[q].Received? ==> Stands(st.temps[q], 0, FrameOf(src, Current(src, n, st, q)))
  }

  /** What holds in every run, tidy or not. */
  ghost predicate AnyRun(src: string, n: nat, st: State) {
    && n == |st.inbox| == |st.threads| == |st.temps|
    && (forall q :: 0 <= q < n ==> InboxOk(src, n, st, q) && ReceivedOk(src, n, st, q))
    && CursorOk(src, n, st)
  }

  /** A thread between its calls that will not get its own chunk. */
  ghost predicate Behind(st: State, q: nat)
    requires Sized(st)
  {
    q < |st.threads| && st.threads[q].Halved?
    && !(st.cursor.Some? && st.cursor.value.owner == q && Tok(st.temps[q], st.cursor.value.at).Some?)
  }

  ghost predicate Doomed(st: State)
    requires Sized(st)
  {
    exists q :: Behind(st, q)
  }

  lemma StartAnyRun(src: string, n: nat)
    ensures AnyRun(src, n, Start(src, n))
  {
    hide FrameOf;
    var st := Start(src, n);
    forall q | 0 <= q < n ensures InboxOk(src, n, st, q) {
      assert StreamOf(src, n, q)[0..] == StreamOf(src, n, q);
    }
  }

  lemma CurrentIsChunk(src: string, n: nat, st: State, q: nat)
    requires q < n == |st.inbox| == |st.threads| && |st.inbox[q]| < |StreamOf(src, n, q)|
    ensures Current(src, n, st, q) < ChunkCount(src)
    ensures Current(src, n, st, q) == Idx(q, |StreamOf(src, n, q)| - |st.inbox[q]| - 1, n)
  {
    var j: nat := |StreamOf(src, n, q)| - |st.inbox[q]| - 1;
    StreamLength(src, n, q);
    ShareBound(ChunkCount(src), n, q, j);
    hide StreamOf, ChunkCount, Share, Idx;
  }

  lemma ReceiveIs(st: State, q: nat)
    requires Enabled(st, q) && st.threads[q].Receiving? && st.inbox[q] != []
    ensures Next(st, q) == st.(threads := st.threads[q := Received], inbox := st.inbox[q := st.inbox[q][1..]],
                               temps := st.temps[q := Filled(st.temps[q], st.inbox[q][0])])
  {
    hide Filled;
  }

  /** How a thread gets to its first call, and to its second. */
  lemma StageMoves(st: State, q: nat)
    requires Enabled(st, q)
    ensures var st' := Next(st, q);
            && Sized(st') && |st'.threads| == |st.threads|
            && (st'.threads[q].Received? ==> st.threads[q].Receiving? && st.inbox[q] != [])
            && (st'.threads[q].Halved? ==> st.threads[q].Received?)
            && (st.threads[q].Receiving? && st.inbox[q] == [] ==> st'.inbox == st.inbox)
  {
    NextFrame(st, q);
    hide Tok, Filled, PosWrite, StringAt, Text;
  }

  /** The inbox after a step. */
  lemma StepInbox(src: string, n: nat, st: State, q: nat, r: nat)
    requires n == |st.inbox| == |st.threads| == |st.temps| && Enabled(st, q) && r < n
    requires InboxOk(src, n, st, r)
    ensures var st' := Next(st, q);
            && n == |st'.inbox| == |st'.threads| == |st'.temps|
            && InboxOk(src, n, st', r)
            && (r != q || !st.threads[q].Receiving? ==> Current(src, n, st', r) == Current(src, n, st, r))
  {
    NextFrame(st, q);
    StageMoves(st, q);
    EnabledIsThread(st, q);
    if st.threads[q].Receiving? && st.inbox[q] != [] { ReceiveIs(st, q); }
    assert q < n && |Next(st, q).inbox| == |Next(st, q).threads| == |Next(st, q).temps| == n;
    hide *;
    if r != q || !st.threads[q].Receiving? || st.inbox[q] == [] {
      InboxSame(src, n, st, Next(st, q), r);
    } else {
      InboxLess(src, n, st, Next(st, q), q);
    }
  }

  lemma InboxSame(src: string, n: nat, st: State, st': State, r: nat)
    requires r < n == |st.inbox| == |st.threads| && n == |st'.inbox| == |st'.threads| && InboxOk(src, n, st, r)
    requires st'.inbox[r] == st.inbox[r]
    requires (st'.threads[r].Received? || st'.threads[r].Halved?) ==> (st.threads[r].Received? || st.threads[r].Halved?)
    ensures InboxOk(src, n, st', r) && Current(src, n, st', r) == Current(src, n, st, r)
  {
    hide StreamOf, Idx;
  }

  lemma InboxLess(src: string, n: nat, st: State, st': State, q: nat)
    requires q < n == |st.inbox| == |st.threads| && n == |st'.inbox| == |st'.threads| && InboxOk(src, n, st, q)
    requires st.inbox[q] != [] && st'.inbox[q] == st.inbox[q][1..]
    ensures InboxOk(src, n, st', q)
  {
    hide StreamOf, Idx;
    var got := |StreamOf(src, n, q)| - |st.inbox[q]|;
    assert st'.inbox[q] == StreamOf(src, n, q)[got + 1..];
  }

  // The buffers after a step, by the kind of step.

  lemma ReceiveAnyRun(src: string, n: nat, st: State, q: nat)
    requires Clean(src) && AnyRun(src, n, st) && Enabled(st, q) && st.threads[q].Receiving? && st.inbox[q] != []
    ensures n == |Next(st, q).inbox| == |Next(st, q).threads| == |Next(st, q).temps| && ReceivedOk(src, n, Next(st, q), q)
  {
    assert InboxOk(src, n, st, q);
    StepInbox(src, n, st, q, q);
    ReceiveIs(st, q);
    hide Next, Enabled, AnyRun, Filled, FrameOf, StreamOf, Stands, ChunkCount, Idx;
    var st' := Next(st, q);
    var got: nat := |StreamOf(src, n, q)| - |st.inbox[q]|;
    CurrentIsChunk(src, n, st', q);
    StreamAt(src, n, q, got);
    assert st.inbox[q][0] == StreamOf(src, n, q)[got];
    FrameHasNoNul(src, Current(src, n, st', q));
    FilledStands(st.temps[q], st.inbox[q][0]);
  }

  /** A string that does not reach the cursor, or only with its last delimiter, leaves no token there. */
  lemma FilledSpent(buf: string, at: nat, s: string)
    requires Tok(buf, at).None? && NUL !in s
    requires |s| <= at || (|s| == at + 1 && s[at] == ';')
    ensures Tok(Filled(buf, s), at).None?
  {
    TokNothing(buf, at);
    TokNothing(Filled(buf, s), at);
    NoTokenIff("");
    NoTokenIff(";");
    hide *;
    if |s| < at {
      FilledInFront(buf, at, s);
    } else {
      FilledUpTo(buf, at, s);
    }
  }

  lemma FilledInFront(buf: string, at: nat, s: string)
    requires |s| < at
    ensures StringAt(Filled(buf, s), at) in {"", StringAt(buf, at)}
  {
    hide UpToNul;
    var b := Filled(buf, s);
    if at <= |buf| {
      assert b[at..] == buf[at..];
    } else {
      assert |b| <= at;
    }
  }

  lemma FilledUpTo(buf: string, at: nat, s: string)
    requires NUL !in s && (|s| == at || (|s| == at + 1 && s[at] == ';'))
    ensures StringAt(Filled(buf, s), at) in {"", ";"}
  {
    hide UpToNul, StringAt;
    var b := Filled(buf, s);
    var rest := if |s| == at then "" else ";";
    assert Stands(b, at, rest);
    StandsString(b, at, rest);
  }

  /** A buffer that holds a frame still to be cut is left alone. */
  lemma OthersReceived(src: string, n: nat, st: State, q: nat, r: nat)
    requires AnyRun(src, n, st) && Enabled(st, q) && r < n && r != q
    ensures n == |Next(st, q).inbox| == |Next(st, q).threads| == |Next(st, q).temps| && ReceivedOk(src, n, Next(st, q), r)
  {
    assert InboxOk(src, n, st, r);
    StepInbox(src, n, st, q, r);
    NextFrame(st, q);
    assert ReceivedOk(src, n, st, r) && CursorOk(src, n, st);
    if st.threads[r].Received? {
      ReceivedBuffer(src, n, st, q, r);
    }
    hide Next, Enabled, CursorOk, FrameOf, Stands, Current, AnyRun;
  }

  lemma ReceivedBuffer(src: string, n: nat, st: State, q: nat, r: nat)
    requires n == |st.inbox| == |st.threads| == |st.temps| && CursorOk(src, n, st) && Enabled(st, q)
    requires r < n && r != q && st.threads[r].Received?
    ensures |Next(st, q).temps| == n && Next(st, q).temps[r] == st.temps[r]
  {
    if st.threads[q].Halved? {
      hide Tok, StringAt, Stands, SpentOk, Chunk, TokenAt;
    } else {
      hide Tok, Filled, PosWrite, StringAt, Text, CursorOk;
    }
  }

  ghost predicate Later(t: Thread) {
    t.Framed? || t.Locked? || t.Sought? || t.Wrote? || t.Counted?
  }

  lemma CursorElsewhere(src: string, n: nat, st: State, st': State)
    requires n == |st.inbox| == |st.threads| == |st.temps| && n == |st'.inbox| == |st'.threads| == |st'.temps|
    requires CursorOk(src, n, st) && st'.cursor == st.cursor
    requires st.cursor.Some? && st.cursor.value.owner < n ==>
               var o := st.cursor.value.owner;
               st'.threads[o] == st.threads[o] && st'.inbox[o] == st.inbox[o] && st'.temps[o] == st.temps[o]
    ensures CursorOk(src, n, st')
  {
    hide Tok, StringAt, StreamOf, Stands, TokenAt, Chunk;
  }

  lemma CursorSpent(src: string, n: nat, st: State, o: nat, at: nat)
    requires n == |st.inbox| == |st.threads| == |st.temps| && o < n && st.cursor == Some(Cursor(o, at))
    requires Tok(st.temps[o], at).None? && SpentOk(st, o, at)
    ensures CursorOk(src, n, st)
  {
    hide Tok, SpentOk, LiveOk;
  }

  /** The owner of a cursor who does not stand between its calls. */
  lemma OwnerSpent(src: string, n: nat, st: State, q: nat)
    requires n == |st.inbox| == |st.threads| == |st.temps| && CursorOk(src, n, st) && q < n && !st.threads[q].Halved?
    requires st.cursor.Some? && st.cursor.value.owner == q
    ensures Tok(st.temps[q], st.cursor.value.at).None? && SpentOk(st, q, st.cursor.value.at)
  {
    hide Tok, SpentOk, Stands, TokenAt, Chunk;
  }

  lemma LaterCursor(src: string, n: nat, st: State, q: nat)
    requires n == |st.inbox| == |st.threads| == |st.temps| && CursorOk(src, n, st) && Enabled(st, q)
    requires Later(st.threads[q]) || (st.threads[q].Receiving? && st.inbox[q] == [])
    ensures var st' := Next(st, q); n == |st'.inbox| == |st'.threads| == |st'.temps| && CursorOk(src, n, st')
  {
    var st' := Next(st, q);
    LaterKeeps(st, q);
    if st.cursor.Some? && st.cursor.value.owner == q {
      OwnerSpent(src, n, st, q);
      LaterSpent(st, st', q, st.cursor.value.at);
      hide *;
      CursorSpent(src, n, st', q, st.cursor.value.at);
    } else {
      NextFrame(st, q);
      hide *;
      CursorElsewhere(src, n, st, st');
    }
  }

  lemma LaterKeeps(st: State, q: nat)
    requires Enabled(st, q) && (Later(st.threads[q]) || (st.threads[q].Receiving? && st.inbox[q] == []))
    ensures var st' := Next(st, q);
            && Sized(st') && |st'.threads| == |st.threads|
            && st'.temps == st.temps && st'.cursor == st.cursor && st'.inbox == st.inbox
            && (Later(st'.threads[q]) || st'.threads[q].Receiving? || st'.threads[q].Finished?)
  {
    hide Tok, PosWrite, StringAt, Text, NumberAt;
  }

  lemma LaterSpent(st: State, st': State, q: nat, at: nat)
    requires q < |st.inbox| == |st.threads| == |st.temps| && q < |st'.inbox| == |st'.threads| == |st'.temps|
    requires SpentOk(st, q, at) && st'.inbox == st.inbox
    requires Later(st.threads[q]) || st.threads[q].Receiving? || st.threads[q].Tokened?
    requires Later(st'.threads[q]) || st'.threads[q].Receiving? || st'.threads[q].Finished?
    ensures SpentOk(st', q, at)
  {
    hide StringAt, Text;
  }

  lemma ReceiveCursor(src: string, n: nat, st: State, q: nat)
    requires n == |st.inbox| == |st.threads| == |st.temps| && CursorOk(src, n, st) && Enabled(st, q)
    requires st.threads[q].Receiving? && st.inbox[q] != [] && NUL !in st.inbox[q][0]
    ensures var st' := Next(st, q); n == |st'.inbox| == |st'.threads| == |st'.temps| && CursorOk(src, n, st')
  {
    var st' := Next(st, q);
    assert st'.cursor == st.cursor && st'.threads[q].Received?;
    assert st'.temps == st.temps[q := Filled(st.temps[q], st.inbox[q][0])];
    NextFrame(st, q);
    if st.cursor.Some? && st.cursor.value.owner == q {
      OwnerSpent(src, n, st, q);
      FilledSpent(st.temps[q], st.cursor.value.at, st.inbox[q][0]);
      assert SpentOk(st', q, st.cursor.value.at);
      hide *;
      CursorSpent(src, n, st', q, st.cursor.value.at);
    } else {
      hide *;
      CursorElsewhere(src, n, st, st');
    }
  }

  lemma CopyCursor(src: string, n: nat, st: State, q: nat)
    requires n == |st.inbox| == |st.threads| == |st.temps| && CursorOk(src, n, st) && Enabled(st, q)
    requires st.threads[q].Tokened?
    ensures var st' := Next(st, q); n == |st'.inbox| == |st'.threads| == |st'.temps| && CursorOk(src, n, st')
  {
    var t, st' := st.threads[q], Next(st, q);
    var text := Text(st, t.owner, t.from);
    assert st'.cursor == st.cursor && st'.threads[q].Framed? && st'.inbox == st.inbox;
    assert st'.temps == st.temps[q := Filled(st.temps[q], text)];
    TextHasNoNul(st, t.owner, t.from);
    NextFrame(st, q);
    if st.cursor.Some? && st.cursor.value.owner == q {
      OwnerSpent(src, n, st, q);
      FilledSpent(st.temps[q], st.cursor.value.at, text);
      LaterSpent(st, st', q, st.cursor.value.at);
      hide *;
      CursorSpent(src, n, st', q, st.cursor.value.at);
    } else {
      hide *;
      CursorElsewhere(src, n, st, st');
    }
  }

  lemma TextHasNoNul(st: State, owner: nat, from: nat)
    ensures NUL !in Text(st, owner, from)
  {
  }

  /** The first call on a frame's buffer. */
  lemma FrameFirst(buf: string, src: string, k: nat)
    requires Clean(src) && k < ChunkCount(src) && Stands(buf, 0, FrameOf(src, k))
    ensures var c := Tok(buf, 0);
            c.Some? && c.value.next == TokenAt(k) && Stands(c.value.buf, TokenAt(k), Chunk(src, k) + ";")
  {
    var s, d, rest := FrameOf(src, k), Decimal(Place(k)), AfterToken(FrameOf(src, k));
    FrameTextOf(src, k);
    FrameTokens(s, src, k);
    FrameRest(src, k);
    hide *;
    TokIs(buf, 0, s, d, rest);
    TokRest(buf, 0, s, d, rest);
    NextAtIs(s, rest);
  }

  lemma FrameRest(src: string, k: nat)
    requires Clean(src) && k < ChunkCount(src)
    ensures AfterToken(FrameOf(src, k)) == Chunk(src, k) + ";"
  {
    FrameIs(src, k);
    DecimalIsField(Place(k));
    AfterField(Decimal(Place(k)), Chunk(src, k) + ";");
    hide *;
    assert Decimal(Place(k)) + ";" + (Chunk(src, k) + ";") == FrameOf(src, k);
  }

  /** The second call in front of a chunk. */
  lemma FrameSecond(buf: string, src: string, k: nat)
    requires Clean(src) && k < ChunkCount(src) && Stands(buf, TokenAt(k), Chunk(src, k) + ";")
    ensures var c := Tok(buf, TokenAt(k));
            && c.Some? && c.value.start == TokenAt(k) && c.value.next == |FrameOf(src, k)|
            && StringAt(c.value.buf, TokenAt(k)) == Chunk(src, k)
            && Tok(c.value.buf, c.value.next).None?
  {
    var chunk, s, at := Chunk(src, k), Chunk(src, k) + ";", TokenAt(k);
    ChunkIsClean(src, k);
    FrameLength(src, k);
    hide Tok, Token, AfterToken, TokenStart, TokenAt, Chunk, Stands, StringAt, FrameOf, ChunkCount, Stop;
    TokensOf(chunk, "");
    assert chunk + ";" + "" == s;
    TokIs(buf, at, s, chunk, "");
    TokText(buf, at, s, chunk);
    TokRest(buf, at, s, chunk, "");
    var b := buf[Stop(at, s, chunk) := NUL];
    StandsString(b, at + TokenStart(s), chunk);
    TokAtEnd(b, NextAt(at, s, ""));
  }

  lemma FirstIs(st: State, q: nat)
    requires Enabled(st, q) && st.threads[q].Received? && Tok(st.temps[q], 0).Some?
    ensures var c := Tok(st.temps[q], 0).value;
            Next(st, q) == st.(threads := st.threads[q := Halved(Atoi(StringAt(c.buf, c.start)))],
                               temps := st.temps[q := c.buf], cursor := Some(Cursor(q, c.next)))
  {
    hide Tok, StringAt;
  }

  lemma CursorLive(src: string, n: nat, st: State, q: nat, at: nat)
    requires n == |st.inbox| == |st.threads| == |st.temps| && q < n && st.cursor == Some(Cursor(q, at))
    requires Tok(st.temps[q], at).Some? && LiveOk(src, n, st, q, at)
    ensures CursorOk(src, n, st)
  {
    hide Tok, SpentOk, LiveOk;
  }

  lemma FirstCursor(src: string, n: nat, st: State, q: nat)
    requires Clean(src) && AnyRun(src, n, st) && Enabled(st, q) && st.threads[q].Received?
    ensures var st' := Next(st, q);
            && n == |st'.inbox| == |st'.threads| == |st'.temps| && CursorOk(src, n, st')
            && st'.cursor.Some? && st'.cursor.value.owner == q && st'.threads[q].Halved?
  {
    assert InboxOk(src, n, st, q) && ReceivedOk(src, n, st, q);
    CurrentIsChunk(src, n, st, q);
    var k := Current(src, n, st, q);
    FrameFirst(st.temps[q], src, k);
    var c := Tok(st.temps[q], 0).value;
    FrameSecond(c.buf, src, k);
    FirstIs(st, q);
    var st' := Next(st, q);
    assert q < n && n == |st'.inbox| == |st'.threads| == |st'.temps|;
    hide *;
    assert st'.threads[q] == Halved(Atoi(StringAt(c.buf, c.start)));
    FirstLive(src, n, st, st', q, c);
    CursorLive(src, n, st', q, TokenAt(k));
  }

  lemma FirstLive(src: string, n: nat, st: State, st': State, q: nat, c: Cut)
    requires q < n == |st.inbox| && n == |st'.inbox| == |st'.threads| == |st'.temps| && st'.inbox == st.inbox
    requires st'.threads[q].Halved? && st'.temps[q] == c.buf
    requires c.next == TokenAt(Current(src, n, st, q))
    requires Stands(c.buf, c.next, Chunk(src, Current(src, n, st, q)) + ";")
    ensures LiveOk(src, n, st', q, c.next)
  {
    hide Stands, TokenAt, Chunk, StreamOf, Idx;
  }

  /** The next frame of a connection is not longer than its first one by two. */
  lemma NextFrameShort(src: string, n: nat, st: State, o: nat)
    requires Clean(src) && !Refills(src, n) && o < n == |st.inbox| == |st.threads| && InboxOk(src, n, st, o)
    requires 1 <= |StreamOf(src, n, o)| - |st.inbox[o]| && st.inbox[o] != []
    ensures var f := st.inbox[o][0];
            |f| <= |FrameOf(src, Current(src, n, st, o))| + 1 && f != "" && f[|f| - 1] == ';'
  {
    var got: nat := |StreamOf(src, n, o)| - |st.inbox[o]|;
    FewFrames(src, n, o, got);
    StreamAt(src, n, o, got);
    FrameIs(src, n);
    assert st.inbox[o][0] == StreamOf(src, n, o)[got];
    assert Idx(0, 0, n) == 0 && Current(src, n, st, o) == 0;
    assert |FrameOf(src, n)| <= |FrameOf(src, 0)| + 1;
    hide *;
    LastDelimiter(Decimal(Place(n)), Chunk(src, n), FrameOf(src, n));
  }

  lemma LastDelimiter(d: string, c: string, f: string)
    requires f == d + ";" + (c + ";")
    ensures f != "" && f[|f| - 1] == ';'
  {
  }

  /** The second call when there is nothing at the cursor. */
  lemma SecondFails(src: string, n: nat, st: State, q: nat)
    requires n == |st.inbox| == |st.threads| == |st.temps| && CursorOk(src, n, st) && Enabled(st, q)
    requires st.threads[q].Halved?
    requires st.cursor.Some? ==> Tok(st.temps[st.cursor.value.owner], st.cursor.value.at).None?
    ensures var st' := Next(st, q);
            n == |st'.inbox| == |st'.threads| == |st'.temps| && st'.threads[q].Failed? && CursorOk(src, n, st')
  {
    var st' := Next(st, q);
    assert st' == Set(st, q, Failed) by { hide Tok, StringAt; }
    if st.cursor.Some? && st.cursor.value.owner == q {
      assert SpentOk(st', q, st.cursor.value.at);
      hide *;
      CursorSpent(src, n, st', q, st.cursor.value.at);
    } else {
      hide Tok, StringAt, CursorOk, Enabled, Next;
      CursorElsewhere(src, n, st, st');
    }
  }

  /** The second call when a chunk is there: afterwards nothing is. */
  lemma SecondTakes(src: string, n: nat, st: State, q: nat, o: nat, at: nat)
    requires Clean(src) && !Refills(src, n) && AnyRun(src, n, st) && Enabled(st, q) && st.threads[q].Halved?
    requires st.cursor == Some(Cursor(o, at)) && o < n && Tok(st.temps[o], at).Some?
    ensures var st' := Next(st, q);
            && n == |st'.inbox| == |st'.threads| == |st'.temps| && CursorOk(src, n, st')
            && st.threads[o].Halved? && st'.cursor.Some? && st'.cursor.value.owner == o
            && Tok(st'.temps[o], st'.cursor.value.at).None?
  {
    var st', c := Next(st, q), Tok(st.temps[o], at).value;
    TakesStep(st, q, o, at);
    assert InboxOk(src, n, st, o) && LiveOk(src, n, st, o, at);
    CurrentIsChunk(src, n, st, o);
    var k := Current(src, n, st, o);
    FrameSecond(st.temps[o], src, k);
    FrameLength(src, k);
    if st.inbox[o] != [] { NextFrameShort(src, n, st, o); }
    assert at == TokenAt(k) && st.threads[o].Halved? && n == |st.inbox| == |st.threads| == |st.temps|;
    assert |Chunk(src, k)| < c.next && q < n;
    assert o == q ==> st'.threads[o] == Tokened(st.threads[q].pos, o, TokenAt(k));
    assert o != q ==> st'.threads[o] == st.threads[o];
    hide *;
    TakenSpent(st', o, c.next, Chunk(src, k), TokenAt(k));
    CursorSpent(src, n, st', o, c.next);
  }

  lemma TakesStep(st: State, q: nat, o: nat, at: nat)
    requires Enabled(st, q) && st.threads[q].Halved? && st.cursor == Some(Cursor(o, at)) && o < |st.temps|
    requires Tok(st.temps[o], at).Some?
    ensures var c := Tok(st.temps[o], at).value;
            Next(st, q) == st.(threads := st.threads[q := Tokened(st.threads[q].pos, o, c.start)],
                               temps := st.temps[o := c.buf], cursor := Some(Cursor(o, c.next)))
    ensures Sized(st)
  {
    hide Tok, StringAt;
  }

  lemma TakenSpent(st: State, o: nat, at: nat, chunk: string, from: nat)
    requires o < |st.inbox| == |st.threads| == |st.temps|
    requires st.threads[o].Halved? || (st.threads[o].Tokened? && st.threads[o].owner == o && st.threads[o].from == from)
    requires StringAt(st.temps[o], from) == chunk && |chunk| < at
    requires st.inbox[o] != [] ==>
               |st.inbox[o][0]| <= at + 1 && st.inbox[o][0] != "" && st.inbox[o][0][|st.inbox[o][0]| - 1] == ';'
    ensures SpentOk(st, o, at)
  {
    hide StringAt;
  }

  lemma StepCursor(src: string, n: nat, st: State, q: nat)
    requires Clean(src) && !Refills(src, n) && AnyRun(src, n, st) && Enabled(st, q)
    ensures var st' := Next(st, q); n == |st'.inbox| == |st'.threads| == |st'.temps| && CursorOk(src, n, st')
  {
    assert InboxOk(src, n, st, q);
    if st.threads[q].Receiving? && st.inbox[q] != [] {
      InboxHasNoNul(src, n, st, q);
      ReceiveCursor(src, n, st, q);
    } else if st.threads[q].Received? {
      FirstCursor(src, n, st, q);
    } else if st.threads[q].Halved? {
      if st.cursor.Some? && Tok(st.temps[st.cursor.value.owner], st.cursor.value.at).Some? {
        SecondTakes(src, n, st, q, st.cursor.value.owner, st.cursor.value.at);
      } else {
        SecondFails(src, n, st, q);
      }
    } else if st.threads[q].Tokened? {
      CopyCursor(src, n, st, q);
    } else {
      LaterCursor(src, n, st, q);
    }
    hide *;
  }

  lemma InboxHasNoNul(src: string, n: nat, st: State, q: nat)
    requires Clean(src) && q < n == |st.inbox| == |st.threads| && InboxOk(src, n, st, q) && st.inbox[q] != []
    ensures NUL !in st.inbox[q][0]
  {
    var got: nat := |StreamOf(src, n, q)| - |st.inbox[q]|;
    ShareBound(ChunkCount(src), n, q, got);
    FrameHasNoNul(src, Idx(q, got, n));
    assert st.inbox[q][0] == StreamOf(src, n, q)[got];
  }

  lemma OwnReceived(src: string, n: nat, st: State, q: nat)
    requires Clean(src) && AnyRun(src, n, st) && Enabled(st, q)
    ensures var st' := Next(st, q);
            n == |st'.inbox| == |st'.threads| == |st'.temps| && ReceivedOk(src, n, st', q)
  {
    assert InboxOk(src, n, st, q);
    StepInbox(src, n, st, q, q);
    if st.threads[q].Receiving? && st.inbox[q] != [] {
      ReceiveAnyRun(src, n, st, q);
    } else {
      NotReceived(st, q);
    }
    hide Next, Enabled, AnyRun, Current, FrameOf, Stands;
  }

  lemma NotReceived(st: State, q: nat)
    requires Enabled(st, q) && !(st.threads[q].Receiving? && st.inbox[q] != [])
    ensures q < |Next(st, q).threads| && !Next(st, q).threads[q].Received?
  {
    hide Tok, PosWrite, StringAt, Text, Filled;
  }

  lemma StepKeepsAnyRun(src: string, n: nat, st: State, q: nat)
    requires Clean(src) && !Refills(src, n) && AnyRun(src, n, st) && Enabled(st, q)
    ensures AnyRun(src, n, Next(st, q))
  {
    StepCursor(src, n, st, q);
    OwnReceived(src, n, st, q);
    var st' := Next(st, q);
    forall r | 0 <= r < n ensures InboxOk(src, n, st', r) && ReceivedOk(src, n, st', r) {
      assert InboxOk(src, n, st, r);
      StepInbox(src, n, st, q, r);
      if r != q { OthersReceived(src, n, st, q, r); }
    }
    hide Next, Enabled, CursorOk, InboxOk, ReceivedOk;
  }

  // ---------------------------------------------------------------------------------------------
  // Who has fallen behind stays behind
  // ---------------------------------------------------------------------------------------------

  /** A thread that is behind and does nothing. */
  lemma OtherBehind(src: string, n: nat, st: State, q: nat, p: nat)
    requires Clean(src) && AnyRun(src, n, st) && Enabled(st, q) && Behind(st, p) && p != q
    ensures var st' := Next(st, q); Sized(st') && (st'.threads[q].Failed? || Behind(st', p))
  {
    NextFrame(st, q);
    if st.threads[q].Received? {
      hide Tok, StringAt, AnyRun, Atoi;
    } else if st.threads[q].Halved? {
      hide Tok, StringAt, InboxOk, ReceivedOk, Stands, Chunk, TokenAt;
    } else {
      BufferOnly(st, q);
      hide Next, Tok, AnyRun;
    }
  }

  /** Steps other than the strtok calls touch the thread's own buffer at most. */
  lemma BufferOnly(st: State, q: nat)
    requires Enabled(st, q) && !st.threads[q].Received? && !st.threads[q].Halved?
    ensures var st' := Next(st, q);
            && Sized(st') && |st'.threads| == |st.threads| && st'.cursor == st.cursor
            && forall r :: 0 <= r < |st.threads| && r != q ==> st'.temps[r] == st.temps[r]
  {
    hide Tok, StringAt, Text, PosWrite, Filled;
  }

  lemma StaysDoomed(src: string, n: nat, st: State, q: nat)
    requires Clean(src) && !Refills(src, n) && AnyRun(src, n, st) && Doomed(st) && Enabled(st, q)
    ensures Sized(Next(st, q)) && (!Alive(Next(st, q)) || Doomed(Next(st, q)))
  {
    NextFrame(st, q);
    var p: nat :| Behind(st, p);
    if p != q {
      OtherBehind(src, n, st, q, p);
      hide Next, Enabled, AnyRun;
    } else if st.cursor.Some? && Tok(st.temps[st.cursor.value.owner], st.cursor.value.at).Some? {
      var o := st.cursor.value.owner;
      SecondTakes(src, n, st, q, o, st.cursor.value.at);
      assert o != q;
      assert Next(st, q).threads[o] == st.threads[o];
      hide Next, Enabled, AnyRun, Tok, Alive;
      assert Behind(Next(st, q), o);
    } else {
      SecondFails(src, n, st, q);
      hide Next, Enabled, AnyRun, Tok;
    }
  }

  /** A first call while another thread stands between its calls. */
  lemma BecomesDoomed(src: string, n: nat, st: State, q: nat)
    requires Clean(src) && AnyRun(src, n, st) && Enabled(st, q) && !TidyStep(st, q)
    ensures Sized(Next(st, q)) && Doomed(Next(st, q))
  {
    NextFrame(st, q);
    FirstCursor(src, n, st, q);
    var p :| 0 <= p < |st.threads| && st.threads[p].Halved?;
    hide Next, AnyRun, Tok;
    assert Behind(Next(st, q), p);
  }

  lemma {:induction false} DoomedToTheEnd(src: string, n: nat, st: State, steps: seq<nat>)
    requires Clean(src) && !Refills(src, n) && AnyRun(src, n, st) && Doomed(st) && CanRun(st, steps)
    requires Alive(Run(st, steps))
    ensures Sized(Run(st, steps)) && Doomed(Run(st, steps))
    decreases |steps|
  {
    hide AnyRun, Doomed, Alive, Enabled, Next, Refills;
    assert Sized(st) by { AnyRunSized(src, n, st); }
    if steps != [] {
      FailedStays(Next(st, steps[0]), steps[1..]);
      StepKeepsAnyRun(src, n, st, steps[0]);
      StaysDoomed(src, n, st, steps[0]);
      DoomedToTheEnd(src, n, Next(st, steps[0]), steps[1..]);
    }
  }

  lemma AnyRunSized(src: string, n: nat, st: State)
    requires AnyRun(src, n, st)
    ensures Sized(st)
  {
  }

  lemma FinishedNotDoomed(st: State)
    requires AllFinished(st) && Sized(st)
    ensures Alive(st) && !Doomed(st)
  {
    hide Tok;
  }

  /** Without a refill a run that ends without a failure keeps the two calls of every turn together. */
  lemma {:induction false} EndingRunTidy(src: string, n: nat, st: State, steps: seq<nat>)
    requires Clean(src) && !Refills(src, n) && AnyRun(src, n, st) && Inv(Loads(src), src, n, st)
    requires CanRun(st, steps) && AllFinished(Run(st, steps)) && Sized(Run(st, steps))
    ensures TidyRun(st, steps)
    decreases |steps|
  {
    FinishedNotDoomed(Run(st, steps));
    hide AnyRun, Inv, Doomed, Alive, AllFinished, Enabled, Next, Refills;
    if steps != [] {
      StepKeepsAnyRun(src, n, st, steps[0]);
      if TidyStep(st, steps[0]) {
        StepKeepsInv(Loads(src), src, n, st, steps[0]);
        EndingRunTidy(src, n, Next(st, steps[0]), steps[1..]);
      } else {
        BecomesDoomed(src, n, st, steps[0]);
        DoomedToTheEnd(src, n, Next(st, steps[0]), steps[1..]);
      }
    }
  }

  lemma EndsTidy(src: string, n: nat, st: State)
    requires Clean(src) && 0 < n && !Refills(src, n) && Reachable(src, n, st) && AllFinished(st)
    ensures TidyReachable(src, n, st)
  {
    var steps :| CanRun(Start(src, n), steps) && Run(Start(src, n), steps) == st;
    StartRunOk(src, n);
    RunKeepsRunOk(Start(src, n), steps);
    assert Sized(st);
    hide Inv, AnyRun, CanRun, Run, Refills, AllFinished, Start, RunOk;
    StartInv(src, n);
    StartAnyRun(src, n);
    EndingRunTidy(src, n, Start(src, n), steps);
  }
}
