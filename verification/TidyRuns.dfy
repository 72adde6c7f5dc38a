/** Runs of the receiving threads (Assignment-2/multiplethreads.c, getdata) in which the two strtok calls of a turn stay
    together: no thread makes its first call while another one stands between its two calls. */
module TidyRuns {
  import opened Options
  import opened CStrings
  import opened Buffers
  import opened ChunkFrame
  import opened Overlap
  import opened Reassembly
  import opened Sender
  import opened Transfer

  ghost predicate NobodyHalved(st: State) {
    forall p :: 0 <= p < |st.threads| ==> !st.threads[p].Halved?
  }

  ghost predicate TidyStep(st: State, q: nat) {
    Enabled(st, q) && (st.threads[q].Received? ==> NobodyHalved(st))
  }

  ghost predicate TidyRun(st: State, steps: seq<nat>)
    decreases |steps|
  {
    steps == [] || (TidyStep(st, steps[0]) && TidyRun(Next(st, steps[0]), steps[1..]))
  }

  lemma {:induction false} TidyCanRun(st: State, steps: seq<nat>)
    requires TidyRun(st, steps)
    ensures CanRun(st, steps)
    decreases |steps|
  {
    hide Enabled, Next;
    if steps != [] {
      TidyCanRun(Next(st, steps[0]), steps[1..]);
    }
  }

  // ---------------------------------------------------------------------------------------------
  // A frame in a buffer
  // ---------------------------------------------------------------------------------------------

  /** Where the token of chunk k starts in its frame. */
  function TokenAt(k: nat): nat {
    |Decimal(Place(k))| + 1
  }

  /** A call of strtok at this cursor finds chunk k, and the one behind it nothing. */
  ghost predicate HalfRead(buf: string, at: nat, src: string, k: nat) {
    var c := Tok(buf, at);
    && c.Some? && c.value.start == TokenAt(k) && Stands(c.value.buf, TokenAt(k), Chunk(src, k))
    && Tok(c.value.buf, c.value.next).None?
  }

  /** Two calls of strtok find the position of chunk k and chunk k. */
  ghost predicate FullRead(buf: string, src: string, k: nat) {
    var c := Tok(buf, 0);
    && c.Some? && Atoi(StringAt(c.value.buf, c.value.start)) == Place(k)
    && HalfRead(c.value.buf, c.value.next, src, k)
  }

  /** The position and the chunk, with or without the last delimiter. */
  ghost predicate FrameText(s: string, src: string, k: nat) {
    s == FrameOf(src, k) || s == Decimal(Place(k)) + ";" + Chunk(src, k)
  }

  lemma TokensOf(f: string, rest: string)
    requires IsField(f)
    ensures Token(f + ";" + rest) == Some(f) && AfterToken(f + ";" + rest) == rest && TokenStart(f + ";" + rest) == 0
    ensures Token(f) == Some(f) && AfterToken(f) == "" && TokenStart(f) == 0
  {
    FieldLengthOf(f, rest);
    AfterField(f, rest);
    assert f[0] in f;
    assert (f + ";" + rest)[0] == f[0];
    assert SkipDelims(f + ";" + rest) == f + ";" + rest && SkipDelims(f) == f;
    assert (f + ";" + rest)[..|f|] == f && f[..|f|] == f;
  }

  lemma FrameTokens(s: string, src: string, k: nat)
    requires Clean(src) && k < ChunkCount(src) && FrameText(s, src, k)
    ensures Token(s) == Some(Decimal(Place(k))) && TokenStart(s) == 0
    ensures var rest := AfterToken(s);
            && Token(rest) == Some(Chunk(src, k)) && TokenStart(rest) == 0
            && |s| == TokenAt(k) + |rest|
            && AfterToken(rest) == ""
  {
    var d, c := Decimal(Place(k)), Chunk(src, k);
    ChunkIsClean(src, k);
    DecimalIsField(Place(k));
    FrameIs(src, k);
    hide Decimal, Chunk, Token, AfterToken, TokenStart, Frame, FrameOf, ChunkCount;
    TokensOf(d, c + ";");
    TokensOf(d, c);
    TokensOf(c, "");
    assert c + ";" + "" == c + ";";
  }

  lemma FrameIs(src: string, k: nat)
    requires Clean(src) && k < ChunkCount(src)
    ensures FrameOf(src, k) == Decimal(Place(k)) + ";" + (Chunk(src, k) + ";")
  {
    ChunkIsClean(src, k);
    hide Chunk, Decimal;
  }

  /** A buffer that starts with a frame's text. */
  lemma StandsFullRead(buf: string, s: string, src: string, k: nat)
    requires Clean(src) && k < ChunkCount(src) && FrameText(s, src, k) && Stands(buf, 0, s)
    ensures FullRead(buf, src, k)
  {
    FrameTokens(s, src, k);
    AtoiOfDecimal(Place(k));
    var d, rest := Decimal(Place(k)), AfterToken(s);
    hide *;
    TokIs(buf, 0, s, d, rest);
    TokText(buf, 0, s, d);
    TokRest(buf, 0, s, d, rest);
    var b, at := buf[Stop(0, s, d) := NUL], NextAt(0, s, rest);
    StandsString(b, 0 + TokenStart(s), d);
    NextAtIs(s, rest);
    StandsHalfRead(b, rest, src, k);
    FullReadIs(buf, src, k, b, 0 + TokenStart(s), at);
  }

  /** A buffer in which the text behind the position stands at its place. */
  lemma StandsHalfRead(b: string, rest: string, src: string, k: nat)
    requires Stands(b, TokenAt(k), rest) && Token(rest) == Some(Chunk(src, k)) && TokenStart(rest) == 0
    requires AfterToken(rest) == ""
    ensures HalfRead(b, TokenAt(k), src, k)
  {
    var chunk, at := Chunk(src, k), TokenAt(k);
    hide Tok, Token, AfterToken, TokenStart, TokenAt, Chunk, Stands, Stop, NextAt;
    TokIs(b, at, rest, chunk, "");
    TokText(b, at, rest, chunk);
    TokRest(b, at, rest, chunk, "");
    TokAtEnd(b[Stop(at, rest, chunk) := NUL], NextAt(at, rest, ""));
  }

  lemma FullReadIs(buf: string, src: string, k: nat, b: string, start: nat, at: nat)
    requires Tok(buf, 0) == Some(Cut(b, start, at)) && Atoi(StringAt(b, start)) == Place(k) && HalfRead(b, at, src, k)
    ensures FullRead(buf, src, k)
  {
  }

  // ---------------------------------------------------------------------------------------------
  // The invariant
  // ---------------------------------------------------------------------------------------------

  ghost predicate Pending(t: Thread) {
    t.Received? || t.Halved? || t.Tokened? || t.Framed? || t.Locked? || t.Sought?
  }

  ghost predicate HasText(t: Thread) {
    t.Framed? || t.Locked? || t.Sought? || t.Wrote?
  }

  /** Frames thread q has received, and those of them it has written. */
  ghost function Got(src: string, n: nat, st: State, q: nat): int
    requires q < n == |st.inbox|
  {
    |StreamOf(src, n, q)| - |st.inbox[q]|
  }

  ghost function Written(src: string, n: nat, st: State, q: nat): int
    requires q < n == |st.inbox| == |st.threads|
  {
    Got(src, n, st, q) - if Pending(st.threads[q]) then 1 else 0
  }

  /** What thread q has made of the frame of chunk k, its own; w[k] is the text to be written. */
  ghost predicate StageOk(w: seq<string>, src: string, st: State, q: nat, k: nat)
    requires q < |st.threads| == |st.temps|
  {
    var t := st.threads[q];
    && (t.Received? ==> FullRead(st.temps[q], src, k) && Part(w, k) == Load(src, k))
    && (t.Halved? ==>
          && t.pos == Place(k) && Part(w, k) == Load(src, k)
          && st.cursor.Some? && st.cursor.value.owner == q && HalfRead(st.temps[q], st.cursor.value.at, src, k))
    && (t.Tokened? ==>
          && t.pos == Place(k) && Part(w, k) == Load(src, k)
          && t.owner == q && t.from == TokenAt(k) && Stands(st.temps[q], TokenAt(k), Chunk(src, k)))
    && (HasText(t) ==> t.pos == Place(k) && t.owner == q && StringAt(st.temps[q], t.from) == Part(w, k))
  }

  ghost predicate Busy(t: Thread) {
    Pending(t) || t.Wrote?
  }

  /** Thread q holds, and has still to receive, exactly its part of the file; it is in the critical section exactly
      when it holds the mutex; and between its seek and its write nobody has moved the file position. */
  ghost predicate ThreadOk(w: seq<string>, src: string, n: nat, st: State, q: nat)
    requires q < n == |st.inbox| == |st.threads| == |st.temps|
  {
    var t, got := st.threads[q], Got(src, n, st, q);
    && 0 <= got
    && st.inbox[q] == StreamOf(src, n, q)[got..]
    && (Busy(t) ==> 1 <= got && StageOk(w, src, st, q, Idx(q, got - 1, n)))
    && (forall j: nat :: got <= j < |StreamOf(src, n, q)| ==> Part(w, Idx(q, j, n)) == Load(src, Idx(q, j, n)))
    && (InCritical(t) <==> st.holder == Some(q))
    && (t.Sought? ==> st.fpos == t.pos)
    && (t.Finished? ==> st.inbox[q] == [])
    && !t.Failed?
  }

  ghost predicate ThreadsOk(w: seq<string>, src: string, n: nat, st: State) {
    && n == |st.inbox| == |st.threads| == |st.temps|
    && (forall q :: 0 <= q < n ==> ThreadOk(w, src, n, st, q))
    && (st.holder.Some? ==> st.holder.value < n)
  }

  /** The log lists exactly the chunks written, each once, and each connection's chunks in their order. */
  ghost predicate LogOk(src: string, n: nat, st: State)
    requires 0 < n == |st.inbox| == |st.threads|
  {
    && Distinct(st.log)
    && (forall k :: k in st.log ==> k < ChunkCount(src) && k / n < Written(src, n, st, k % n))
    && (forall q, j: nat :: 0 <= q < n && j < Written(src, n, st, q) ==> Idx(q, j, n) in st.log)
    && InOrder(st.log, n)
  }

  function Total(w: seq<string>, log: seq<nat>): nat {
    if log == [] then 0 else Total(w, log[..|log| - 1]) + |Part(w, log[|log| - 1])|
  }

  /** The bytes that are in the file but not yet in the counter. */
  ghost function Uncounted(st: State): nat {
    if st.holder.Some? && st.holder.value < |st.threads| && st.threads[st.holder.value].Wrote?
    then var t := st.threads[st.holder.value]; |Text(st, t.owner, t.from)| else 0
  }

  ghost predicate Inv(w: seq<string>, src: string, n: nat, st: State) {
    && 0 < n
    && ThreadsOk(w, src, n, st)
    && LogOk(src, n, st)
    && st.file == Replay(w, st.log)
    && st.received + Uncounted(st) == Total(w, st.log)
  }

  lemma StartInv(src: string, n: nat)
    requires 0 < n
    ensures Inv(Loads(src), src, n, Start(src, n))
  {
    hide Load, ChunkCount;
    var st := Start(src, n);
    forall q | 0 <= q < n ensures ThreadOk(Loads(src), src, n, st, q) {
      assert StreamOf(src, n, q)[0..] == StreamOf(src, n, q);
      forall j: nat | j < |StreamOf(src, n, q)| ensures Part(Loads(src), Idx(q, j, n)) == Load(src, Idx(q, j, n)) {
        ShareBound(ChunkCount(src), n, q, j);
      }
    }
  }

  /** The frame a thread takes next is the frame of its next chunk. */
  lemma NextChunk(w: seq<string>, src: string, n: nat, st: State, q: nat)
    requires q < n == |st.inbox| == |st.threads| == |st.temps|
    requires ThreadOk(w, src, n, st, q) && st.inbox[q] != []
    ensures var k := Idx(q, Got(src, n, st, q), n);
            && k < ChunkCount(src) && st.inbox[q][0] == FrameOf(src, k) && Part(w, k) == Load(src, k)
  {
    var got := Got(src, n, st, q);
    ShareBound(ChunkCount(src), n, q, got);
    assert st.inbox[q][0] == StreamOf(src, n, q)[got];
  }

  // ---------------------------------------------------------------------------------------------
  // One step
  // ---------------------------------------------------------------------------------------------

  /** The buffers and the cursor that other threads rely on are not touched. */
  lemma OthersKept(w: seq<string>, src: string, n: nat, st: State, q: nat, r: nat)
    requires ThreadsOk(w, src, n, st) && TidyStep(st, q) && r < n && r != q
    ensures var st' := Next(st, q);
            && Sized(st') && |st'.threads| == n
            && st'.temps[r] == st.temps[r]
            && (st.threads[r].Halved? ==> st'.cursor == st.cursor)
            && (st.threads[r].Sought? ==> st'.fpos == st.fpos)
            && (st'.holder == Some(r) <==> st.holder == Some(r))
  {
    hide Tok, Filled, PosWrite, StringAt, StreamOf, HalfRead, FullRead, Stands, Idx, Load;
    assert ThreadOk(w, src, n, st, q) && ThreadOk(w, src, n, st, r);
  }

  lemma StageKept(w: seq<string>, src: string, st: State, st': State, r: nat, k: nat)
    requires r < |st.threads| == |st.temps| && r < |st'.threads| == |st'.temps|
    requires st'.threads[r] == st.threads[r] && st'.temps[r] == st.temps[r]
    requires st.threads[r].Halved? ==> st'.cursor == st.cursor
    requires StageOk(w, src, st, r, k)
    ensures StageOk(w, src, st', r, k)
  {
    hide HalfRead, FullRead, Stands, StringAt, Load, Part;
  }

  /** Threads other than q are not affected by q's step. */
  lemma OtherThread(w: seq<string>, src: string, n: nat, st: State, q: nat, r: nat)
    requires ThreadsOk(w, src, n, st) && TidyStep(st, q) && r < n && r != q
    ensures var st' := Next(st, q);
            && n == |st'.inbox| == |st'.threads| == |st'.temps|
            && ThreadOk(w, src, n, st', r)
            && Written(src, n, st', r) == Written(src, n, st, r)
  {
    OthersKept(w, src, n, st, q, r);
    NextFrame(st, q);
    assert ThreadOk(w, src, n, st, r);
    hide *;
    ThreadKept(w, src, n, st, Next(st, q), r);
  }

  lemma ThreadKept(w: seq<string>, src: string, n: nat, st: State, st': State, r: nat)
    requires r < n == |st.inbox| == |st.threads| == |st.temps|
    requires n == |st'.inbox| == |st'.threads| == |st'.temps|
    requires st'.threads[r] == st.threads[r] && st'.inbox[r] == st.inbox[r] && st'.temps[r] == st.temps[r]
    requires st.threads[r].Halved? ==> st'.cursor == st.cursor
    requires st.threads[r].Sought? ==> st'.fpos == st.fpos
    requires st'.holder == Some(r) <==> st.holder == Some(r)
    requires ThreadOk(w, src, n, st, r)
    ensures ThreadOk(w, src, n, st', r) && Written(src, n, st', r) == Written(src, n, st, r)
  {
    hide StreamOf, StageOk, Load, Part, Idx;
    if Busy(st.threads[r]) {
      StageKept(w, src, st, st', r, Idx(r, Got(src, n, st, r) - 1, n));
    }
  }

  /** What the thread whose turn it is makes of its frame. */
  lemma OwnReceive(w: seq<string>, src: string, n: nat, st: State, q: nat)
    requires Clean(src) && q < n == |st.inbox| == |st.threads| == |st.temps|
    requires ThreadOk(w, src, n, st, q) && st.threads[q].Receiving?
    ensures ThreadOk(w, src, n, ReceiveStep(st, q), q)
    ensures Written(src, n, ReceiveStep(st, q), q) == Written(src, n, st, q)
  {
    hide StreamOf, Load, Idx, FullRead, HalfRead, Filled, FrameOf, ChunkCount;
    var st' := ReceiveStep(st, q);
    if st.inbox[q] != [] {
      NextChunk(w, src, n, st, q);
      var got := Got(src, n, st, q);
      var k := Idx(q, got, n);
      FrameHasNoNul(src, k);
      FilledStands(st.temps[q], FrameOf(src, k));
      StandsFullRead(st'.temps[q], FrameOf(src, k), src, k) by { FrameTextOf(src, k); }
      assert st'.inbox[q] == StreamOf(src, n, q)[got + 1..];
    }
  }

  lemma FrameTextOf(src: string, k: nat)
    ensures FrameText(FrameOf(src, k), src, k)
  {
  }

  lemma FrameHasNoNul(src: string, k: nat)
    requires Clean(src) && k < ChunkCount(src)
    ensures NUL !in FrameOf(src, k)
  {
    FrameIs(src, k);
    ChunkIsClean(src, k);
    hide Chunk, FrameOf, ChunkCount;
    assert NUL !in Decimal(Place(k)) by { assert !IsDigit(NUL); }
  }

  lemma OwnFirst(w: seq<string>, src: string, n: nat, st: State, q: nat)
    requires q < n == |st.inbox| == |st.threads| == |st.temps|
    requires ThreadOk(w, src, n, st, q) && st.threads[q].Received?
    ensures ThreadOk(w, src, n, FirstStep(st, q), q)
    ensures Written(src, n, FirstStep(st, q), q) == Written(src, n, st, q)
  {
    hide StreamOf, Load, Idx, HalfRead, Tok, StringAt, Atoi;
  }

  lemma OwnSecond(w: seq<string>, src: string, n: nat, st: State, q: nat)
    requires q < n == |st.inbox| == |st.threads| == |st.temps|
    requires ThreadOk(w, src, n, st, q) && st.threads[q].Halved?
    ensures ThreadOk(w, src, n, SecondStep(st, q, st.threads[q].pos), q)
    ensures Written(src, n, SecondStep(st, q, st.threads[q].pos), q) == Written(src, n, st, q)
  {
    hide StreamOf, Load, Idx, Tok, StringAt, Stands, FullRead;
  }

  lemma OwnCopy(w: seq<string>, src: string, n: nat, st: State, q: nat)
    requires q < n == |st.inbox| == |st.threads| == |st.temps|
    requires ThreadOk(w, src, n, st, q) && st.threads[q].Tokened?
    ensures var t := st.threads[q];
            var st' := CopyStep(st, q, t.pos, t.owner, t.from);
            ThreadOk(w, src, n, st', q) && Written(src, n, st', q) == Written(src, n, st, q)
  {
    hide StreamOf, Idx, Tok, StringAt, Stands, FullRead, HalfRead, Filled, TokenAt, Kept, Chunk;
    var k := Idx(q, Got(src, n, st, q) - 1, n);
    var buf, chunk := st.temps[q], Chunk(src, k);
    StandsString(buf, TokenAt(k), chunk);
    TokenAtPositive(k);
    TokenAfterCopy(buf, TokenAt(k), chunk);
    StandsString(Filled(buf, chunk), TokenAt(k), Kept(Overlapping, TokenAt(k), chunk));
    LoadIs(src, k);
  }

  lemma TokenAtPositive(k: nat)
    ensures 0 < TokenAt(k)
  {
  }

  lemma LoadIs(src: string, k: nat)
    ensures Load(src, k) == Kept(Overlapping, TokenAt(k), Chunk(src, k))
  {
  }

  lemma OwnLater(w: seq<string>, src: string, n: nat, st: State, q: nat)
    requires q < n == |st.inbox| == |st.threads| == |st.temps|
    requires ThreadOk(w, src, n, st, q) && Enabled(st, q)
    requires HasText(st.threads[q]) || st.threads[q].Counted?
    ensures ThreadOk(w, src, n, Next(st, q), q)
    ensures Written(src, n, Next(st, q), q) == Written(src, n, st, q) + if st.threads[q].Sought? then 1 else 0
  {
    hide StreamOf, Load, Idx, Tok, StringAt, Stands, FullRead, HalfRead, Filled, PosWrite, Part;
  }

  lemma OwnThread(w: seq<string>, src: string, n: nat, st: State, q: nat)
    requires Clean(src) && ThreadsOk(w, src, n, st) && TidyStep(st, q)
    ensures var st' := Next(st, q);
            && n == |st'.inbox| == |st'.threads| == |st'.temps| && ThreadOk(w, src, n, st', q)
            && Written(src, n, st', q) == Written(src, n, st, q) + if st.threads[q].Sought? then 1 else 0
  {
    assert ThreadOk(w, src, n, st, q);
    NextFrame(st, q);
    hide ThreadOk, ThreadsOk, Written, ReceiveStep, FirstStep, SecondStep, CopyStep, WriteStep;
    match st.threads[q]
    case Receiving => OwnReceive(w, src, n, st, q);
    case Received => OwnFirst(w, src, n, st, q);
    case Halved(_) => OwnSecond(w, src, n, st, q);
    case Tokened(_, _, _) => OwnCopy(w, src, n, st, q);
    case _ => OwnLater(w, src, n, st, q);
  }

  lemma HolderKept(w: seq<string>, src: string, n: nat, st: State, q: nat)
    requires ThreadsOk(w, src, n, st) && TidyStep(st, q)
    ensures Next(st, q).holder.Some? ==> Next(st, q).holder.value < n
  {
    hide Tok, Filled, PosWrite, StringAt, ThreadOk;
  }

  lemma StepKeepsThreads(w: seq<string>, src: string, n: nat, st: State, q: nat)
    requires Clean(src) && ThreadsOk(w, src, n, st) && TidyStep(st, q)
    ensures ThreadsOk(w, src, n, Next(st, q))
  {
    OwnThread(w, src, n, st, q);
    HolderKept(w, src, n, st, q);
    forall r | 0 <= r < n ensures ThreadOk(w, src, n, Next(st, q), r) {
      if r != q { OtherThread(w, src, n, st, q, r); }
    }
    hide *;
    assert ThreadsOk(w, src, n, Next(st, q)) by { ThreadsAre(w, src, n, Next(st, q)); }
  }

  lemma ThreadsAre(w: seq<string>, src: string, n: nat, st: State)
    requires n == |st.inbox| == |st.threads| == |st.temps|
    requires forall q :: 0 <= q < n ==> ThreadOk(w, src, n, st, q)
    requires st.holder.Some? ==> st.holder.value < n
    ensures ThreadsOk(w, src, n, st)
  {
  }

  // ---------------------------------------------------------------------------------------------
  // The log, the file and the counter
  // ---------------------------------------------------------------------------------------------

  lemma InOrderAppend(log: seq<nat>, n: nat, k: nat)
    requires 0 < n && InOrder(log, n)
    requires forall c :: c in log && c % n == k % n ==> c < k
    ensures InOrder(log + [k], n)
  {
    var more := log + [k];
    forall i, j | 0 <= i < j < |more| && more[i] % n == more[j] % n ensures more[i] < more[j] {
      assert more[i] in log;
    }
  }

  lemma DistinctAppend(log: seq<nat>, k: nat)
    requires Distinct(log) && k !in log
    ensures Distinct(log + [k])
  {
  }

  /** The chunk thread q is about to write: in the file's range, and not written before. */
  lemma PendingChunk(w: seq<string>, src: string, n: nat, st: State, q: nat)
    requires ThreadsOk(w, src, n, st) && 0 < n && LogOk(src, n, st) && q < n && st.threads[q].Sought?
    ensures var j := Written(src, n, st, q);
            && 0 <= j && st.threads[q].pos == Place(Idx(q, j, n)) && st.fpos == st.threads[q].pos
            && Idx(q, j, n) < ChunkCount(src) && Idx(q, j, n) !in st.log
            && Idx(q, j, n) % n == q && Idx(q, j, n) / n == j
            && Text(st, st.threads[q].owner, st.threads[q].from) == Part(w, Idx(q, j, n))
  {
    hide StreamOf, Idx, Place, StringAt, Part;
    assert ThreadOk(w, src, n, st, q);
    var j := Written(src, n, st, q);
    ShareBound(ChunkCount(src), n, q, j);
    StreamLength(src, n, q);
    IdxInverse(q, j, n);
  }

  lemma NextWrites(st: State, q: nat)
    requires Enabled(st, q) && st.threads[q].Sought?
    ensures var t, st' := st.threads[q], Next(st, q);
            && st'.log == st.log + [NumberAt(t.pos)]
            && st'.file == PosWrite(st.file, st.fpos, Text(st, t.owner, t.from) + [NUL])
  {
    hide PosWrite, StringAt, NumberAt;
  }

  /** The log with the next chunk of connection q. */
  lemma LogGrows(src: string, n: nat, st: State, st': State, q: nat)
    requires 0 < n == |st.inbox| == |st.threads| && n == |st'.inbox| == |st'.threads| && LogOk(src, n, st)
    requires q < n && 0 <= Written(src, n, st, q) && Written(src, n, st', q) == Written(src, n, st, q) + 1
    requires forall r :: 0 <= r < n && r != q ==> Written(src, n, st', r) == Written(src, n, st, r)
    requires var k := Idx(q, Written(src, n, st, q), n);
             k < ChunkCount(src) && k !in st.log && st'.log == st.log + [k]
    ensures LogOk(src, n, st')
  {
    hide Idx, Distinct, InOrder, Written, ChunkCount;
    var w := Written(src, n, st, q);
    var k := Idx(q, w, n);
    IdxInverse(q, w, n);
    DistinctAppend(st.log, k);
    forall c | c in st.log && c % n == k % n ensures c < k {
      IdxOfQuotient(c, n);
      IdxMonotone(q, c / n, w, n);
    }
    InOrderAppend(st.log, n, k);
    forall c | c in st'.log ensures c < ChunkCount(src) && c / n < Written(src, n, st', c % n) {
      if c != k {
        assert c in st.log;
        IdxOfQuotient(c, n);
      }
    }
    forall r, j: nat | 0 <= r < n && j < Written(src, n, st', r) ensures Idx(r, j, n) in st'.log {
      if r != q || j < w {
        assert Idx(r, j, n) in st.log;
      }
    }
  }

  /** The chunk number thread q writes, if it is about to write. */
  function Number(st: State, q: nat): nat
    requires q < |st.threads| && st.threads[q].Sought?
  {
    NumberAt(st.threads[q].pos)
  }

  lemma WriteKeepsLog(w: seq<string>, src: string, n: nat, st: State, q: nat)
    requires Clean(src) && ThreadsOk(w, src, n, st) && 0 < n && LogOk(src, n, st)
    requires TidyStep(st, q) && st.threads[q].Sought?
    ensures var st', k := Next(st, q), Number(st, q);
            && n == |st'.inbox| == |st'.threads| && LogOk(src, n, st')
            && k !in st.log && k < ChunkCount(src) && st'.log == st.log + [k]
            && st'.file == WriteChunk(w, st.file, k)
  {
    assert q < n;
    PendingChunk(w, src, n, st, q);
    NextWrites(st, q);
    OwnThread(w, src, n, st, q);
    forall r | 0 <= r < n && r != q ensures Written(src, n, Next(st, q), r) == Written(src, n, st, r) {
      OtherThread(w, src, n, st, q, r);
    }
    var j := Written(src, n, st, q);
    NumberAtPlace(Idx(q, j, n));
    hide ThreadsOk, Idx, PosWrite, LogOk, Written, Load, Next, TidyStep, ChunkCount, Place, NumberAt, Part, Text;
    LogGrows(src, n, st, Next(st, q), q);
  }

  lemma OtherLeavesLog(st: State, q: nat)
    requires Enabled(st, q) && !st.threads[q].Sought?
    ensures Next(st, q).log == st.log && Next(st, q).file == st.file
  {
    hide Tok, Filled, StringAt;
  }

  lemma OtherStepKeepsLog(w: seq<string>, src: string, n: nat, st: State, q: nat)
    requires Clean(src) && ThreadsOk(w, src, n, st) && 0 < n && LogOk(src, n, st)
    requires TidyStep(st, q) && !st.threads[q].Sought?
    ensures var st' := Next(st, q);
            && n == |st'.inbox| == |st'.threads| && LogOk(src, n, st') && st'.log == st.log && st'.file == st.file
  {
    assert q < n;
    OwnThread(w, src, n, st, q);
    OtherLeavesLog(st, q);
    var st' := Next(st, q);
    forall r | 0 <= r < n ensures Written(src, n, st', r) == Written(src, n, st, r) {
      if r != q { OtherThread(w, src, n, st, q, r); }
    }
    hide ThreadsOk, Idx, Distinct, InOrder, Written, Next, TidyStep, ChunkCount;
    forall k | k in st.log ensures k / n < Written(src, n, st', k % n) {
      IdxOfQuotient(k, n);
    }
    forall r, j: nat | 0 <= r < n && j < Written(src, n, st', r) ensures Idx(r, j, n) in st'.log {
      assert Written(src, n, st', r) == Written(src, n, st, r);
    }
  }

  lemma AppendParts(w: seq<string>, log: seq<nat>, k: nat)
    ensures Replay(w, log + [k]) == WriteChunk(w, Replay(w, log), k)
    ensures Total(w, log + [k]) == Total(w, log) + |Part(w, k)|
  {
    assert (log + [k])[..|log|] == log;
  }

  /** Refinement: to an observer of the file, the nine steps of a thread's turn are one atomic positional write of the
      text of its next chunk, done at most once; every other step leaves the file alone. */
  lemma StepRefines(w: seq<string>, src: string, n: nat, st: State, q: nat)
    requires Clean(src) && Inv(w, src, n, st) && TidyStep(st, q)
    ensures var st' := Next(st, q);
            if st.threads[q].Sought? then
              var k := Number(st, q);
              k !in st.log && st'.log == st.log + [k] && st'.file == WriteChunk(w, st.file, k)
            else st'.log == st.log && st'.file == st.file
  {
    if st.threads[q].Sought? {
      WriteKeepsLog(w, src, n, st, q);
    } else {
      OtherStepKeepsLog(w, src, n, st, q);
    }
    hide *;
  }

  /** How a step changes the uncounted bytes. */
  lemma UncountedStep(w: seq<string>, src: string, n: nat, st: State, q: nat)
    requires ThreadsOk(w, src, n, st) && TidyStep(st, q)
    ensures var st' := Next(st, q);
            if st.threads[q].Sought? then
              st'.received == st.received && Uncounted(st) == 0
              && Uncounted(st') == |Text(st, st.threads[q].owner, st.threads[q].from)|
            else st'.received + Uncounted(st') == st.received + Uncounted(st)
  {
    hide StreamOf, PosWrite, Idx, Part, Load, Tok, Filled, HalfRead, FullRead, StringAt, Stands;
    assert ThreadOk(w, src, n, st, q);
    if st.holder.Some? && st.holder.value != q {
      assert ThreadOk(w, src, n, st, st.holder.value);
      OthersKept(w, src, n, st, q, st.holder.value);
    }
  }

  /** The counter catches up in the step after the write. */
  lemma StepCounts(w: seq<string>, src: string, n: nat, st: State, q: nat)
    requires Clean(src) && Inv(w, src, n, st) && TidyStep(st, q)
    ensures var st' := Next(st, q);
            st'.received + Uncounted(st') == Total(w, st'.log)
  {
    UncountedStep(w, src, n, st, q);
    StepRefines(w, src, n, st, q);
    if st.threads[q].Sought? {
      PendingChunk(w, src, n, st, q);
      NumberAtPlace(Idx(q, Written(src, n, st, q), n));
      AppendParts(w, st.log, Number(st, q));
    }
    hide ThreadsOk, LogOk, Replay, Total, Next, WriteChunk, Uncounted, Part, Place, NumberAt, TidyStep, Text;
  }

  lemma FileKept(w: seq<string>, src: string, n: nat, st: State, q: nat)
    requires Clean(src) && Inv(w, src, n, st) && TidyStep(st, q)
    ensures Next(st, q).file == Replay(w, Next(st, q).log)
  {
    StepRefines(w, src, n, st, q);
    assert q < |st.threads| && st.file == Replay(w, st.log);
    hide *;
    if st.threads[q].Sought? {
      AppendParts(w, st.log, Number(st, q));
    }
  }

  lemma LogKept(w: seq<string>, src: string, n: nat, st: State, q: nat)
    requires Clean(src) && ThreadsOk(w, src, n, st) && 0 < n && LogOk(src, n, st) && TidyStep(st, q)
    ensures var st' := Next(st, q);
            n == |st'.inbox| == |st'.threads| && LogOk(src, n, st')
  {
    if st.threads[q].Sought? {
      WriteKeepsLog(w, src, n, st, q);
    } else {
      OtherStepKeepsLog(w, src, n, st, q);
    }
    hide *;
  }

  /** Every step that keeps the calls of a turn together keeps the whole invariant. */
  lemma StepKeepsInv(w: seq<string>, src: string, n: nat, st: State, q: nat)
    requires Clean(src) && Inv(w, src, n, st) && TidyStep(st, q)
    ensures Inv(w, src, n, Next(st, q))
  {
    StepKeepsThreads(w, src, n, st, q);
    LogKept(w, src, n, st, q);
    FileKept(w, src, n, st, q);
    StepCounts(w, src, n, st, q);
    hide ThreadsOk, LogOk, Replay, Total, Next, Uncounted, TidyStep;
  }

  lemma {:induction false} RunKeepsInv(w: seq<string>, src: string, n: nat, st: State, steps: seq<nat>)
    requires Clean(src) && Inv(w, src, n, st) && TidyRun(st, steps)
    ensures CanRun(st, steps) && Inv(w, src, n, Run(st, steps))
    decreases |steps|
  {
    hide Inv, Next, Enabled;
    if steps != [] {
      StepKeepsInv(w, src, n, st, steps[0]);
      RunKeepsInv(w, src, n, Next(st, steps[0]), steps[1..]);
    }
  }
}
