/** What the threads of Assignment-2/multiplethreads.c write, with the token copied down over its own buffer (line 56) by a
    strcpy that copies from the front: the file and the byte counter at the end of every tidy run. */
module OverlapResults {
  import opened CStrings
  import opened ChunkFrame
  import opened Overlap
  import opened Reassembly
  import opened Transfer
  import opened TransferProgress
  import opened TidyRuns
  import opened TidyResults

  /** Positions are C ints. */
  const INT_RANGE: nat := 0x8000_0000

  lemma PositionDigits(pos: nat)
    requires pos < INT_RANGE
    ensures 1 <= |Decimal(pos)| <= 10
  {
    assert Pow10(3) == 1000;
    assert Pow10(6) == 1000 * Pow10(3) by { assert Pow10(5) == 100 * Pow10(3); }
    assert Pow10(9) == 1000 * Pow10(6) by { assert Pow10(8) == 100 * Pow10(6); }
    assert Pow10(10) == 10 * Pow10(9);
    DecimalLength(pos, 10);
  }

  /** What is kept of a chunk, and its NUL, stay inside the chunk's own place: no chunk is overtaken. */
  lemma LoadStaysInside(src: string, k: nat)
    requires k < ChunkCount(src) && |src| <= INT_RANGE
    ensures |Load(src, k)| < CHUNK
  {
    ChunkAt(src, k);
    PositionDigits(Place(k));
    hide Decimal, Chunk;
    KeptIs(Overlapping, |Decimal(Place(k))| + 1, Chunk(src, k));
  }

  // ---------------------------------------------------------------------------------------------
  // Texts that stay inside their places
  // ---------------------------------------------------------------------------------------------

  ghost predicate Inside(w: seq<string>) {
    forall k :: 0 <= k < |w| ==> |w[k]| < CHUNK
  }

  /** The byte at position p once its text has been written: NULs fill the place up. */
  function KeptByte(w: seq<string>, p: nat): char {
    var kept := Part(w, p / CHUNK);
    if p % CHUNK < |kept| then kept[p % CHUNK] else NUL
  }

  ghost predicate KeptFile(w: seq<string>, log: seq<nat>, f: string) {
    && (forall p :: 0 <= p < |f| && p / CHUNK in log ==> f[p] == KeptByte(w, p))
    && (forall p :: 0 <= p < |f| && p / CHUNK !in log ==> f[p] == NUL)
    && (forall k :: k in log ==> Place(k) + |Part(w, k)| + 1 <= |f|)
  }

  lemma KeptByteAt(w: seq<string>, k: nat, r: nat)
    requires r < CHUNK
    ensures KeptByte(w, Place(k) + r) == if r < |Part(w, k)| then Part(w, k)[r] else NUL
    ensures (Place(k) + r) / CHUNK == k
  {
    hide Part;
  }

  lemma PlaceSplit(p: nat)
    ensures p == Place(p / CHUNK) + p % CHUNK && p % CHUNK < CHUNK
  {
  }

  lemma PlaceApart(j: nat, k: nat)
    requires j != k
    ensures Place(j) + CHUNK <= Place(k) || Place(k) + CHUNK <= Place(j)
  {
  }

  /** One byte of the file after one more write. */
  lemma KeptWriteAt(w: seq<string>, log: seq<nat>, f: string, k: nat, p: nat)
    requires KeptFile(w, log, f) && k < |w| && Inside(w) && p < |WriteChunk(w, f, k)|
    ensures p / CHUNK == k || p / CHUNK in log ==> WriteChunk(w, f, k)[p] == KeptByte(w, p)
    ensures p / CHUNK != k && p / CHUNK !in log ==> WriteChunk(w, f, k)[p] == NUL
  {
    var j, r := p / CHUNK, p % CHUNK;
    PlaceSplit(p);
    KeptByteAt(w, j, r);
    if j != k { PlaceApart(j, k); }
    assert |Part(w, k)| < CHUNK;
    assert j in log ==> Place(j) + |Part(w, j)| + 1 <= |f|;
    hide Place, KeptByte, Inside, Part;
  }

  lemma KeptWrite(w: seq<string>, log: seq<nat>, f: string, k: nat)
    requires KeptFile(w, log, f) && k < |w| && Inside(w)
    ensures KeptFile(w, log + [k], WriteChunk(w, f, k))
  {
    var f', more := WriteChunk(w, f, k), log + [k];
    assert |f| <= |f'| && Place(k) + |Part(w, k)| + 1 <= |f'|;
    forall p | 0 <= p < |f'|
      ensures p / CHUNK in more ==> f'[p] == KeptByte(w, p)
      ensures p / CHUNK !in more ==> f'[p] == NUL
    {
      KeptWriteAt(w, log, f, k, p);
      assert p / CHUNK in more <==> p / CHUNK in log || p / CHUNK == k;
    }
    hide KeptByte, WriteChunk, Part, Place;
  }

  /** Where the file ends: behind the NUL of the last text. */
  function LastByte(w: seq<string>): nat {
    if w == [] then 0 else Place(|w| - 1) + |w[|w| - 1]| + 1
  }

  lemma EndOfPart(w: seq<string>, k: nat)
    requires k < |w| && Inside(w)
    ensures Place(k) + |Part(w, k)| + 1 <= LastByte(w)
  {
  }

  lemma KeptNothing(w: seq<string>)
    ensures KeptFile(w, [], "")
  {
  }

  /** The bytes of the file in every order of writes. */
  lemma {:induction false} KeptFileAfter(w: seq<string>, log: seq<nat>)
    requires Inside(w) && forall k :: k in log ==> k < |w|
    ensures KeptFile(w, log, Replay(w, log))
    ensures |Replay(w, log)| <= LastByte(w)
  {
    hide KeptFile, LastByte, Inside, Part;
    if log == [] {
      KeptNothing(w);
    } else {
      var before, k := log[..|log| - 1], log[|log| - 1];
      assert log == before + [k];
      assert k in log && forall c :: c in before ==> c in log;
      KeptFileAfter(w, before);
      KeptWrite(w, before, Replay(w, before), k);
      EndOfPart(w, k);
    }
  }

  /** The file when every text has been written, in whatever order and however often. */
  function KeptContent(w: seq<string>): (f: string)
    ensures |f| == LastByte(w) && forall p :: 0 <= p < |f| ==> f[p] == KeptByte(w, p)
  {
    seq(LastByte(w), p requires 0 <= p < LastByte(w) => KeptByte(w, p))
  }

  lemma InsideParts(w: seq<string>, p: nat)
    requires Inside(w) && p < LastByte(w)
    ensures p / CHUNK < |w|
  {
  }

  lemma ExactFile(w: seq<string>, log: seq<nat>)
    requires Inside(w) && forall k: nat :: k in log <==> k < |w|
    ensures Replay(w, log) == KeptContent(w)
  {
    KeptFileAfter(w, log);
    var f := Replay(w, log);
    hide Replay, KeptByte;
    if w != [] {
      assert |w| - 1 in log;
      EndOfPart(w, |w| - 1);
    }
    forall p | 0 <= p < |f| ensures f[p] == KeptByte(w, p) {
      InsideParts(w, p);
    }
  }

  // ---------------------------------------------------------------------------------------------
  // The end of a tidy run
  // ---------------------------------------------------------------------------------------------

  lemma LoadsInside(src: string)
    requires |src| <= INT_RANGE
    ensures Inside(Loads(src))
  {
    forall k | 0 <= k < ChunkCount(src) ensures |Load(src, k)| < CHUNK {
      LoadStaysInside(src, k);
    }
    hide Load, ChunkCount;
  }

  /** The finished file, whatever the tidy interleaving and the number of connections: each chunk starts at its position
      without its first characters, and NULs fill its place up. */
  lemma ExactOverlapped(src: string, n: nat, st: State)
    requires Clean(src) && |src| <= INT_RANGE && 0 < n && TidyReachable(src, n, st) && AllFinished(st)
    ensures st.file == KeptContent(Loads(src)) && st.received == PartTotal(Loads(src), ChunkCount(src))
  {
    hide TidyReachable, AllFinished, Replay, KeptContent, PartTotal, Inv, Inside, Load, ChunkCount;
    TidyInv(src, n, st);
    FinishedIsComplete(Loads(src), src, n, st);
    LoadsInside(src);
    ExactFile(Loads(src), st.log);
  }

  /** What is kept of the first chunk: all of a single byte, two bytes less of anything longer. */
  lemma FirstLoad(src: string)
    requires src != ""
    ensures |src| == 1 ==> Load(src, 0) == src
    ensures |src| > 1 ==> |Load(src, 0)| == |Chunk(src, 0)| - 2
    ensures |Chunk(src, 0)| == if |src| < CHUNK then |src| else CHUNK
  {
    assert Place(0) == 0;
    assert |Decimal(0)| == 1 by { DecimalLength(0, 1); assert Pow10(1) == 10; }
    KeptIs(Overlapping, 2, Chunk(src, 0));
  }

  /** So the file is the source and a NUL exactly for a source of one byte. */
  lemma ContentFaithfulIff(src: string)
    requires Clean(src) && src != ""
    ensures KeptContent(Loads(src)) == src + [NUL] <==> |src| == 1
  {
    hide Load, KeptContent;
    FirstLoad(src);
    var f := KeptContent(Loads(src));
    if |src| == 1 {
      assert |f| == 2;
      assert f[0] == KeptByte(Loads(src), 0) && f[1] == KeptByte(Loads(src), 1);
      assert f == src + [NUL];
    } else if ChunkCount(src) == 1 {
      assert |f| < |src| + 1;
    } else {
      BehindFirst(src);
      assert f[CHUNK - 1] == KeptByte(Loads(src), CHUNK - 1);
      assert (src + [NUL])[CHUNK - 1] == src[CHUNK - 1] && src[CHUNK - 1] in src;
    }
  }

  lemma BehindFirst(src: string)
    requires ChunkCount(src) > 1
    ensures CHUNK - 1 < LastByte(Loads(src)) && CHUNK < |src|
  {
    hide Load;
  }

  lemma OverlappedFaithfulIff(src: string, n: nat, st: State)
    requires Clean(src) && src != "" && |src| <= INT_RANGE && 0 < n && TidyReachable(src, n, st) && AllFinished(st)
    ensures st.file == src + [NUL] <==> |src| == 1
  {
    hide *;
    ExactOverlapped(src, n, st);
    ContentFaithfulIff(src);
  }

  // ---------------------------------------------------------------------------------------------
  // The byte counter
  // ---------------------------------------------------------------------------------------------

  lemma {:induction false} LoadTotalBound(src: string, m: nat)
    requires 0 < m <= ChunkCount(src)
    ensures var upTo := if CHUNK * m <= |src| then CHUNK * m else |src|;
            PartTotal(Loads(src), m) <= upTo && (|src| > 1 ==> PartTotal(Loads(src), m) < upTo)
  {
    ChunkAt(src, m - 1);
    KeptIs(Overlapping, |Decimal(Place(m - 1))| + 1, Chunk(src, m - 1));
    FirstLoad(src);
    assert Part(Loads(src), m - 1) == Load(src, m - 1);
    hide Chunk, ChunkCount, Decimal, Part, Loads;
    if m == 1 {
      assert PartTotal(Loads(src), 0) == 0;
    } else {
      LoadTotalBound(src, m - 1);
    }
  }

  /** For a source of more than one byte recv_data does not reach the file length, in any state of a tidy run: the spin
      loop in main does not end. */
  lemma CounterStaysBelow(src: string, n: nat, st: State)
    requires Clean(src) && |src| > 1 && 0 < n && TidyReachable(src, n, st)
    ensures st.received < |src|
  {
    hide TidyReachable, Load, Listed, PartTotal, Uncounted, Inv, Loads;
    TidyInv(src, n, st);
    CounterIs(Loads(src), src, n, st);
    LoadTotalBound(src, ChunkCount(src));
  }

  /** In a tidy run the spin loop can end exactly for sources of one byte. */
  lemma SpinEndsIff(src: string, n: nat)
    requires Clean(src) && src != "" && 0 < n
    ensures (exists st :: TidyReachable(src, n, st) && st.received >= |src|) <==> |src| == 1
  {
    hide Load, Listed, Inv, AllFinished, TidyReachable, PartTotal, Loads;
    if |src| > 1 {
      forall st | TidyReachable(src, n, st) ensures st.received < |src| {
        CounterStaysBelow(src, n, st);
      }
    } else {
      var end := TidyEnd(src, n);
      TidyInv(src, n, end);
      FinishedIsComplete(Loads(src), src, n, end);
      OneByteTotal(src);
      assert end.received >= |src|;
    }
  }

  lemma OneByteTotal(src: string)
    requires |src| == 1
    ensures ChunkCount(src) == 1 && PartTotal(Loads(src), 1) == 1
  {
    FirstLoad(src);
    hide Load;
    assert PartTotal(Loads(src), 0) == 0;
  }

  /** Some tidy run ends. */
  lemma TidyEnd(src: string, n: nat) returns (end: State)
    requires Clean(src) && 0 < n
    ensures TidyReachable(src, n, end) && AllFinished(end)
  {
    hide Inv, AllFinished, CanRun, Run, TidyRun;
    StartInv(src, n);
    var steps := CanFinish(Loads(src), src, n, Start(src, n));
    end := Run(Start(src, n), steps);
  }
}
