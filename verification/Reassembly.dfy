/** What a file holds after chunks have been written to it at their positions, each with a trailing NUL, in any
    order (Assignment-2/multiplethreads.c, getdata; Assignment-2/nonblockingconnect.c). */
module Reassembly {
  import opened CStrings
  import opened ChunkFrame
  import opened Overlap

  function ChunkCount(src: string): nat {
    (|src| + CHUNK - 1) / CHUNK
  }

  /** Where chunk number k starts in the file. */
  function Place(k: nat): nat {
    CHUNK * k
  }

  /** The number of the chunk that a position lies in. */
  function NumberAt(pos: nat): nat {
    pos / CHUNK
  }

  lemma NumberAtPlace(k: nat)
    ensures NumberAt(Place(k)) == k
  {
  }

  /** Chunk number k of a file. */
  function Chunk(src: string, k: nat): string {
    if CHUNK * k >= |src| then ""
    else if CHUNK * k + CHUNK <= |src| then src[CHUNK * k..CHUNK * k + CHUNK]
    else src[CHUNK * k..]
  }

  function Zeros(n: nat): (s: string)
    ensures |s| == n && forall i :: 0 <= i < n ==> s[i] == NUL
  {
    seq(n, _ => NUL)
  }

  /** fseek and fwrite: bytes are replaced in place, and a gap behind the old end reads as NUL. */
  function PosWrite(file: string, pos: nat, data: string): (r: string)
    ensures |r| == if |file| <= pos + |data| then pos + |data| else |file|
    ensures forall p :: 0 <= p < |r| ==>
              r[p] == if pos <= p < pos + |data| then data[p - pos] else if p < |file| then file[p] else NUL
  {
    var front := if |file| <= pos then file + Zeros(pos - |file|) else file[..pos];
    var back := if pos + |data| <= |file| then file[pos + |data|..] else "";
    front + data + back
  }

  /** What a thread of multiplethreads.c keeps of chunk number k. */
  function Load(src: string, k: nat): string {
    Kept(Overlapping, |Decimal(Place(k))| + 1, Chunk(src, k))
  }

  /** The texts a receiver writes, by the number of the chunk: whole chunks, or what is kept of them. */
  function Chunks(src: string): (w: seq<string>)
    ensures |w| == ChunkCount(src) && forall k :: 0 <= k < |w| ==> w[k] == Chunk(src, k)
  {
    seq(ChunkCount(src), k requires 0 <= k < ChunkCount(src) => Chunk(src, k))
  }

  function Loads(src: string): (w: seq<string>)
    ensures |w| == ChunkCount(src) && forall k :: 0 <= k < |w| ==> w[k] == Load(src, k)
  {
    seq(ChunkCount(src), k requires 0 <= k < ChunkCount(src) => Load(src, k))
  }

  function Part(w: seq<string>, k: nat): string {
    if k < |w| then w[k] else ""
  }

  /** fwrite(pt, strlen(pt) + 1): the text and its terminator. */
  function WriteChunk(w: seq<string>, file: string, k: nat): string {
    PosWrite(file, Place(k), Part(w, k) + [NUL])
  }

  /** The file after the chunks in `log`, in that order. */
  function Replay(w: seq<string>, log: seq<nat>): string {
    if log == [] then "" else WriteChunk(w, Replay(w, log[..|log| - 1]), log[|log| - 1])
  }

  ghost predicate Distinct(log: seq<nat>) {
    forall i, j :: 0 <= i < j < |log| ==> log[i] != log[j]
  }

  /** Chunks of the same connection are in order. */
  ghost predicate InOrder(log: seq<nat>, n: nat)
    requires 0 < n
  {
    forall i, j :: 0 <= i < j < |log| && log[i] % n == log[j] % n ==> log[i] < log[j]
  }

  /** Chunk a was written after chunk b. */
  ghost predicate After(log: seq<nat>, a: int, b: int) {
    exists i, j :: 0 <= i < j < |log| && log[i] == b && log[j] == a
  }

  /** Chunk k was written before its predecessor, whose terminator then fell on its first byte. */
  ghost predicate Overtaken(log: seq<nat>, k: int) {
    After(log, k - 1, k)
  }

  /** The last write to position p wrote the source's byte there: its chunk has been written, and the terminator of
      the chunk in front has not overwritten it. */
  ghost predicate Intact(src: string, log: seq<nat>, p: nat) {
    p < |src| && p / CHUNK in log && !(p % CHUNK == 0 && Overtaken(log, p / CHUNK))
  }

  lemma AfterAppend(log: seq<nat>, k: nat, a: int, b: int)
    ensures After(log + [k], a, b) <==> After(log, a, b) || (k == a && b in log)
  {
    var more := log + [k];
    if After(log, a, b) {
      var i, j :| 0 <= i < j < |log| && log[i] == b && log[j] == a;
      assert more[i] == b && more[j] == a;
    }
    if k == a && b in log {
      var i :| 0 <= i < |log| && log[i] == b;
      assert more[i] == b && more[|log|] == a;
    }
    if After(more, a, b) {
      var i, j :| 0 <= i < j < |more| && more[i] == b && more[j] == a;
      assert log[i] == b;
      assert j < |log| ==> log[j] == a;
    }
  }

  lemma ChunkAt(src: string, k: nat)
    requires k < ChunkCount(src)
    ensures CHUNK * k < |src| && Chunk(src, k) != ""
    ensures CHUNK * k + |Chunk(src, k)| <= |src|
    ensures |Chunk(src, k)| == CHUNK || (k == ChunkCount(src) - 1 && CHUNK * k + |Chunk(src, k)| == |src|)
    ensures forall p :: CHUNK * k <= p < CHUNK * k + |Chunk(src, k)| ==> Chunk(src, k)[p - CHUNK * k] == src[p]
  {
  }

  /** A file the frames can carry. */
  ghost predicate Clean(src: string) {
    ';' !in src && NUL !in src
  }

  lemma ChunkIsClean(src: string, k: nat)
    requires Clean(src) && k < ChunkCount(src)
    ensures Chunk(src, k) != "" && ';' !in Chunk(src, k) && NUL !in Chunk(src, k)
  {
    ChunkAt(src, k);
    var c := Chunk(src, k);
    forall i | 0 <= i < |c| ensures c[i] in src {
      assert c[CHUNK * k + i - CHUNK * k] == src[CHUNK * k + i];
    }
  }

  lemma NotAfterIfAbsent(log: seq<nat>, a: int, b: int)
    requires b !in log
    ensures !After(log, a, b)
  {
  }

  lemma IntactAppend(src: string, log: seq<nat>, k: nat, p: nat)
    requires k < ChunkCount(src) && k !in log
    ensures var start, len := CHUNK * k, |Chunk(src, k)|;
            Intact(src, log + [k], p) <==>
              if start <= p < start + len then true
              else if p == start + len then false
              else Intact(src, log, p)
  {
    hide Chunk, After;
    ChunkAt(src, k);
    var more := log + [k];
    assert forall c: nat :: c in more <==> c in log || c == k;
    AfterAppend(log, k, p / CHUNK - 1, p / CHUNK);
    NotAfterIfAbsent(log, k - 1, k);
  }

  lemma DropLast(log: seq<nat>)
    requires log != [] && Distinct(log)
    ensures var before, k := log[..|log| - 1], log[|log| - 1];
            && log == before + [k] && Distinct(before) && k !in before
            && forall c :: c in log <==> c in before || c == k
  {
    var before, k := log[..|log| - 1], log[|log| - 1];
    assert log == before + [k];
  }

  /** One more write to a file whose contents are known. */
  lemma FileAfterWrite(src: string, log: seq<nat>, k: nat, file: string)
    requires k < ChunkCount(src) && k !in log
    requires forall p :: 0 <= p < |file| ==> file[p] == if Intact(src, log, p) then src[p] else NUL
    requires forall p :: |file| <= p ==> !Intact(src, log, p)
    ensures var f := WriteChunk(Chunks(src), file, k);
            forall p :: 0 <= p < |f| ==> f[p] == if Intact(src, log + [k], p) then src[p] else NUL
  {
    hide Overtaken, Chunk;
    ChunkAt(src, k);
    var f := WriteChunk(Chunks(src), file, k);
    forall p | 0 <= p < |f| ensures f[p] == if Intact(src, log + [k], p) then src[p] else NUL {
      IntactAppend(src, log, k, p);
    }
  }

  /** For any order of distinct chunks, complete or not: a byte of the file is the source's exactly if it is intact,
      and NUL otherwise; the file ends one byte behind the furthest chunk written. */
  lemma {:induction false} FileAfter(src: string, log: seq<nat>)
    requires Distinct(log) && forall k :: k in log ==> k < ChunkCount(src)
    ensures forall p :: 0 <= p < |Replay(Chunks(src), log)| ==>
              Replay(Chunks(src), log)[p] == if Intact(src, log, p) then src[p] else NUL
    ensures |Replay(Chunks(src), log)| <= |src| + 1
    ensures forall k :: k in log ==> CHUNK * k + |Chunk(src, k)| + 1 <= |Replay(Chunks(src), log)|
  {
    hide Intact, Chunk, Distinct;
    if log != [] {
      var before, k := log[..|log| - 1], log[|log| - 1];
      DropLast(log);
      FileAfter(src, before);
      var file := Replay(Chunks(src), before);
      forall p | |file| <= p ensures !Intact(src, before, p) {
        NotWrittenYet(src, before, p);
      }
      FileAfterWrite(src, before, k, file);
      ChunkAt(src, k);
    } else {
      NothingIntact(src);
    }
  }

  lemma NothingIntact(src: string)
    ensures forall p :: !Intact(src, [], p)
  {
  }

  lemma NotWrittenYet(src: string, log: seq<nat>, p: nat)
    requires forall k :: k in log ==> k < ChunkCount(src)
    requires forall k :: k in log ==> CHUNK * k + |Chunk(src, k)| + 1 <= p
    ensures !Intact(src, log, p)
  {
    if Intact(src, log, p) {
      var k := p / CHUNK;
      ChunkAt(src, k);
    }
  }

  /** Once every chunk has been written, in whatever order: the file is the source and a NUL, except that the first
      byte of a chunk is NUL exactly when the chunk in front was written after it. */
  lemma FinalFile(src: string, log: seq<nat>)
    requires src != "" && Distinct(log) && forall k: nat :: k in log <==> k < ChunkCount(src)
    ensures var f := Replay(Chunks(src), log);
            && |f| == |src| + 1 && f[|src|] == NUL
            && forall p :: 0 <= p < |src| ==>
                 f[p] == if p % CHUNK == 0 && Overtaken(log, p / CHUNK) then NUL else src[p]
  {
    hide Replay, Overtaken, Chunk;
    FileAfter(src, log);
    var last := ChunkCount(src) - 1;
    assert last in log;
    ChunkAt(src, last);
    forall p | 0 <= p < |src| ensures p / CHUNK in log {
      assert p / CHUNK < ChunkCount(src);
    }
  }

  /** The transfer reproduces the source, followed by a NUL, exactly when no chunk was overtaken. */
  lemma FaithfulIff(src: string, log: seq<nat>)
    requires src != "" && NUL !in src && Distinct(log) && forall k: nat :: k in log <==> k < ChunkCount(src)
    ensures Replay(Chunks(src), log) == src + [NUL] <==> forall k :: !Overtaken(log, k)
  {
    hide Replay, ChunkCount;
    FinalFile(src, log);
    var f := Replay(Chunks(src), log);
    if f == src + [NUL] {
      forall k ensures !Overtaken(log, k) {
        if Overtaken(log, k) {
          OvertakenByte(src, log, k);
        }
      }
    }
    if forall k :: !Overtaken(log, k) {
      assert f == src + [NUL];
    }
  }

  lemma OvertakenByte(src: string, log: seq<nat>, k: int)
    requires src != "" && NUL !in src && Distinct(log) && forall k: nat :: k in log <==> k < ChunkCount(src)
    requires Overtaken(log, k)
    ensures 0 <= CHUNK * k < |src| < |Replay(Chunks(src), log)| && Replay(Chunks(src), log)[CHUNK * k] != src[CHUNK * k]
  {
    hide Replay;
    assert k in log && 0 <= k < ChunkCount(src);
    FinalFile(src, log);
    var p := CHUNK * k;
    assert p % CHUNK == 0 && p / CHUNK == k;
    assert src[p] in src;
  }
}
