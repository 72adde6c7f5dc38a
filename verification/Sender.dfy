/** The sender of the striped transfer (Assignment-2/serverb.c): chunks are framed and dealt to the connections in
    turn. */
module Sender {
  import opened ChunkFrame
  import opened Reassembly

  /** The chunk that connection q carries as its frame number j. */
  function Idx(q: nat, j: nat, n: nat): nat {
    q + j * n
  }

  lemma {:induction false} MulAtLeast(d: nat, n: nat)
    requires 1 <= d
    ensures d * n >= n
  {
    if d > 1 {
      MulAtLeast(d - 1, n);
      assert d * n == (d - 1) * n + n;
    }
  }

  lemma MulDifference(a: nat, b: nat, n: nat)
    ensures (a - b) * n == a * n - b * n
  {
  }

  /** Quotient and remainder are unique. */
  lemma QuotientUnique(a: nat, b: nat, d: nat, r: nat, n: nat)
    requires b < n && r < n && a * n + b == d * n + r
    ensures a == d && b == r
  {
    if d < a {
      MulAtLeast(a - d, n);
      MulDifference(a, d, n);
    } else if a < d {
      MulAtLeast(d - a, n);
      MulDifference(d, a, n);
    }
  }

  lemma DivModOf(a: nat, b: nat, n: nat)
    requires b < n
    ensures (a * n + b) / n == a && (a * n + b) % n == b
  {
    var x := a * n + b;
    QuotientUnique(a, b, x / n, x % n, n);
  }

  lemma IdxInverse(q: nat, j: nat, n: nat)
    requires q < n
    ensures Idx(q, j, n) % n == q && Idx(q, j, n) / n == j
  {
    DivModOf(j, q, n);
  }

  lemma IdxOfQuotient(k: nat, n: nat)
    requires 0 < n
    ensures Idx(k % n, k / n, n) == k && k % n < n
  {
    assert k == (k / n) * n + k % n;
  }

  lemma IdxMonotone(q: nat, i: nat, j: nat, n: nat)
    requires i < j && 0 < n
    ensures Idx(q, i, n) < Idx(q, j, n)
  {
    MulAtLeast(j - i, n);
    MulDifference(j, i, n);
  }

  /** How many of the first m chunks go to connection q. */
  function Share(m: nat, n: nat, q: nat): nat
    requires 0 < n
  {
    m / n + if q < m % n then 1 else 0
  }

  lemma ShareStep(m: nat, n: nat, q: nat)
    requires q < n
    ensures Share(m + 1, n, q) == Share(m, n, q) + (if q == m % n then 1 else 0)
    ensures Share(m, n, m % n) == m / n
  {
    var a, b := m / n, m % n;
    assert m == a * n + b;
    if b + 1 < n {
      DivModOf(a, b + 1, n);
    } else {
      assert (a + 1) * n == a * n + n;
      DivModOf(a + 1, 0, n);
    }
  }

  /** Frame j of connection q is one of the first m chunks exactly if j is within its share. */
  lemma ShareBound(m: nat, n: nat, q: nat, j: nat)
    requires q < n
    ensures j < Share(m, n, q) <==> Idx(q, j, n) < m
  {
    var a, b := m / n, m % n;
    assert m == Idx(b, a, n) by { IdxOfQuotient(m, n); }
    if j < a {
      IdxMonotone(q, j, a, n);
      assert Idx(q, j + 1, n) == Idx(q, j, n) + n by { assert (j + 1) * n == j * n + n; }
      if j + 1 < a { IdxMonotone(0, j + 1, a, n); }
    } else if j > a {
      IdxMonotone(q, a, j, n);
      assert Idx(q, a + 1, n) == Idx(q, a, n) + n by { assert (a + 1) * n == a * n + n; }
      if a + 1 < j { IdxMonotone(0, a + 1, j, n); }
    }
  }

  function FrameOf(src: string, k: nat): string {
    Frame(Place(k), Chunk(src, k))
  }

  /** What the sender puts on connection q: the frames of chunks q, q + n, q + 2n and so on. */
  function StreamOf(src: string, n: nat, q: nat): (s: seq<string>)
    requires q < n
    ensures |s| == Share(ChunkCount(src), n, q)
  {
    seq(Share(ChunkCount(src), n, q), j requires 0 <= j < Share(ChunkCount(src), n, q) => FrameOf(src, Idx(q, j, n)))
  }

  lemma StreamLength(src: string, n: nat, q: nat)
    requires q < n
    ensures |StreamOf(src, n, q)| == Share(ChunkCount(src), n, q)
  {
  }

  lemma StreamAt(src: string, n: nat, q: nat, j: nat)
    requires q < n && j < |StreamOf(src, n, q)|
    ensures StreamOf(src, n, q)[j] == FrameOf(src, Idx(q, j, n))
  {
    hide FrameOf, Idx, ChunkCount, Share;
  }

  /** fread of at most 500 bytes at the file position. */
  function ReadChunk(src: string, pos: nat): string
    requires pos <= |src|
  {
    if pos + CHUNK <= |src| then src[pos..pos + CHUNK] else src[pos..]
  }

  method SendAll(src: string, n: nat) returns (conns: array<seq<string>>)
    requires 0 < n
    ensures fresh(conns) && conns.Length == n
    ensures forall q :: 0 <= q < n ==> conns[q] == StreamOf(src, n, q)
  {
    hide Parse, Frame, Share, Idx;
    conns := new seq<string>[n](_ => []);
    forall q | 0 <= q < n ensures Dealt(src, n, q, 0, []) {
      NothingDealt(src, n, q);
    }
    var pos := 0;
    var i: nat := 0;
    ghost var m := ChunkCount(src);
    while true
      invariant fresh(conns) && conns.Length == n
      invariant i <= m && pos == if i < m then CHUNK * i else |src|
      invariant forall q :: 0 <= q < n ==> Dealt(src, n, q, i, conns[q])
      decreases m - i
    {
      var buf := ReadChunk(src, pos);
      if |buf| == 0 {
        break;
      }
      assert i < m && buf == Chunk(src, i);
      var frame := BuildFrame(pos, buf);
      ghost var before := conns[..];
      conns[i % n] := conns[i % n] + [frame];
      forall q | 0 <= q < n ensures Dealt(src, n, q, i + 1, conns[q]) {
        DealtStep(src, n, q, i, before[q]);
      }
      pos := pos + |buf|;
      i := i + 1;
    }
  }

  /** The connection holds its share of the first i chunks. */
  ghost predicate Dealt(src: string, n: nat, q: nat, i: nat, frames: seq<string>)
    requires q < n
  {
    && |frames| == Share(i, n, q)
    && forall j :: 0 <= j < |frames| ==> frames[j] == FrameOf(src, Idx(q, j, n))
  }

  lemma NothingDealt(src: string, n: nat, q: nat)
    requires q < n
    ensures Dealt(src, n, q, 0, [])
  {
  }

  lemma DealtStep(src: string, n: nat, q: nat, i: nat, frames: seq<string>)
    requires q < n && Dealt(src, n, q, i, frames)
    ensures Dealt(src, n, q, i + 1, if q == i % n then frames + [FrameOf(src, i)] else frames)
  {
    hide Share, Idx, FrameOf;
    ShareStep(i, n, q);
    IdxOfQuotient(i, n);
  }
}
