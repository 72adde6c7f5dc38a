/** What the select loop of Assignment-2/nonblockingconnect.c makes of the sender's frames, whatever select reports. It does
    not copy the token, so that each chunk is written whole; and it stops at the first connection it finds closed. */
module SelectLoop {
  import opened Options
  import opened CStrings
  import opened ChunkFrame
  import opened Overlap
  import opened Reassembly
  import opened Sender
  import opened Transfer
  import opened TidyRuns
  import opened TidyResults
  import opened Download

  /** Nothing has been read yet. */
  function Begin(src: string, n: nat): Files {
    Files(seq(n, q requires 0 <= q < n => StreamOf(src, n, q)), "", 0, 0, [])
  }

  /** The loop's files as the state of threads that are all waiting. */
  function Waiting(f: Files): State {
    State(f.inbox, seq(|f.inbox|, _ => Receiving), seq(|f.inbox|, _ => ""), None, None, f.file, f.fpos, f.received, f.log)
  }

  /** Every connection has its part of the frames in front of it, and the file and the counter are what the chunks
      behind them make of them. */
  ghost predicate LoopInv(src: string, n: nat, f: Files) {
    && 0 < n == |f.inbox|
    && (forall q :: 0 <= q < n ==> Behind(src, n, f, q))
    && LogOk(src, n, Waiting(f))
    && f.file == Replay(Chunks(src), f.log)
    && f.received == Total(Chunks(src), f.log)
  }

  ghost predicate Behind(src: string, n: nat, f: Files, q: nat)
    requires q < n == |f.inbox|
  {
    var got := |StreamOf(src, n, q)| - |f.inbox[q]|;
    0 <= got && f.inbox[q] == StreamOf(src, n, q)[got..]
  }

  lemma BeginInv(src: string, n: nat)
    requires 0 < n
    ensures LoopInv(src, n, Begin(src, n))
  {
    hide StreamOf, ChunkCount, Chunk;
    forall q | 0 <= q < n ensures Behind(src, n, Begin(src, n), q) {
      assert StreamOf(src, n, q)[0..] == StreamOf(src, n, q);
    }
  }

  /** The next frame of a connection is that of its next chunk. */
  lemma NextRead(src: string, n: nat, f: Files, q: nat)
    requires Clean(src) && q < n == |f.inbox| && Behind(src, n, f, q) && f.inbox[q] != []
    ensures var k := Idx(q, |StreamOf(src, n, q)| - |f.inbox[q]|, n);
            && k < ChunkCount(src) && NUL !in f.inbox[q][0]
            && Read(Plain, f.inbox[q][0]) == Some(Piece(Place(k), Chunk(src, k)))
            && Parse(f.inbox[q][0]).Some?
  {
    var got: nat := |StreamOf(src, n, q)| - |f.inbox[q]|;
    var k := Idx(q, got, n);
    ShareBound(ChunkCount(src), n, q, got);
    assert f.inbox[q][0] == StreamOf(src, n, q)[got];
    FrameHasNoNul(src, k);
    ChunkIsClean(src, k);
    ReadOfFrame(Plain, Place(k), Chunk(src, k));
  }

  lemma StoredIs(f: Files, q: nat, p: Piece)
    requires q < |f.inbox| && f.inbox[q] != [] && Read(Plain, f.inbox[q][0]) == Some(p)
    ensures Stored(Plain, f, q)
            == Files(f.inbox[q := f.inbox[q][1..]], PosWrite(f.file, p.pos, p.text + [NUL]), p.pos + |p.text| + 1,
                     f.received + |p.text|, f.log + [NumberAt(p.pos)])
  {
    hide Read, PosWrite, NumberAt;
  }

  /** Every write of the loop keeps the invariant. */
  lemma StoreKeeps(src: string, n: nat, f: Files, q: nat)
    requires Clean(src) && LoopInv(src, n, f) && q < n && f.inbox[q] != []
    ensures LoopInv(src, n, Stored(Plain, f, q))
  {
    InvIs(src, n, f);
    assert Behind(src, n, f, q);
    var got: nat := |StreamOf(src, n, q)| - |f.inbox[q]|;
    var k := Idx(q, got, n);
    NextRead(src, n, f, q);
    StoredIs(f, q, Piece(Place(k), Chunk(src, k)));
    NumberAtPlace(k);
    var f' := Stored(Plain, f, q);
    hide *;
    BehindStored(src, n, f, f', q);
    LogOfStored(src, n, f, f', q, k);
    PartsOfStored(src, n, f, f', k);
    InvFrom(src, n, f');
  }

  lemma InvIs(src: string, n: nat, f: Files)
    requires LoopInv(src, n, f)
    ensures 0 < n == |f.inbox| && (forall q :: 0 <= q < n ==> Behind(src, n, f, q)) && LogOk(src, n, Waiting(f))
    ensures f.file == Replay(Chunks(src), f.log) && f.received == Total(Chunks(src), f.log)
    ensures forall q :: 0 <= q < n ==> |f.inbox[q]| <= |StreamOf(src, n, q)|
  {
    hide LogOk, Replay, Total, StreamOf, Chunks;
    forall q | 0 <= q < n ensures |f.inbox[q]| <= |StreamOf(src, n, q)| {
      assert Behind(src, n, f, q);
    }
  }

  lemma InvFrom(src: string, n: nat, f: Files)
    requires 0 < n == |f.inbox| && (forall q :: 0 <= q < n ==> Behind(src, n, f, q)) && LogOk(src, n, Waiting(f))
    requires f.file == Replay(Chunks(src), f.log) && f.received == Total(Chunks(src), f.log)
    ensures LoopInv(src, n, f)
  {
    hide LogOk, Replay, Total, Behind, Chunks, Waiting;
  }

  lemma BehindStored(src: string, n: nat, f: Files, f': Files, q: nat)
    requires q < n == |f.inbox| && (forall r :: 0 <= r < n ==> Behind(src, n, f, r)) && f.inbox[q] != []
    requires f'.inbox == f.inbox[q := f.inbox[q][1..]]
    ensures |f'.inbox| == n && forall r :: 0 <= r < n ==> Behind(src, n, f', r)
  {
    hide StreamOf;
    forall r | 0 <= r < n ensures Behind(src, n, f', r) {
      assert Behind(src, n, f, r);
      if r == q {
        var got: nat := |StreamOf(src, n, q)| - |f.inbox[q]|;
        assert f'.inbox[q] == StreamOf(src, n, q)[got + 1..];
      }
    }
  }

  lemma LogOfStored(src: string, n: nat, f: Files, f': Files, q: nat, k: nat)
    requires 0 < n == |f.inbox| == |f'.inbox| && q < n && LogOk(src, n, Waiting(f)) && f.inbox[q] != []
    requires |f.inbox[q]| <= |StreamOf(src, n, q)|
    requires f'.inbox == f.inbox[q := f.inbox[q][1..]] && f'.log == f.log + [k]
    requires k == Idx(q, |StreamOf(src, n, q)| - |f.inbox[q]|, n) && k < ChunkCount(src)
    ensures LogOk(src, n, Waiting(f'))
  {
    var got: nat := |StreamOf(src, n, q)| - |f.inbox[q]|;
    IdxInverse(q, got, n);
    hide StreamOf, Idx, ChunkCount;
    assert Written(src, n, Waiting(f), q) == got;
    assert k !in f.log;
    forall r | 0 <= r < n && r != q
      ensures Written(src, n, Waiting(f'), r) == Written(src, n, Waiting(f), r)
    {
    }
    hide LogOk, Written;
    LogGrows(src, n, Waiting(f), Waiting(f'), q);
  }

  lemma PartsOfStored(src: string, n: nat, f: Files, f': Files, k: nat)
    requires f.file == Replay(Chunks(src), f.log) && f.received == Total(Chunks(src), f.log) && k < ChunkCount(src)
    requires f'.log == f.log + [k] && f'.file == PosWrite(f.file, Place(k), Chunk(src, k) + [NUL])
    requires f'.received == f.received + |Chunk(src, k)|
    ensures f'.file == Replay(Chunks(src), f'.log) && f'.received == Total(Chunks(src), f'.log)
  {
    AppendParts(Chunks(src), f.log, k);
    assert Part(Chunks(src), k) == Chunk(src, k);
    hide Replay, Total, PosWrite, Chunk, ChunkCount, Chunks, Part, Place;
  }

  lemma {:induction false} RoundKeeps(src: string, n: nat, f: Files, ready: seq<bool>, q: nat)
    requires Clean(src) && LoopInv(src, n, f) && |ready| == n && q <= n
    ensures |f.inbox| == n && LoopInv(src, n, Round(f, ready, q).0)
    decreases n - q
  {
    InvSize(src, n, f);
    hide LoopInv, Stored;
    if q < n {
      if ready[q] && f.inbox[q] != [] {
        StoreKeeps(src, n, f, q);
        StoredSize(f, q);
        RoundKeeps(src, n, Stored(Plain, f, q), ready, q + 1);
      } else if !ready[q] {
        RoundKeeps(src, n, f, ready, q + 1);
      }
    }
  }

  lemma InvSize(src: string, n: nat, f: Files)
    requires LoopInv(src, n, f)
    ensures 0 < n == |f.inbox|
  {
  }

  ghost predicate AllReady(n: nat, ready: seq<seq<bool>>) {
    forall r :: 0 <= r < |ready| ==> |ready[r]| == n
  }

  lemma {:induction false} RoundsKeep(src: string, n: nat, f: Files, ready: seq<seq<bool>>)
    requires Clean(src) && LoopInv(src, n, f) && AllReady(n, ready)
    ensures |f.inbox| == n && LoopInv(src, n, Rounds(f, ready).0)
    decreases |ready|
  {
    InvSize(src, n, f);
    hide LoopInv, Round;
    if ready != [] {
      RoundKeeps(src, n, f, ready[0], 0);
      RoundSize(f, ready[0], 0);
      if !Round(f, ready[0], 0).1 {
        RoundsKeep(src, n, Round(f, ready[0], 0).0, ready[1..]);
      }
    }
  }

  /** The files after a run of the loop on the sender's output. */
  function Result(src: string, n: nat, ready: seq<seq<bool>>): Files
    requires AllReady(n, ready)
  {
    assert |Begin(src, n).inbox| == n;
    Rounds(Begin(src, n), ready).0
  }

  lemma ResultInv(src: string, n: nat, ready: seq<seq<bool>>)
    requires Clean(src) && 0 < n && AllReady(n, ready)
    ensures LoopInv(src, n, Result(src, n, ready))
  {
    BeginInv(src, n);
    RoundsKeep(src, n, Begin(src, n), ready);
    hide LoopInv, Rounds, Begin;
  }

  /** No frame is left unread. */
  ghost predicate AllRead(f: Files) {
    forall q :: 0 <= q < |f.inbox| ==> f.inbox[q] == []
  }

  // ---------------------------------------------------------------------------------------------
  // The file and the counter
  // ---------------------------------------------------------------------------------------------

  /** In every state the loop comes to, the file is what the chunks written so far, in the order of their writes, make of
      it: the source's byte where it is intact, and NUL elsewhere. */
  lemma FileSoFar(src: string, n: nat, f: Files)
    requires LoopInv(src, n, f)
    ensures Distinct(f.log) && InOrder(f.log, n) && forall k :: k in f.log ==> k < ChunkCount(src)
    ensures |f.file| <= |src| + 1
    ensures forall p :: 0 <= p < |f.file| ==> f.file[p] == if Intact(src, f.log, p) then src[p] else NUL
  {
    assert Distinct(f.log) && InOrder(f.log, n) && forall k :: k in f.log ==> k < ChunkCount(src);
    hide Intact, Replay, Chunks, ChunkCount, Distinct, InOrder;
    FileAfter(src, f.log);
  }

  /** The bytes of the first m chunks. */
  function UpTo(src: string, m: nat): nat {
    if Place(m) <= |src| then Place(m) else |src|
  }

  lemma UpToStep(src: string, m: nat)
    requires 0 < m <= ChunkCount(src)
    ensures UpTo(src, m) == UpTo(src, m - 1) + |Part(Chunks(src), m - 1)| && |Part(Chunks(src), m - 1)| > 0
  {
    ChunkAt(src, m - 1);
    hide Chunk;
  }

  /** Listing every chunk gives the file length; missing one gives less. */
  lemma {:induction false} ListedBound(src: string, log: seq<nat>, m: nat)
    requires m <= ChunkCount(src)
    ensures Listed(Chunks(src), log, m) <= UpTo(src, m)
    ensures Listed(Chunks(src), log, m) == UpTo(src, m) <==> forall k: nat :: k < m ==> k in log
  {
    ListedStep(Chunks(src), log, m);
    if m == 0 {
      assert UpTo(src, 0) == 0;
    } else {
      UpToStep(src, m);
      ListedBound(src, log, m - 1);
      hide *;
      assert (forall k: nat :: k < m ==> k in log) <==> (forall k: nat :: k < m - 1 ==> k in log) && m - 1 in log;
    }
  }

  lemma ListedStep(w: seq<string>, log: seq<nat>, m: nat)
    ensures Listed(w, log, 0) == 0
    ensures m > 0 && m - 1 in log ==> Listed(w, log, m) == Listed(w, log, m - 1) + |Part(w, m - 1)|
    ensures m > 0 && m - 1 !in log ==> Listed(w, log, m) == Listed(w, log, m - 1)
  {
    hide Part;
  }

  lemma UpToAll(src: string)
    ensures UpTo(src, ChunkCount(src)) == |src|
  {
  }

  /** The counter never exceeds the file length, and reaches it exactly when every chunk has been written. */
  lemma CompletionIff(src: string, n: nat, f: Files)
    requires LoopInv(src, n, f)
    ensures f.received <= |src|
    ensures f.received == |src| <==> forall k: nat :: k < ChunkCount(src) ==> k in f.log
  {
    assert Distinct(f.log) && forall k :: k in f.log ==> k < ChunkCount(src);
    TotalListed(Chunks(src), f.log, ChunkCount(src));
    ListedBound(src, f.log, ChunkCount(src));
    UpToAll(src);
    hide Total, Listed, Chunks, LogOk, UpTo;
  }

  /** When no frame is left unread, every chunk has been written. */
  lemma AllReadComplete(src: string, n: nat, f: Files)
    requires LoopInv(src, n, f) && AllRead(f)
    ensures forall k: nat :: k in f.log <==> k < ChunkCount(src)
    ensures Distinct(f.log) && f.received == |src|
  {
    hide Idx, StreamOf, Share, Total, Replay, Chunks, Distinct, InOrder;
    forall k: nat | k < ChunkCount(src) ensures k in f.log {
      IdxOfQuotient(k, n);
      ShareBound(ChunkCount(src), n, k % n, k / n);
      StreamLength(src, n, k % n);
      assert f.inbox[k % n] == [];
      assert Written(src, n, Waiting(f), k % n) == |StreamOf(src, n, k % n)|;
      assert Idx(k % n, k / n, n) in f.log;
    }
    CompletionIff(src, n, f);
  }

  /** Exact reassembly by the loop, whatever select reports, if it leaves no frame unread: the file is the source and one
      NUL, except that the first byte of a chunk is NUL exactly when the chunk in front of it was written later. */
  lemma ExactReassembly(src: string, n: nat, ready: seq<seq<bool>>)
    requires Clean(src) && src != "" && 0 < n && AllReady(n, ready) && AllRead(Result(src, n, ready))
    ensures var f := Result(src, n, ready);
            && |f.file| == |src| + 1 && f.file[|src|] == NUL
            && (forall p :: 0 <= p < |src| ==>
                  f.file[p] == if p % CHUNK == 0 && Overtaken(f.log, p / CHUNK) then NUL else src[p])
            && (f.file == src + [NUL] <==> forall k :: !Overtaken(f.log, k))
  {
    ResultInv(src, n, ready);
    var f := Result(src, n, ready);
    AllReadComplete(src, n, f);
    hide Replay, Chunks, ChunkCount, Overtaken, LogOk, Total, AllRead, Result, Rounds;
    FinalFile(src, f.log);
    FaithfulIff(src, f.log);
  }

  // ---------------------------------------------------------------------------------------------
  // When it is faithful
  // ---------------------------------------------------------------------------------------------

  /** One connection is ready. */
  function Only(n: nat, q: nat): seq<bool> {
    seq(n, r => r == q)
  }

  lemma {:induction false} NobodyReady(f: Files, n: nat, q: nat, from: nat)
    requires |f.inbox| == n && q < from <= n
    ensures Round(f, Only(n, q), from) == (f, false)
    decreases n - from
  {
    if from < n { NobodyReady(f, n, q, from + 1); }
  }

  /** A round in which one connection is ready. */
  lemma {:induction false} OnlyReady(f: Files, n: nat, q: nat, from: nat)
    requires |f.inbox| == n && from <= q < n && f.inbox[q] != []
    ensures Round(f, Only(n, q), from) == (Stored(Plain, f, q), false)
    decreases q - from
  {
    StoredSize(f, q);
    hide Stored;
    if from < q {
      OnlyReady(f, n, q, from + 1);
    } else {
      NobodyReady(Stored(Plain, f, q), n, q, q + 1);
    }
  }

  function Left(f: Files, m: nat): nat
    requires m <= |f.inbox|
  {
    if m == 0 then 0 else Left(f, m - 1) + |f.inbox[m - 1]|
  }

  lemma {:induction false} OneLess(f: Files, f': Files, q: nat, m: nat)
    requires q < |f.inbox| == |f'.inbox| && m <= |f.inbox| && f.inbox[q] != []
    requires f'.inbox == f.inbox[q := f.inbox[q][1..]]
    ensures Left(f', m) == Left(f, m) - if q < m then 1 else 0
  {
    if m > 0 { OneLess(f, f', q, m - 1); }
  }

  /** One frame is read. */
  lemma ReadOne(src: string, n: nat, f: Files, q: nat) returns (f': Files)
    requires Clean(src) && LoopInv(src, n, f) && q < n == |f.inbox| && f.inbox[q] != []
    ensures |Only(n, q)| == n && Round(f, Only(n, q), 0) == (f', false)
    ensures LoopInv(src, n, f') && |f'.inbox| == n && Left(f', n) == Left(f, n) - 1
    ensures |f.inbox[q]| <= |StreamOf(src, n, q)| && f'.log == f.log + [Idx(q, |StreamOf(src, n, q)| - |f.inbox[q]|, n)]
  {
    assert Behind(src, n, f, q);
    NextRead(src, n, f, q);
    StoredIs(f, q, Read(Plain, f.inbox[q][0]).value);
    f' := Stored(Plain, f, q);
    StoreKeeps(src, n, f, q);
    NumberAtPlace(Idx(q, |StreamOf(src, n, q)| - |f.inbox[q]|, n));
    hide LoopInv, Stored, Read, Parse, Behind, PosWrite, Left, Round, StreamOf, Idx, NumberAt, Place;
    OneLess(f, f', q, n);
    OnlyReady(f, n, q, 0);
  }

  lemma RoundsCons(f: Files, first: seq<bool>, rest: seq<seq<bool>>, f': Files)
    requires |first| == |f.inbox| == |f'.inbox| && AllReady(|f.inbox|, rest) && Round(f, first, 0) == (f', false)
    ensures AllReady(|f.inbox|, [first] + rest) && Rounds(f, [first] + rest) == Rounds(f', rest)
  {
    hide Round;
    assert ([first] + rest)[0] == first && ([first] + rest)[1..] == rest;
  }

  /** The rest can always be read, one frame in a round. */
  lemma {:induction false} ReadRest(src: string, n: nat, f: Files) returns (ready: seq<seq<bool>>)
    requires Clean(src) && LoopInv(src, n, f) && |f.inbox| == n
    ensures AllReady(n, ready) && AllRead(Rounds(f, ready).0) && f.log <= Rounds(f, ready).0.log
    decreases Left(f, |f.inbox|)
  {
    if AllRead(f) {
      ready := [];
    } else {
      var q: nat :| q < |f.inbox| && f.inbox[q] != [];
      hide *;
      var f' := ReadOne(src, n, f, q);
      var rest := ReadRest(src, n, f');
      RoundsCons(f, Only(n, q), rest, f');
      ready := [Only(n, q)] + rest;
    }
  }

  lemma BeginFirst(src: string, n: nat)
    requires 1 < n && 1 < ChunkCount(src)
    ensures var f := Begin(src, n);
            |f.inbox| == n && f.inbox[1] == StreamOf(src, n, 1) && f.inbox[1] != [] && f.log == []
    ensures Idx(1, 0, n) == 1
  {
    StreamLength(src, n, 1);
    ShareBound(ChunkCount(src), n, 1, 0);
    hide StreamOf, ChunkCount;
  }

  /** Over several connections chunk 1 can be read first. */
  lemma UnfaithfulReadiness(src: string, n: nat) returns (ready: seq<seq<bool>>)
    requires Clean(src) && 1 < n && 1 < ChunkCount(src)
    ensures AllReady(n, ready) && AllRead(Result(src, n, ready)) && Result(src, n, ready).file != src + [NUL]
  {
    BeginFirst(src, n);
    BeginInv(src, n);
    assert src != "";
    assert [] + [1] == [1];
    var f := Begin(src, n);
    hide LoopInv, AllRead, Round, Rounds, ChunkCount, Begin, StreamOf, Chunk, Overtaken, Idx, Left, Only;
    var f' := ReadOne(src, n, f, 1);
    var rest := ReadRest(src, n, f');
    RoundsCons(f, Only(n, 1), rest, f');
    ready := [Only(n, 1)] + rest;
    assert Result(src, n, ready) == Rounds(f', rest).0;
    ResultInv(src, n, ready);
    AllReadComplete(src, n, Result(src, n, ready));
    ZeroOvertaken(Result(src, n, ready).log);
    ExactReassembly(src, n, ready);
  }

  lemma ZeroOvertaken(log: seq<nat>)
    requires [1] <= log && 0 in log
    ensures Overtaken(log, 1)
  {
    var j :| 0 <= j < |log| && log[j] == 0;
    assert log[0] == [1][0];
    assert 0 <= 0 < j < |log| && log[0] == 1 && log[j] == 1 - 1;
  }

  lemma OneChunkOrder(log: seq<nat>)
    requires forall k :: k in log ==> k < 1
    ensures forall k :: !Overtaken(log, k)
  {
    forall i | 0 <= i < |log| ensures log[i] == 0 {
      assert log[i] in log;
    }
  }

  lemma OneConnectionOrder(log: seq<nat>)
    requires InOrder(log, 1)
    ensures forall k :: !Overtaken(log, k)
  {
    forall i, j | 0 <= i < j < |log| ensures log[i] < log[j] {
      assert log[i] % 1 == log[j] % 1;
    }
  }

  /** Every readiness that leaves no frame unread gives the source and a NUL exactly when there is one connection or one
      chunk. */
  lemma AlwaysFaithfulIff(src: string, n: nat)
    requires Clean(src) && src != "" && 0 < n
    ensures (forall ready :: AllReady(n, ready) && AllRead(Result(src, n, ready)) ==>
               Result(src, n, ready).file == src + [NUL])
            <==> n == 1 || ChunkCount(src) == 1
  {
    assert ChunkCount(src) >= 1;
    hide AllRead, AllReady, Overtaken, ChunkCount, Result, Rounds, LoopInv;
    if n == 1 || ChunkCount(src) == 1 {
      forall ready | AllReady(n, ready) && AllRead(Result(src, n, ready))
        ensures Result(src, n, ready).file == src + [NUL]
      {
        var f := Result(src, n, ready);
        ResultInv(src, n, ready);
        AllReadComplete(src, n, f);
        FileSoFar(src, n, f);
        ExactReassembly(src, n, ready);
        if n == 1 { OneConnectionOrder(f.log); } else { OneChunkOrder(f.log); }
      }
    } else {
      var ready := UnfaithfulReadiness(src, n);
    }
  }
}
