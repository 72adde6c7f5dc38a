/** What the select loop of Assignment-2/nonblockingconnect.c reads before it finds a connection closed, and that it reads
    nothing afterwards. */
module LoopRounds {
  import opened Options
  import opened CStrings
  import opened ChunkFrame
  import opened Overlap
  import opened Reassembly
  import opened Sender
  import opened TidyRuns
  import opened Download
  import opened SelectLoop

  // ---------------------------------------------------------------------------------------------
  // One round
  // ---------------------------------------------------------------------------------------------

  /** Connection m is the first one from q on that is ready and has nothing left; if there is none, m is their number. */
  ghost predicate ClosedAt(f: Files, ready: seq<bool>, q: nat, m: nat)
    requires |ready| == |f.inbox|
  {
    && q <= m <= |ready| && (forall r :: q <= r < m && ready[r] ==> f.inbox[r] != [])
    && (m < |ready| ==> ready[m] && f.inbox[m] == [])
  }

  /** What is read of the first frames of the ready connections from q on, up to m. */
  function Pieces(f: Files, ready: seq<bool>, q: nat, m: nat): seq<Piece>
    requires q <= m <= |ready| == |f.inbox|
    decreases m - q
  {
    if q == m then [] else PieceOf(f, ready, q) + Pieces(f, ready, q + 1, m)
  }

  function PieceOf(f: Files, ready: seq<bool>, q: nat): seq<Piece>
    requires q < |ready| == |f.inbox|
  {
    if !ready[q] || f.inbox[q] == [] then []
    else match Read(Plain, f.inbox[q][0]) case None => [] case Some(p) => [p]
  }

  function AllWritten(file: string, pieces: seq<Piece>): string
    decreases |pieces|
  {
    if pieces == [] then file
    else AllWritten(PosWrite(file, pieces[0].pos, pieces[0].text + [NUL]), pieces[1..])
  }

  function Lengths(pieces: seq<Piece>): nat {
    if pieces == [] then 0 else |pieces[0].text| + Lengths(pieces[1..])
  }

  function Numbers(pieces: seq<Piece>): seq<nat> {
    seq(|pieces|, j requires 0 <= j < |pieces| => NumberAt(pieces[j].pos))
  }

  /** The inboxes and what has been read of them. */
  ghost predicate InboxesRead(f: Files, f': Files, ready: seq<bool>, q: nat, m: nat)
    requires |ready| == |f.inbox|
  {
    && |f'.inbox| == |f.inbox|
    && forall r :: 0 <= r < |ready| ==>
         f'.inbox[r] == if q <= r < m && ready[r] && f.inbox[r] != [] then f.inbox[r][1..] else f.inbox[r]
  }

  /** The frames of the ready connections from q up to m have been read, and nothing else. */
  ghost predicate ReadUpTo(f: Files, f': Files, ready: seq<bool>, q: nat, m: nat)
    requires q <= m <= |ready| == |f.inbox|
  {
    && InboxesRead(f, f', ready, q, m)
    && var pieces := Pieces(f, ready, q, m);
       && f'.log == f.log + Numbers(pieces) && f'.received == f.received + Lengths(pieces)
       && f'.file == AllWritten(f.file, pieces)
  }

  lemma ReadableIs(f: Files, q: nat)
    requires Readable(f) && q < |f.inbox| && f.inbox[q] != []
    ensures Read(Plain, f.inbox[q][0]).Some?
  {
    FirstReadable(f, q);
    hide Parse, Kept, SecondStart;
  }

  lemma ReadNothing(f: Files, ready: seq<bool>, m: nat)
    requires m <= |ready| == |f.inbox|
    ensures ReadUpTo(f, f, ready, m, m)
  {
  }

  lemma ReadNotReady(f: Files, f': Files, ready: seq<bool>, q: nat, m: nat)
    requires q < m <= |ready| == |f.inbox| && !ready[q] && ReadUpTo(f, f', ready, q + 1, m)
    ensures ReadUpTo(f, f', ready, q, m)
  {
    assert PieceOf(f, ready, q) == [];
    assert Pieces(f, ready, q, m) == Pieces(f, ready, q + 1, m);
    hide Pieces, Numbers, Lengths, AllWritten;
    forall r | 0 <= r < |ready|
      ensures f'.inbox[r] == if q <= r < m && ready[r] && f.inbox[r] != [] then f.inbox[r][1..] else f.inbox[r]
    {
    }
  }

  lemma PiecesElsewhere(f: Files, g: Files, ready: seq<bool>, q: nat, m: nat)
    requires q <= m <= |ready| == |f.inbox| == |g.inbox| && forall r :: q <= r < m ==> g.inbox[r] == f.inbox[r]
    ensures Pieces(f, ready, q, m) == Pieces(g, ready, q, m)
    decreases m - q
  {
    if q < m {
      PiecesElsewhere(f, g, ready, q + 1, m);
      assert PieceOf(f, ready, q) == PieceOf(g, ready, q);
      hide PieceOf;
    }
  }

  lemma FoldFront(p: Piece, rest: seq<Piece>, file: string)
    ensures AllWritten(file, [p] + rest) == AllWritten(PosWrite(file, p.pos, p.text + [NUL]), rest)
    ensures Lengths([p] + rest) == |p.text| + Lengths(rest)
    ensures Numbers([p] + rest) == [NumberAt(p.pos)] + Numbers(rest)
  {
    hide PosWrite, NumberAt;
    assert ([p] + rest)[1..] == rest;
  }

  lemma InboxOneMore(f: Files, g: Files, f': Files, ready: seq<bool>, q: nat, m: nat)
    requires q < m <= |ready| == |f.inbox| && ready[q] && f.inbox[q] != []
    requires g.inbox == f.inbox[q := f.inbox[q][1..]] && InboxesRead(g, f', ready, q + 1, m)
    ensures InboxesRead(f, f', ready, q, m)
  {
  }

  lemma PiecesFront(f: Files, g: Files, ready: seq<bool>, q: nat, m: nat, p: Piece)
    requires q < m <= |ready| == |f.inbox| && ready[q] && f.inbox[q] != [] && Read(Plain, f.inbox[q][0]) == Some(p)
    requires |g.inbox| == |f.inbox| && forall r :: q < r < m ==> g.inbox[r] == f.inbox[r]
    ensures Pieces(f, ready, q, m) == [p] + Pieces(g, ready, q + 1, m)
  {
    hide *;
    PieceIs(f, ready, q, p);
    PiecesUnfold(f, ready, q, m);
    PiecesElsewhere(f, g, ready, q + 1, m);
  }

  lemma PieceIs(f: Files, ready: seq<bool>, q: nat, p: Piece)
    requires q < |ready| == |f.inbox| && ready[q] && f.inbox[q] != [] && Read(Plain, f.inbox[q][0]) == Some(p)
    ensures PieceOf(f, ready, q) == [p]
  {
    hide Read;
  }

  lemma PiecesUnfold(f: Files, ready: seq<bool>, q: nat, m: nat)
    requires q < m <= |ready| == |f.inbox|
    ensures Pieces(f, ready, q, m) == PieceOf(f, ready, q) + Pieces(f, ready, q + 1, m)
  {
    hide PieceOf;
  }

  lemma ReadOneMore(f: Files, g: Files, f': Files, ready: seq<bool>, q: nat, m: nat, p: Piece)
    requires q < m <= |ready| == |f.inbox| && ready[q] && f.inbox[q] != [] && Read(Plain, f.inbox[q][0]) == Some(p)
    requires g.inbox == f.inbox[q := f.inbox[q][1..]] && g.file == PosWrite(f.file, p.pos, p.text + [NUL])
    requires g.received == f.received + |p.text| && g.log == f.log + [NumberAt(p.pos)]
    requires ReadUpTo(g, f', ready, q + 1, m)
    ensures ReadUpTo(f, f', ready, q, m)
  {
    PiecesFront(f, g, ready, q, m, p);
    InboxOneMore(f, g, f', ready, q, m);
    var rest := Pieces(g, ready, q + 1, m);
    assert f'.log == g.log + Numbers(rest) && f'.received == g.received + Lengths(rest)
           && f'.file == AllWritten(g.file, rest);
    hide *;
    FoldFront(p, rest, f.file);
    LogFront(f.log, NumberAt(p.pos), Numbers(rest));
    ReadAll(f, f', ready, q, m, [p] + rest);
  }

  lemma LogFront(log: seq<nat>, k: nat, rest: seq<nat>)
    ensures log + [k] + rest == log + ([k] + rest)
  {
  }

  lemma ReadAll(f: Files, f': Files, ready: seq<bool>, q: nat, m: nat, pieces: seq<Piece>)
    requires q <= m <= |ready| == |f.inbox| && InboxesRead(f, f', ready, q, m) && pieces == Pieces(f, ready, q, m)
    requires f'.log == f.log + Numbers(pieces) && f'.received == f.received + Lengths(pieces)
    requires f'.file == AllWritten(f.file, pieces)
    ensures ReadUpTo(f, f', ready, q, m)
  {
  }

  lemma {:induction false} RoundReads(f: Files, ready: seq<bool>, q: nat, m: nat)
    requires |ready| == |f.inbox| && Readable(f) && ClosedAt(f, ready, q, m)
    ensures Round(f, ready, q).1 <==> m < |ready|
    ensures ReadUpTo(f, Round(f, ready, q).0, ready, q, m)
    decreases m - q
  {
    hide ReadUpTo, Readable, Stored;
    if q == m {
      ReadNothing(f, ready, m);
    } else if !ready[q] {
      RoundReads(f, ready, q + 1, m);
      ReadNotReady(f, Round(f, ready, q + 1).0, ready, q, m);
    } else {
      ReadableIs(f, q);
      var p := Read(Plain, f.inbox[q][0]).value;
      StoredIs(f, q, p);
      StoredReadable(Plain, f, q);
      var g := Stored(Plain, f, q);
      hide Read;
      assert g.inbox == f.inbox[q := f.inbox[q][1..]];
      RoundReads(g, ready, q + 1, m);
      ReadOneMore(f, g, Round(g, ready, q + 1).0, ready, q, m, p);
    }
  }

  lemma {:induction false} FirstClosed(f: Files, ready: seq<bool>, from: nat) returns (m: nat)
    requires |ready| == |f.inbox| && from <= |ready|
    requires forall q :: 0 <= q < from && ready[q] ==> f.inbox[q] != []
    ensures ClosedAt(f, ready, 0, m)
    decreases |ready| - from
  {
    if from == |ready| || (ready[from] && f.inbox[from] == []) {
      m := from;
    } else {
      m := FirstClosed(f, ready, from + 1);
    }
  }

  /** A round reports a closed connection exactly if some connection is ready and has nothing left. Up to the first such
      one a frame of every ready connection is read, written and counted, in order, and from there on nothing. */
  lemma RoundIs(f: Files, ready: seq<bool>)
    requires |ready| == |f.inbox| && Readable(f)
    ensures Round(f, ready, 0).1 <==> exists q :: 0 <= q < |ready| && ready[q] && f.inbox[q] == []
    ensures forall m: nat :: ClosedAt(f, ready, 0, m) ==> ReadUpTo(f, Round(f, ready, 0).0, ready, 0, m)
  {
    var m := FirstClosed(f, ready, 0);
    RoundReads(f, ready, 0, m);
    forall k: nat | ClosedAt(f, ready, 0, k) ensures ReadUpTo(f, Round(f, ready, 0).0, ready, 0, k) {
      RoundReads(f, ready, 0, k);
    }
  }

  // ---------------------------------------------------------------------------------------------
  // All rounds
  // ---------------------------------------------------------------------------------------------

  /** What select reports, round by round, for the connections of f. */
  ghost predicate Fits(f: Files, ready: seq<seq<bool>>) {
    forall i :: 0 <= i < |ready| ==> |ready[i]| == |f.inbox|
  }

  /** In how many of the first i rounds connection q is ready. */
  function Asked(ready: seq<seq<bool>>, q: nat, i: nat): nat
    requires i <= |ready|
  {
    if i == 0 then 0 else Asked(ready, q, i - 1) + IsReady(ready[i - 1], q)
  }

  function IsReady(round: seq<bool>, q: nat): nat {
    if q < |round| && round[q] then 1 else 0
  }

  /** In round i connection q is ready, and the rounds before have read all it had. */
  ghost predicate Drained(f: Files, ready: seq<seq<bool>>, i: nat, q: nat) {
    i < |ready| && q < |ready[i]| && q < |f.inbox| && ready[i][q] && Asked(ready, q, i) >= |f.inbox[q]|
  }

  /** Connection q in round i is the first one like that; or there is none, and i is the number of rounds. */
  ghost predicate StopsAt(f: Files, ready: seq<seq<bool>>, i: nat, q: nat) {
    && i <= |ready|
    && (forall j: nat, r: nat :: j < i ==> !Drained(f, ready, j, r))
    && (if i < |ready| then Drained(f, ready, i, q) && forall r: nat :: r < q ==> !Drained(f, ready, i, r) else q == 0)
  }

  /** How often connection r is read before that. */
  function Reads(ready: seq<seq<bool>>, i: nat, q: nat, r: nat): nat
    requires i <= |ready|
  {
    Asked(ready, r, i) + if i < |ready| && r < q then IsReady(ready[i], r) else 0
  }

  lemma {:induction false} AskedFront(ready: seq<seq<bool>>, q: nat, i: nat)
    requires 0 < i <= |ready|
    ensures Asked(ready, q, i) == IsReady(ready[0], q) + Asked(ready[1..], q, i - 1)
  {
    hide IsReady;
    if i > 1 {
      AskedFront(ready, q, i - 1);
    }
  }

  /** One frame less in the front of each connection that is ready. */
  ghost predicate RoundRead(f: Files, g: Files, round: seq<bool>) {
    && |g.inbox| == |f.inbox| == |round|
    && forall r :: 0 <= r < |round| ==>
         g.inbox[r] == (if round[r] && f.inbox[r] != [] then f.inbox[r][1..] else f.inbox[r])
  }

  lemma DrainedFront(f: Files, g: Files, ready: seq<seq<bool>>, i: nat, q: nat)
    requires ready != [] && Fits(f, ready) && RoundRead(f, g, ready[0])
    requires forall r: nat :: !Drained(f, ready, 0, r)
    ensures Drained(f, ready, i + 1, q) <==> Drained(g, ready[1..], i, q)
  {
    if i + 1 < |ready| {
      AskedFront(ready, q, i + 1);
      assert ready[1..][i] == ready[i + 1];
      if q < |f.inbox| {
        assert !Drained(f, ready, 0, q);
        assert IsReady(ready[0], q) == 1 ==> f.inbox[q] != [];
      }
    }
  }

  lemma DrainedFirst(f: Files, ready: seq<seq<bool>>, q: nat)
    requires ready != [] && Fits(f, ready)
    ensures Drained(f, ready, 0, q) <==> q < |ready[0]| && ready[0][q] && f.inbox[q] == []
  {
    assert Asked(ready, q, 0) == 0;
  }

  lemma StopsFront(f: Files, g: Files, ready: seq<seq<bool>>, i: nat, q: nat)
    requires ready != [] && Fits(f, ready) && RoundRead(f, g, ready[0])
    requires 0 < i && StopsAt(f, ready, i, q)
    ensures StopsAt(g, ready[1..], i - 1, q)
  {
    var rest, k := ready[1..], i - 1;
    assert forall r: nat :: !Drained(f, ready, 0, r);
    forall j: nat, r: nat | j < k ensures !Drained(g, rest, j, r) {
      DrainedFront(f, g, ready, j, r);
      assert !Drained(f, ready, j + 1, r);
    }
    if i < |ready| {
      DrainedFront(f, g, ready, k, q);
      forall r: nat | r < q ensures !Drained(g, rest, k, r) {
        DrainedFront(f, g, ready, k, r);
      }
    }
    hide Drained;
  }

  lemma ReadsFront(ready: seq<seq<bool>>, i: nat, q: nat, r: nat)
    requires 0 < i <= |ready|
    ensures Reads(ready, i, q, r) == IsReady(ready[0], r) + Reads(ready[1..], i - 1, q, r)
  {
    hide IsReady;
    AskedFront(ready, r, i);
    assert i < |ready| ==> ready[1..][i - 1] == ready[i];
  }

  /** The inboxes are what the loop should have left. */
  ghost predicate LoopRead(f: Files, f': Files, ready: seq<seq<bool>>, i: nat, q: nat) {
    && i <= |ready| && |f'.inbox| == |f.inbox|
    && forall r :: 0 <= r < |f.inbox| ==>
         Reads(ready, i, q, r) <= |f.inbox[r]| && f'.inbox[r] == f.inbox[r][Reads(ready, i, q, r)..]
  }

  lemma FirstRoundStops(f: Files, f': Files, ready: seq<seq<bool>>, q: nat)
    requires ready != [] && Fits(f, ready) && StopsAt(f, ready, 0, q)
    requires ReadUpTo(f, f', ready[0], 0, q)
    ensures q < |ready[0]| && ClosedAt(f, ready[0], 0, q) && LoopRead(f, f', ready, 0, q)
  {
    DrainedFirst(f, ready, q);
    forall r: nat | r < q ensures !(r < |ready[0]| && ready[0][r] && f.inbox[r] == []) {
      DrainedFirst(f, ready, r);
    }
    forall r | 0 <= r < |f.inbox|
      ensures Reads(ready, 0, q, r) <= |f.inbox[r]| && f'.inbox[r] == f.inbox[r][Reads(ready, 0, q, r)..]
    {
      assert Reads(ready, 0, q, r) == if r < q then IsReady(ready[0], r) else 0;
      assert f.inbox[r][0..] == f.inbox[r];
    }
  }

  /** No connection is found closed in the first round. */
  lemma FirstRoundGoesOn(f: Files, g: Files, ready: seq<seq<bool>>, i: nat, q: nat)
    requires ready != [] && Fits(f, ready) && 0 < i && StopsAt(f, ready, i, q)
    ensures ClosedAt(f, ready[0], 0, |ready[0]|)
    ensures ReadUpTo(f, g, ready[0], 0, |ready[0]|) ==> RoundRead(f, g, ready[0])
  {
    forall r: nat | r < |ready[0]| && ready[0][r] ensures f.inbox[r] != [] {
      DrainedFirst(f, ready, r);
      assert !Drained(f, ready, 0, r);
    }
    hide Pieces, Numbers, Lengths, AllWritten;
  }

  lemma RoundReadable(f: Files, g: Files, round: seq<bool>)
    requires Readable(f) && RoundRead(f, g, round)
    ensures Readable(g)
  {
    hide Parse;
    forall q, j | 0 <= q < |g.inbox| && 0 <= j < |g.inbox[q]|
      ensures NUL !in g.inbox[q][j] && Parse(g.inbox[q][j]).Some?
    {
      if round[q] && f.inbox[q] != [] {
        assert g.inbox[q][j] == f.inbox[q][j + 1];
      } else {
        assert g.inbox[q][j] == f.inbox[q][j];
      }
    }
  }

  lemma LoopReadFront(f: Files, g: Files, f': Files, ready: seq<seq<bool>>, i: nat, q: nat)
    requires ready != [] && Fits(f, ready) && RoundRead(f, g, ready[0]) && 0 < i <= |ready|
    requires forall r: nat :: !Drained(f, ready, 0, r)
    requires LoopRead(g, f', ready[1..], i - 1, q)
    ensures LoopRead(f, f', ready, i, q)
  {
    var rest, k := ready[1..], i - 1;
    forall r | 0 <= r < |f.inbox|
      ensures Reads(ready, i, q, r) <= |f.inbox[r]| && f'.inbox[r] == f.inbox[r][Reads(ready, i, q, r)..]
    {
      ReadsFront(ready, i, q, r);
      assert !Drained(f, ready, 0, r);
      DrainedFirst(f, ready, r);
      var n := Reads(rest, k, q, r);
      assert n <= |g.inbox[r]| && f'.inbox[r] == g.inbox[r][n..];
      hide Reads, Drained;
      if ready[0][r] {
        assert f.inbox[r][1..][n..] == f.inbox[r][1 + n..];
      }
    }
  }

  lemma RoundsFront(f: Files, ready: seq<seq<bool>>)
    requires ready != [] && Fits(f, ready)
    ensures var next := Round(f, ready[0], 0);
            && (next.1 ==> Rounds(f, ready) == next)
            && (!next.1 && |next.0.inbox| == |f.inbox| ==>
                  Fits(next.0, ready[1..]) && Rounds(f, ready) == Rounds(next.0, ready[1..]))
  {
    hide Round;
  }

  lemma LoopStopsFirst(f: Files, ready: seq<seq<bool>>, q: nat)
    requires ready != [] && Readable(f) && Fits(f, ready) && StopsAt(f, ready, 0, q)
    ensures Rounds(f, ready).1 && LoopRead(f, Rounds(f, ready).0, ready, 0, q)
  {
    hide *;
    RoundsFront(f, ready);
    FirstRoundCloses(f, ready, q);
    RoundReads(f, ready[0], 0, q);
    FirstRoundStops(f, Round(f, ready[0], 0).0, ready, q);
  }

  lemma LoopGoesOn(f: Files, ready: seq<seq<bool>>, i: nat, q: nat) returns (g: Files)
    requires ready != [] && Readable(f) && Fits(f, ready) && 0 < i && StopsAt(f, ready, i, q)
    ensures Readable(g) && Fits(g, ready[1..]) && StopsAt(g, ready[1..], i - 1, q) && i <= |ready|
    ensures RoundRead(f, g, ready[0]) && Rounds(f, ready) == Rounds(g, ready[1..])
  {
    hide *;
    NotDrainedFirst(f, ready, i, q);
    RoundsFront(f, ready);
    g := Round(f, ready[0], 0).0;
    FirstRoundGoesOn(f, g, ready, i, q);
    RoundReads(f, ready[0], 0, |ready[0]|);
    RoundReadSize(f, g, ready[0]);
    RoundReadable(f, g, ready[0]);
    StopsFront(f, g, ready, i, q);
  }

  lemma NoRounds(f: Files, i: nat, q: nat)
    requires StopsAt(f, [], i, q)
    ensures i == 0 && Rounds(f, []) == (f, false) && LoopRead(f, f, [], 0, q)
  {
    assert forall r :: 0 <= r < |f.inbox| ==> f.inbox[r][0..] == f.inbox[r];
  }

  /** The whole loop, in terms of what select reports: it reports a closed connection exactly if, in some round, a
      connection is ready of which all frames have been read; up to the first such place every connection has been read
      once in every round in which it was ready, and from there on none. */
  lemma {:induction false} LoopIs(f: Files, ready: seq<seq<bool>>, i: nat, q: nat)
    requires Readable(f) && Fits(f, ready) && StopsAt(f, ready, i, q)
    ensures Rounds(f, ready).1 <==> i < |ready|
    ensures LoopRead(f, Rounds(f, ready).0, ready, i, q)
    decreases |ready|
  {
    hide StopsAt, LoopRead, Rounds, Round, Readable, RoundRead, Drained;
    if ready == [] {
      NoRounds(f, i, q);
    } else if i == 0 {
      LoopStopsFirst(f, ready, q);
    } else {
      var g := LoopGoesOn(f, ready, i, q);
      LoopIs(g, ready[1..], i - 1, q);
      NotDrainedFirst(f, ready, i, q);
      LoopReadFront(f, g, Rounds(f, ready).0, ready, i, q);
    }
  }

  lemma FirstRoundCloses(f: Files, ready: seq<seq<bool>>, q: nat)
    requires ready != [] && Fits(f, ready) && StopsAt(f, ready, 0, q)
    ensures q < |ready[0]| == |f.inbox| && ClosedAt(f, ready[0], 0, q)
  {
    DrainedFirst(f, ready, q);
    forall r: nat | r < q && ready[0][r] ensures f.inbox[r] != [] {
      DrainedFirst(f, ready, r);
    }
  }

  lemma NotDrainedFirst(f: Files, ready: seq<seq<bool>>, i: nat, q: nat)
    requires ready != [] && Fits(f, ready) && 0 < i && StopsAt(f, ready, i, q)
    ensures forall r: nat :: !Drained(f, ready, 0, r)
    ensures |ready[0]| == |f.inbox| && i <= |ready|
  {
  }

  lemma RoundReadSize(f: Files, g: Files, round: seq<bool>)
    requires RoundRead(f, g, round)
    ensures |g.inbox| == |f.inbox|
  {
  }

  /** There is such a place. */
  lemma {:induction false} SomeStop(f: Files, ready: seq<seq<bool>>, i: nat) returns (j: nat, q: nat)
    requires Fits(f, ready) && i <= |ready| && forall k: nat, r: nat :: k < i ==> !Drained(f, ready, k, r)
    ensures StopsAt(f, ready, j, q)
    decreases |ready| - i
  {
    if i == |ready| {
      j, q := i, 0;
    } else if r: nat :| Drained(f, ready, i, r) {
      j := i;
      q := LeastDrained(f, ready, i, 0, r);
    } else {
      j, q := SomeStop(f, ready, i + 1);
    }
  }

  lemma {:induction false} LeastDrained(f: Files, ready: seq<seq<bool>>, i: nat, from: nat, r: nat) returns (q: nat)
    requires Drained(f, ready, i, r) && from <= r && forall k: nat :: k < from ==> !Drained(f, ready, i, k)
    ensures Drained(f, ready, i, q) && forall k: nat :: k < q ==> !Drained(f, ready, i, k)
    decreases r - from
  {
    hide Drained;
    if Drained(f, ready, i, from) {
      q := from;
    } else {
      q := LeastDrained(f, ready, i, from + 1, r);
    }
  }

  /** The loop reports a closed connection exactly if in some round a connection is ready that has been read empty. */
  lemma ClosedIff(f: Files, ready: seq<seq<bool>>)
    requires Readable(f) && Fits(f, ready)
    ensures Rounds(f, ready).1 <==> exists i: nat, q: nat :: Drained(f, ready, i, q)
  {
    var i, q := SomeStop(f, ready, 0);
    LoopIs(f, ready, i, q);
    assert forall j: nat, r: nat :: Drained(f, ready, j, r) ==> j < |ready|;
    hide Drained, Rounds, LoopRead;
  }

  // ---------------------------------------------------------------------------------------------
  // On the sender's frames
  // ---------------------------------------------------------------------------------------------

  /** Which chunks are in the file: those whose connection was ready often enough before the loop stopped. */
  lemma WhatIsWritten(src: string, n: nat, ready: seq<seq<bool>>, i: nat, q: nat)
    requires Clean(src) && 0 < n && AllReady(n, ready) && StopsAt(Begin(src, n), ready, i, q)
    ensures forall k: nat :: k in Result(src, n, ready).log
                             <==> k < ChunkCount(src) && k / n < Reads(ready, i, q, k % n)
  {
    BeginReadable(src, n);
    ResultInv(src, n, ready);
    LoopIs(Begin(src, n), ready, i, q);
    var f := Result(src, n, ready);
    forall k: nat ensures k in f.log <==> k < ChunkCount(src) && k / n < Reads(ready, i, q, k % n) {
      LogIs(src, n, f, ready, i, q, k);
    }
  }

  lemma BeginReadable(src: string, n: nat)
    requires Clean(src) && 0 < n
    ensures Readable(Begin(src, n))
  {
    var f := Begin(src, n);
    hide StreamOf, Parse, FrameOf, Chunk, ChunkCount;
    forall r, j | 0 <= r < n && 0 <= j < |f.inbox[r]|
      ensures NUL !in f.inbox[r][j] && Parse(f.inbox[r][j]).Some?
    {
      StreamReadable(src, n, r, j);
    }
  }

  lemma StreamReadable(src: string, n: nat, q: nat, j: nat)
    requires Clean(src) && q < n && j < |StreamOf(src, n, q)|
    ensures NUL !in StreamOf(src, n, q)[j] && Parse(StreamOf(src, n, q)[j]).Some?
  {
    var k := Idx(q, j, n);
    ShareBound(ChunkCount(src), n, q, j);
    StreamLength(src, n, q);
    StreamAt(src, n, q, j);
    FrameHasNoNul(src, k);
    ChunkIsClean(src, k);
    ReadOfFrame(Plain, Place(k), Chunk(src, k));
  }

  lemma LogIs(src: string, n: nat, f: Files, ready: seq<seq<bool>>, i: nat, q: nat, k: nat)
    requires 0 < n && LoopInv(src, n, f) && LoopRead(Begin(src, n), f, ready, i, q)
    ensures k in f.log <==> k < ChunkCount(src) && k / n < Reads(ready, i, q, k % n)
  {
    InvLog(src, n, f);
    IdxOfQuotient(k, n);
    hide *;
    LogHas(src, n, f, k);
    WrittenIs(src, n, f, ready, i, q, k % n);
  }

  lemma InvLog(src: string, n: nat, f: Files)
    requires LoopInv(src, n, f)
    ensures 0 < n == |f.inbox| == |Waiting(f).inbox| == |Waiting(f).threads| && LogOk(src, n, Waiting(f))
    ensures Waiting(f).log == f.log
  {
    hide LogOk;
  }

  lemma LogHas(src: string, n: nat, f: Files, k: nat)
    requires 0 < n == |f.inbox| == |Waiting(f).inbox| == |Waiting(f).threads| && LogOk(src, n, Waiting(f)) && k % n < n
    requires Waiting(f).log == f.log
    ensures k in f.log <==> k < ChunkCount(src) && k / n < Written(src, n, Waiting(f), k % n)
  {
    IdxOfQuotient(k, n);
    var st, r, j := Waiting(f), k % n, k / n;
    hide Waiting, Written, ChunkCount, Distinct, InOrder;
    assert j < Written(src, n, st, r) ==> Idx(r, j, n) in st.log;
    hide Idx;
  }

  lemma WrittenIs(src: string, n: nat, f: Files, ready: seq<seq<bool>>, i: nat, q: nat, r: nat)
    requires r < n == |f.inbox| == |Waiting(f).inbox| == |Waiting(f).threads| && LoopRead(Begin(src, n), f, ready, i, q)
    ensures i <= |ready| && Written(src, n, Waiting(f), r) == Reads(ready, i, q, r)
  {
    hide StreamOf, Reads;
    assert Begin(src, n).inbox[r] == StreamOf(src, n, r);
  }
}
