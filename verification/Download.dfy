/** The receiving code as it runs without interruption: the loop body of getdata (Assignment-2/multiplethreads.c) and the
    select loop that does the same work in one thread (Assignment-2/nonblockingconnect.c). */
module Download {
  import opened Options
  import opened CStrings
  import opened Buffers
  import opened ChunkFrame
  import opened Overlap
  import opened Reassembly
  import opened Transfer
  import opened CursorRefill
  import opened RefilledRun

  /** What a receiver has to read, its file with the position in it, its counter, and the record of its writes. */
  datatype Files = Files(inbox: seq<seq<string>>, file: string, fpos: nat, received: nat, log: seq<nat>)

  /** Every frame can be taken apart. */
  ghost predicate Readable(f: Files) {
    forall q, j :: 0 <= q < |f.inbox| && 0 <= j < |f.inbox[q]| ==>
      NUL !in f.inbox[q][j] && Parse(f.inbox[q][j]).Some?
  }

  /** A frame of connection q has been received, written at its position with a NUL, and counted. */
  function Stored(v: Variant, f: Files, q: nat): Files
    requires q < |f.inbox| && f.inbox[q] != []
  {
    match Read(v, f.inbox[q][0])
    case None => f
    case Some(p) =>
      Files(f.inbox[q := f.inbox[q][1..]], PosWrite(f.file, p.pos, p.text + [NUL]), p.pos + |p.text| + 1,
            f.received + |p.text|, f.log + [NumberAt(p.pos)])
  }

  lemma StoredReadable(v: Variant, f: Files, q: nat)
    requires Readable(f) && q < |f.inbox| && f.inbox[q] != []
    ensures Readable(Stored(v, f, q)) && |Stored(v, f, q).inbox| == |f.inbox|
  {
    hide PosWrite, Kept, Parse;
  }

  // ---------------------------------------------------------------------------------------------
  // One connection at a time, in a thread
  // ---------------------------------------------------------------------------------------------

  function FilesOf(st: State): Files {
    Files(st.inbox, st.file, st.fpos, st.received, st.log)
  }

  lemma FirstCall(buf: string, s: string, d: string, rest: string) returns (c: Cut)
    requires Stands(buf, 0, s) && Token(s) == Some(d) && AfterToken(s) == rest
    ensures |rest| <= |s| && Tok(buf, 0) == Some(c) && c.next == |s| - |rest|
    ensures StringAt(c.buf, c.start) == d && Stands(c.buf, |s| - |rest|, rest)
  {
    hide *;
    TokIs(buf, 0, s, d, rest);
    TokText(buf, 0, s, d);
    TokRest(buf, 0, s, d, rest);
    StandsString(buf[Stop(0, s, d) := NUL], 0 + TokenStart(s), d);
    NextAtIs(s, rest);
    c := Cut(buf[Stop(0, s, d) := NUL], 0 + TokenStart(s), NextAt(0, s, rest));
  }

  lemma SecondCall(b: string, at: nat, rest: string, text: string) returns (e: Cut)
    requires Stands(b, at, rest) && Token(rest) == Some(text)
    ensures Tok(b, at) == Some(e) && e.start == at + TokenStart(rest) && Stands(e.buf, e.start, text)
  {
    hide *;
    TokIs(b, at, rest, text, AfterToken(rest));
    TokText(b, at, rest, text);
    e := Cut(b[Stop(at, rest, text) := NUL], at + TokenStart(rest), NextAt(at, rest, AfterToken(rest)));
  }

  /** What the two calls find in a frame. */
  lemma TwoCalls(buf: string, s: string, d: string, text: string) returns (c: Cut, e: Cut)
    requires Stands(buf, 0, s) && Token(s) == Some(d) && Token(AfterToken(s)) == Some(text)
    ensures Tok(buf, 0) == Some(c) && StringAt(c.buf, c.start) == d
    ensures Tok(c.buf, c.next) == Some(e) && e.start == SecondStart(s) && Stands(e.buf, e.start, text)
  {
    hide *;
    SecondTokenStart(s);
    var rest := AfterToken(s);
    c := FirstCall(buf, s, d, rest);
    e := SecondCall(c.buf, c.next, rest, text);
  }

  lemma ReadIs(s: string)
    requires Read(Overlapping, s).Some?
    ensures Token(s).Some? && Token(AfterToken(s)).Some?
    ensures Read(Overlapping, s)
            == Some(Piece(Atoi(Token(s).value), Kept(Overlapping, SecondStart(s), Token(AfterToken(s)).value)))
  {
    TokenFields(s);
    TokenFields(AfterToken(s));
    hide Token, AfterToken, Kept, SecondStart, Atoi;
  }

  /** A turn of a thread, with nobody in between, has the effect of its code. */
  lemma TurnIsRun(st: State, q: nat)
    requires Sized(st) && Alive(st) && q < |st.threads| && st.holder.None? && st.threads[q].Receiving?
    requires st.inbox[q] != [] && NUL !in st.inbox[q][0] && Read(Overlapping, st.inbox[q][0]).Some?
    ensures CanRun(st, [q] + ([q] + ([q] + Six(q))))
    ensures var end := Run(st, [q] + ([q] + ([q] + Six(q))));
            && FilesOf(end) == Stored(Overlapping, FilesOf(st), q)
            && end.threads == st.threads && end.holder.None?
  {
    var s := st.inbox[q][0];
    ReadIs(s);
    var d, text := Token(s).value, Token(AfterToken(s)).value;
    FilledStands(st.temps[q], s);
    var c, e := TwoCalls(Filled(st.temps[q], s), s, d, text);
    SecondTokenStart(s);
    ThreeSteps(st, q, c, e, Atoi(d));
    var st3 := AfterCalls(st, q, e, Atoi(d));
    StandsString(e.buf, e.start, text);
    TokenAfterCopy(e.buf, e.start, text);
    StandsString(Filled(e.buf, text), e.start, Kept(Overlapping, e.start, text));
    AfterCallsIs(st, q, e, Atoi(d));
    hide *;
    TurnRuns(st3, q, Atoi(d), q, e.start);
    RunConcat(st, [q] + ([q] + ([q] + [])), Six(q));
    TurnEnds(st, q, e, d, text, s);
    ThreeSix(q);
  }

  lemma ThreeSix(q: nat)
    ensures [q] + ([q] + ([q] + [])) + Six(q) == [q] + ([q] + ([q] + Six(q)))
  {
  }

  /** Both calls have been made. */
  function AfterCalls(st: State, q: nat, e: Cut, pos: nat): State
    requires Sized(st) && q < |st.threads| && st.inbox[q] != []
  {
    st.(threads := st.threads[q := Tokened(pos, q, e.start)], inbox := st.inbox[q := st.inbox[q][1..]],
        temps := st.temps[q := e.buf], cursor := Some(Cursor(q, e.next)))
  }

  lemma AfterCallsIs(st: State, q: nat, e: Cut, pos: nat)
    requires Sized(st) && Alive(st) && q < |st.threads| && st.inbox[q] != [] && st.holder.None?
    ensures var st3 := AfterCalls(st, q, e, pos);
            && Sized(st3) && Alive(st3) && st3.holder.None? && |st3.threads| == |st.threads|
            && st3.threads[q] == Tokened(pos, q, e.start)
  {
  }

  lemma ThreeSteps(st: State, q: nat, c: Cut, e: Cut, pos: nat)
    requires Sized(st) && Alive(st) && q < |st.threads| && st.threads[q].Receiving? && st.inbox[q] != []
    requires Tok(Filled(st.temps[q], st.inbox[q][0]), 0) == Some(c) && Atoi(StringAt(c.buf, c.start)) == pos
    requires Tok(c.buf, c.next) == Some(e)
    ensures CanRun(st, [q] + ([q] + ([q] + [])))
    ensures Run(st, [q] + ([q] + ([q] + []))) == AfterCalls(st, q, e, pos)
  {
    hide Tok, Filled, StringAt, Atoi, CanRun, Run;
    ReceiveIs(st, q);
    var st1 := Next(st, q);
    FirstIs(st1, q);
    var st2 := Next(st1, q);
    assert st2.threads == st.threads[q := Halved(pos)];
    TakesStep(st2, q, q, c.next);
    var st3 := Next(st2, q);
    assert st3.threads == st.threads[q := Tokened(pos, q, e.start)];
    assert st3.temps == st.temps[q := e.buf];
    hide Next, Enabled;
    RunCons(st3, []);
    RunFront(st2, q, []);
    RunFront(st1, q, [q] + []);
    RunFront(st, q, [q] + ([q] + []));
  }

  lemma TurnEnds(st: State, q: nat, e: Cut, d: string, text: string, s: string)
    requires Sized(st) && q < |st.threads| && st.inbox[q] != [] && st.inbox[q][0] == s && st.holder.None?
    requires st.threads[q].Receiving?
    requires StringAt(e.buf, e.start) == text
    requires StringAt(Filled(e.buf, text), e.start) == Kept(Overlapping, e.start, text)
    requires Read(Overlapping, s) == Some(Piece(Atoi(d), Kept(Overlapping, e.start, text)))
    ensures var st3 := AfterCalls(st, q, e, Atoi(d));
            && Sized(st3)
            && var end := AfterTurn(st3, q, Atoi(d), q, e.start);
               FilesOf(end) == Stored(Overlapping, FilesOf(st), q) && end.threads == st.threads && end.holder.None?
  {
    hide StringAt, Filled, Kept, Read, PosWrite, NumberAt, Atoi;
  }

  // ---------------------------------------------------------------------------------------------
  // The code
  // ---------------------------------------------------------------------------------------------

  /** One round of select: the ready connections from q on are read once each; the first one that is closed ends it. */
  function Round(f: Files, ready: seq<bool>, q: nat): (Files, bool)
    requires |ready| == |f.inbox| && q <= |ready|
    decreases |ready| - q
  {
    if q == |ready| then (f, false)
    else if !ready[q] then Round(f, ready, q + 1)
    else if f.inbox[q] == [] then (f, true)
    else
      StoredSize(f, q);
      Round(Stored(Plain, f, q), ready, q + 1)
  }

  lemma StoredSize(f: Files, q: nat)
    requires q < |f.inbox| && f.inbox[q] != []
    ensures |Stored(Plain, f, q).inbox| == |f.inbox|
  {
    hide Kept, Parse, PosWrite;
  }

  lemma {:induction false} RoundSize(f: Files, ready: seq<bool>, q: nat)
    requires |ready| == |f.inbox| && q <= |ready|
    ensures |Round(f, ready, q).0.inbox| == |f.inbox|
    decreases |ready| - q
  {
    hide Stored;
    if q < |ready| {
      if ready[q] && f.inbox[q] != [] {
        StoredSize(f, q);
        RoundSize(Stored(Plain, f, q), ready, q + 1);
      } else if !ready[q] {
        RoundSize(f, ready, q + 1);
      }
    }
  }

  /** The select loop: it stops in the round in which a connection turns out to be closed. */
  function Rounds(f: Files, ready: seq<seq<bool>>): (Files, bool)
    requires forall r :: 0 <= r < |ready| ==> |ready[r]| == |f.inbox|
    decreases |ready|
  {
    if ready == [] then (f, false)
    else
      RoundSize(f, ready[0], 0);
      var next := Round(f, ready[0], 0);
      if next.1 then next else Rounds(next.0, ready[1..])
  }

  class Receiver {
    const variant: Variant
    var inbox: seq<seq<string>>
    var file: string
    var fpos: nat
    var received: nat
    ghost var log: seq<nat>

    ghost function Abs(): Files
      reads this
    {
      Files(inbox, file, fpos, received, log)
    }

    constructor (variant: Variant, conns: seq<seq<string>>)
      ensures this.variant == variant && Abs() == Files(conns, "", 0, 0, [])
    {
      this.variant := variant;
      inbox, file, fpos, received, log := conns, "", 0, 0, [];
    }

    /** The loop body of getdata, or of the select loop, on a received frame. */
    method Store(q: nat)
      requires q < |inbox| && inbox[q] != [] && NUL !in inbox[q][0] && Parse(inbox[q][0]).Some?
      modifies this
      ensures Abs() == Stored(variant, old(Abs()), q)
    {
      hide Parse, Kept, SecondStart;
      var buf := inbox[q][0];
      inbox := inbox[q := inbox[q][1..]];
      var piece := ReadFrame(variant, buf);
      var pos, pt := piece.value.pos, piece.value.text;
      fpos := pos;
      file := PosWrite(file, fpos, pt + [NUL]);
      fpos := fpos + |pt| + 1;
      log := log + [NumberAt(pos)];
      received := received + |pt|;
    }

    /** The select loop, for any readiness that select reports. */
    method SelectLoop(ready: seq<seq<bool>>) returns (closed: bool)
      requires variant.Plain? && Readable(Abs()) && forall r :: 0 <= r < |ready| ==> |ready[r]| == |inbox|
      modifies this
      ensures (Abs(), closed) == Rounds(old(Abs()), ready)
    {
      hide Round, Readable;
      ghost var start := Abs();
      closed := false;
      var r := 0;
      while r < |ready|
        invariant 0 <= r <= |ready| && !closed && Readable(Abs()) && |inbox| == |start.inbox|
        invariant Rounds(Abs(), ready[r..]) == Rounds(start, ready)
      {
        assert ready[r..][0] == ready[r] && ready[r..][1..] == ready[r + 1..];
        RoundSize(Abs(), ready[r], 0);
        closed := SelectRound(ready[r]);
        if closed {
          return;
        }
        r := r + 1;
      }
    }

    method SelectRound(ready: seq<bool>) returns (closed: bool)
      requires variant.Plain? && Readable(Abs()) && |ready| == |inbox|
      modifies this
      ensures Readable(Abs()) && (Abs(), closed) == Round(old(Abs()), ready, 0)
    {
      hide Stored, Readable;
      ghost var start := Abs();
      var q := 0;
      while q < |ready|
        invariant 0 <= q <= |ready| == |inbox| && Readable(Abs())
        invariant Round(Abs(), ready, q) == Round(start, ready, 0)
      {
        if ready[q] {
          if inbox[q] == [] {
            return true;
          }
          FirstReadable(Abs(), q);
          StoredReadable(Plain, Abs(), q);
          Store(q);
        }
        q := q + 1;
      }
      return false;
    }
  }

  lemma FirstReadable(f: Files, q: nat)
    requires Readable(f) && q < |f.inbox| && f.inbox[q] != []
    ensures NUL !in f.inbox[q][0] && Parse(f.inbox[q][0]).Some?
  {
    hide Parse;
  }
}
