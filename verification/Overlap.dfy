/** How a receiver takes a frame apart when nobody calls strtok in between (Assignment-2/multiplethreads.c, getdata;
    Assignment-2/nonblockingconnect.c). The thread copies its token to the start of the buffer that the token lies in
    (multiplethreads.c, line 56), the select loop does not. C leaves an overlapping strcpy undefined; here it copies from
    the front. */
module Overlap {
  import opened Options
  import opened CStrings
  import opened Buffers
  import opened ChunkFrame

  /** Whether the token is copied down over its own buffer before it is written. */
  datatype Variant = Plain | Overlapping

  /** Where the second token starts in the buffer. */
  function SecondStart(s: string): nat {
    |s| - |SkipDelims(AfterToken(s))|
  }

  /** What a token that starts at `from` reads as when it is written: the copy takes as many characters off its front as
      stand before it, unless it is shorter than that. */
  function Kept(v: Variant, from: nat, text: string): string {
    if v.Overlapping? && |text| >= from then text[from..] else text
  }

  lemma KeptIs(v: Variant, from: nat, text: string)
    ensures v.Plain? || |text| < from ==> Kept(v, from, text) == text
    ensures v.Overlapping? && |text| >= from ==> Kept(v, from, text) == text[from..]
  {
  }

  /** Position and text of a received frame, as the receiver uses them. */
  function Read(v: Variant, s: string): Option<Piece> {
    match Parse(s)
    case None => None
    case Some(p) => Some(Piece(p.pos, Kept(v, SecondStart(s), p.text)))
  }

  method ReadFrame(v: Variant, s: string) returns (p: Option<Piece>)
    requires NUL !in s
    ensures p == Read(v, s)
  {
    hide Token, AfterToken, SkipDelims, FieldLength, TokenStart, UpToNul, Kept, Fields;
    var t := new StrTok(s);
    TokenFields(s);
    TokenFields(AfterToken(s));
    var first := t.Next();
    if first.None? { return None; }
    SecondTokenStart(s);
    assert t.save == |s| - |AfterToken(s)|;
    var token := t.Next();
    if token.None? { return None; }
    SecondTokenHasNoNul(s);
    var pt := UseToken(v, t.buf, SecondStart(s), token.value);
    return Some(Piece(Atoi(first.value), pt));
  }

  /** What becomes of the token between strtok and fwrite. */
  method UseToken(v: Variant, buf: array<char>, from: nat, ghost text: string) returns (pt: string)
    requires 0 < from && NUL !in text
    requires from + |text| < buf.Length && buf[from..from + |text|] == text && buf[from + |text|] == NUL
    modifies buf
    ensures pt == Kept(v, from, text)
  {
    hide UpToNul, Kept;
    SliceStands(buf[..], from, text);
    KeptIs(v, from, text);
    if v.Overlapping? {
      TokenAfterCopy(buf[..], from, text);
      StandsString(buf[..], from, text);
      hide Stands;
      CopyDown(buf, from, text);
      pt := ReadString(buf, from, Kept(v, from, text));
    } else {
      pt := ReadString(buf, from, text);
    }
  }

  lemma SliceStands(buf: string, from: nat, text: string)
    requires from + |text| < |buf| && buf[from..from + |text|] == text && buf[from + |text|] == NUL && NUL !in text
    ensures Stands(buf, from, text)
  {
    forall k | 0 <= k < |text| ensures buf[from + k] == text[k] && text[k] != NUL {
      assert buf[from..from + |text|][k] == text[k] && text[k] in text;
    }
  }

  lemma SecondTokenHasNoNul(s: string)
    requires NUL !in s && Token(s).Some? && Token(AfterToken(s)).Some?
    ensures NUL !in Token(AfterToken(s)).value
  {
    hide Token, AfterToken;
    TokenFields(s);
    TokenFields(AfterToken(s));
    FieldsInside(s, NUL);
    assert Token(AfterToken(s)).value == Fields(s)[1];
    assert Fields(s)[1] in Fields(s);
  }

  lemma SecondTokenStart(s: string)
    requires Token(s).Some?
    ensures SecondStart(s) == |s| - |AfterToken(s)| + TokenStart(AfterToken(s))
    ensures |AfterToken(s)| < |s| && SecondStart(s) > 0
  {
  }

  /** strlen, and what it spans. */
  method ReadString(buf: array<char>, from: nat, ghost text: string) returns (s: string)
    requires Stands(buf[..], from, text)
    ensures s == text
  {
    forall k | 0 <= k < |text| ensures buf[from + k] == text[k] && text[k] != NUL {
      assert buf[..][from + k] == text[k];
    }
    assert buf[..][from + |text|] == NUL;
    var n := 0;
    while buf[from + n] != NUL
      invariant 0 <= n <= |text| && (n < |text| ==> buf[from + n] == text[n] && text[n] != NUL)
      decreases |text| - n
    {
      n := n + 1;
    }
    s := buf[from..from + n];
    assert forall k :: 0 <= k < n ==> s[k] == buf[from + k];
  }

  /** strcpy(buf, buf + from). */
  method CopyDown(buf: array<char>, from: nat, ghost text: string)
    requires 0 < from && Stands(buf[..], from, text)
    modifies buf
    ensures buf[..] == Filled(old(buf[..]), text)
  {
    ghost var before := buf[..];
    assert forall k :: 0 <= k < |text| ==> before[from + k] == text[k] && text[k] != NUL;
    var i := 0;
    while buf[from + i] != NUL
      invariant 0 <= i <= |text|
      invariant forall k :: 0 <= k < i ==> buf[k] == text[k]
      invariant forall k :: i <= k < buf.Length ==> buf[k] == before[k]
      decreases |text| - i
    {
      buf[i] := buf[from + i];
      i := i + 1;
    }
    assert before[from + i] == buf[from + i];
    buf[i] := NUL;
    assert buf[..] == Filled(before, text);
  }

  /** After the copy the token reads as what is kept of it. */
  lemma TokenAfterCopy(buf: string, from: nat, text: string)
    requires Stands(buf, from, text) && 0 < from
    ensures Stands(Filled(buf, text), from, Kept(Overlapping, from, text))
  {
    KeptIs(Overlapping, from, text);
    hide Kept;
    if |text| >= from {
      CopiedInside(buf, from, text, text[from..]);
    }
  }

  lemma CopiedInside(buf: string, from: nat, text: string, kept: string)
    requires Stands(buf, from, text) && from + |kept| == |text|
    requires forall k :: 0 <= k < |kept| ==> kept[k] == text[from + k]
    ensures Stands(Filled(buf, text), from, kept)
  {
  }

  /** From a sender's frame: the position, and the chunk without as many characters as the position and its delimiter
      have if the token is copied down. */
  lemma ReadOfFrame(v: Variant, pos: nat, chunk: string)
    requires chunk != "" && ';' !in chunk && NUL !in chunk
    ensures Read(v, Frame(pos, chunk)) == Some(Piece(pos, Kept(v, |Decimal(pos)| + 1, chunk)))
  {
    FrameRoundTripIff(pos, chunk);
    FrameSecondStart(pos, chunk);
    hide Kept, Parse, SecondStart, Frame;
  }

  lemma FrameSecondStart(pos: nat, chunk: string)
    requires chunk != "" && ';' !in chunk && NUL !in chunk
    ensures SecondStart(Frame(pos, chunk)) == |Decimal(pos)| + 1
  {
    hide Decimal, UpToNul;
    DecimalIsField(pos);
    var behind := chunk + ";";
    assert Frame(pos, chunk) == Decimal(pos) + ";" + behind;
    AfterField(Decimal(pos), behind);
    assert behind[0] == chunk[0] && chunk[0] in chunk;
  }

  /** A frame of one field only has no second token. */
  lemma OneFieldFails(v: Variant, f: string)
    requires IsField(f)
    ensures Read(v, f).None? && Read(v, f + ";").None? && Read(v, "").None?
  {
    FieldsLast(f);
    FieldsOfDelimiter("");
    FieldsCons(f, "");
    assert f + ";" + "" == f + ";";
    hide Fields, Kept, SecondStart;
  }
}
