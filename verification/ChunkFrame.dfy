/** The frames of the striped transfer: the sender's "position;chunk;" (Assignment-2/serverb.c) and the receiver's
    way of taking it apart (Assignment-2/multiplethreads.c). */
module ChunkFrame {
  import opened Options
  import opened CStrings
  import opened Buffers

  const CHUNK: nat := 500
  const FRAME_BUFFER: nat := 512

  function Frame(pos: nat, chunk: string): string {
    Decimal(pos) + ";" + UpToNul(chunk) + ";"
  }

  datatype Piece = Piece(pos: nat, text: string)

  function Parse(s: string): Option<Piece> {
    var f := Fields(s);
    if |f| < 2 then None else Some(Piece(Atoi(f[0]), f[1]))
  }

  /** The receiver can take the frame apart exactly when the chunk, which is never empty, holds no ";" and no NUL. */
  method BuildFrame(pos: nat, chunk: string) returns (s: string)
    ensures s == Frame(pos, chunk)
    ensures chunk != "" ==> (Parse(s) == Some(Piece(pos, chunk)) <==> ';' !in chunk && NUL !in chunk)
  {
    if chunk != "" { FrameRoundTripIff(pos, chunk); }
    s := Decimal(pos);
    s := s + ";";
    s := s + UpToNul(chunk);
    s := s + ";";
  }

  lemma FrameFields(pos: nat, chunk: string)
    ensures Fields(Frame(pos, chunk)) == [Decimal(pos)] + Fields(UpToNul(chunk) + ";")
  {
    DecimalIsField(pos);
    assert Frame(pos, chunk) == Decimal(pos) + ";" + (UpToNul(chunk) + ";");
    FieldsCons(Decimal(pos), UpToNul(chunk) + ";");
  }

  /** The receiver recovers position and chunk exactly when the chunk, which is never empty, holds no ";" and no
      NUL. */
  lemma FrameRoundTripIff(pos: nat, chunk: string)
    requires chunk != ""
    ensures Parse(Frame(pos, chunk)) == Some(Piece(pos, chunk)) <==> ';' !in chunk && NUL !in chunk
  {
    FrameFields(pos, chunk);
    AtoiOfDecimal(pos);
    var text := UpToNul(chunk);
    FieldsAreFields(text + ";");
    if ';' !in chunk && NUL !in chunk {
      FieldsCons(text, "");
      assert text + ";" + "" == text + ";";
    } else if Fields(text + ";") != [] {
      var f := Fields(text + ";")[0];
      assert f in Fields(text + ";");
      if f == chunk && NUL in chunk {
        FieldsInside(text + ";", NUL);
      }
    }
  }

  lemma {:induction false} SkipInside(s: string, c: char)
    requires c !in s
    ensures c !in SkipDelims(s)
  {
    if s != "" && s[0] == ';' {
      SkipInside(s[1..], c);
    }
  }

  lemma {:induction false} FieldsInside(s: string, c: char)
    requires c !in s
    ensures forall f :: f in Fields(s) ==> c !in f
    decreases |s|
  {
    if Token(s).Some? {
      SkipInside(s, c);
      FieldsInside(AfterToken(s), c);
    }
  }

  /** A frame and its terminator fit the sender's buffer if the position has at most nine digits; for a whole chunk
      they do not fit otherwise. The sender's files go beyond that position. */
  lemma FrameFitsIff(pos: nat, chunk: string)
    requires |chunk| <= CHUNK
    ensures pos < 1_000_000_000 ==> |Frame(pos, chunk)| + 1 <= FRAME_BUFFER
    ensures |chunk| == CHUNK && NUL !in chunk ==>
              (|Frame(pos, chunk)| + 1 <= FRAME_BUFFER <==> pos < 1_000_000_000)
  {
    assert Pow10(3) == 1000;
    assert Pow10(6) == 1000 * Pow10(3) by { assert Pow10(5) == 100 * Pow10(3); }
    assert Pow10(9) == 1000 * Pow10(6) by { assert Pow10(8) == 100 * Pow10(6); }
    DecimalLength(pos, 9);
  }
}
