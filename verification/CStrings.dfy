/** The C library's string calls that the chat and the file transfer rely on: strtok with delimiter ";",
    sprintf("%d") and atoi. Strings carry no NUL; in memory a NUL ends them. */
module CStrings {
  import opened Options

  /** What strtok can return: something, and no delimiter in it. */
  predicate IsField(s: string) {
    s != "" && ';' !in s
  }

  /** The string behind the leading delimiters. */
  function SkipDelims(s: string): (r: string)
    ensures |r| <= |s|
    ensures r == "" || r[0] != ';'
  {
    if s != "" && s[0] == ';' then SkipDelims(s[1..]) else s
  }

  /** Length of the text in front of the first delimiter. */
  function FieldLength(s: string): (n: nat)
    ensures n <= |s|
    ensures forall k :: 0 <= k < n ==> s[k] != ';'
    ensures n < |s| ==> s[n] == ';'
  {
    if s == "" || s[0] == ';' then 0 else 1 + FieldLength(s[1..])
  }

  /** What one call of strtok returns, and what it leaves for the next call. */
  function Token(s: string): Option<string> {
    var r := SkipDelims(s);
    if r == "" then None else Some(r[..FieldLength(r)])
  }

  /** Where the next token starts in the string. */
  function TokenStart(s: string): nat {
    |s| - |SkipDelims(s)|
  }

  function AfterToken(s: string): string {
    var r := SkipDelims(s);
    var n := FieldLength(r);
    if n < |r| then r[n + 1..] else ""
  }

  lemma TokenIs(s: string)
    ensures var r := SkipDelims(s);
            && (r == "" ==> Token(s) == None && AfterToken(s) == "")
            && (r != "" ==> Token(s) == Some(r[..FieldLength(r)]))
            && (r != "" && FieldLength(r) < |r| ==> AfterToken(s) == r[FieldLength(r) + 1..])
            && (r != "" && FieldLength(r) == |r| ==> AfterToken(s) == "")
  {
  }

  /** Everything repeated calls of strtok return. */
  function Fields(s: string): seq<string>
    decreases |s|
  {
    if Token(s).None? then [] else [Token(s).value] + Fields(AfterToken(s))
  }

  lemma {:induction false} FieldsAreFields(s: string)
    ensures forall f :: f in Fields(s) ==> IsField(f)
    decreases |s|
  {
    if Token(s).Some? {
      FieldsAreFields(AfterToken(s));
      var r := SkipDelims(s);
      assert r[..FieldLength(r)] != "";
    }
  }

  lemma FieldLengthOf(f: string, rest: string)
    requires IsField(f)
    ensures FieldLength(f + ";" + rest) == |f|
    ensures FieldLength(f) == |f|
  {
    var s := f + ";" + rest;
    assert s[|f|] == ';';
    assert forall k :: 0 <= k < |f| ==> s[k] == f[k] && f[k] in f;
  }

  /** A field in front of a delimiter is the next token. */
  lemma FieldsCons(f: string, rest: string)
    requires IsField(f)
    ensures Fields(f + ";" + rest) == [f] + Fields(rest)
  {
    var s := f + ";" + rest;
    FieldLengthOf(f, rest);
    assert s[0] == f[0] && f[0] in f;
    assert s[..|f|] == f && s[|f| + 1..] == rest;
  }

  lemma AfterField(f: string, rest: string)
    requires IsField(f)
    ensures AfterToken(f + ";" + rest) == rest
  {
    var s := f + ";" + rest;
    FieldLengthOf(f, rest);
    assert s[0] == f[0] && f[0] in f;
    assert s[|f| + 1..] == rest;
  }

  lemma FieldsLast(f: string)
    requires IsField(f)
    ensures Fields(f) == [f]
  {
    FieldLengthOf(f, "");
    assert f[0] in f;
    assert f[..|f|] == f;
    assert Fields("") == [];
  }

  /** A delimiter in front adds no token, and neither does the empty string: with a field in front of a delimiter or of
      the end these are all the cases there are. */
  lemma FieldsOfDelimiter(rest: string)
    ensures Fields(";" + rest) == Fields(rest) && Fields("") == []
  {
    assert (";" + rest)[1..] == rest;
    assert SkipDelims(";" + rest) == SkipDelims(rest);
    hide SkipDelims, FieldLength;
    SameFields(";" + rest, rest);
  }

  lemma SameFields(a: string, b: string)
    requires Token(a) == Token(b) && AfterToken(a) == AfterToken(b)
    ensures Fields(a) == Fields(b)
  {
    hide Token, AfterToken;
  }

  lemma TokenFields(s: string)
    ensures Token(s).None? <==> Fields(s) == []
    ensures Token(s).Some? ==> Fields(s) == [Token(s).value] + Fields(AfterToken(s))
  {
  }

  // ---------------------------------------------------------------------------------------------
  // strtok
  // ---------------------------------------------------------------------------------------------

  const NUL := '\0'

  /** strtok on one buffer: a cursor that moves over the string and overwrites the delimiters it stops at. */
  class StrTok {
    var buf: array<char>
    var save: nat
    ghost var end: nat

    ghost predicate Valid()
      reads this, buf
    {
      && save <= end < buf.Length
      && buf[end] == NUL
      && forall k :: save <= k < end ==> buf[k] != NUL
    }

    /** The part of the string that has not been handed out. */
    ghost function Rest(): string
      reads this, buf
      requires Valid()
    {
      buf[save..end]
    }

    /** strcpy into a scratch buffer, then the first call. */
    constructor (s: string)
      requires NUL !in s
      ensures Valid() && fresh(buf) && Rest() == s && save == 0 && end == |s|
    {
      buf := new char[|s| + 1](k requires 0 <= k <= |s| => if k < |s| then s[k] else NUL);
      save := 0;
      end := |s|;
      new;
      assert forall k :: 0 <= k < |s| ==> s[k] in s;
      assert buf[0..|s|] == s;
    }

    method SkipDelimiters()
      requires Valid()
      modifies this`save
      ensures Valid() && Rest() == SkipDelims(old(Rest()))
      ensures save == old(save) + TokenStart(old(Rest()))
      ensures save < buf.Length && (buf[save] == NUL <==> Rest() == "")
    {
      ghost var rest0 := Rest();
      while buf[save] == ';'
        invariant Valid() && SkipDelims(Rest()) == SkipDelims(rest0)
        decreases end - save
      {
        assert Rest()[1..] == buf[save + 1..end];
        save := save + 1;
      }
    }

    /** The end of the field that starts at the cursor. */
    method FieldEnd() returns (stop: nat)
      requires Valid()
      ensures stop == save + FieldLength(Rest()) <= end
    {
      ghost var n := FieldLength(Rest());
      stop := save;
      assert forall k :: save <= k < save + n ==> buf[k] == Rest()[k - save];
      while buf[stop] != NUL && buf[stop] != ';'
        invariant save <= stop <= save + n
        decreases end - stop
      {
        assert Rest()[stop - save] == buf[stop];
        stop := stop + 1;
      }
    }

    /** The token stays in the buffer, and the delimiter behind it, if there is one, becomes a NUL. */
    method Next() returns (token: Option<string>)
      requires Valid()
      modifies this`save, buf
      ensures Valid() && token == Token(old(Rest())) && Rest() == AfterToken(old(Rest()))
      ensures end == old(end)
      ensures token.Some? ==>
                var from := old(save) + TokenStart(old(Rest()));
                var stop := from + |token.value|;
                && stop < buf.Length && buf[from..stop] == token.value && buf[stop] == NUL
                && forall k :: 0 <= k < buf.Length && k != stop ==> buf[k] == old(buf[k])
    {
      ghost var rest := Rest();
      TokenIs(rest);
      hide *;
      SkipDelimiters();
      if buf[save] == NUL {
        return None;
      }
      var field := TakeToken(rest);
      return Some(field);
    }

    /** From where the first token of `s` starts: that token, and the cursor behind its delimiter. */
    method TakeToken(ghost s: string) returns (field: string)
      requires Valid() && Rest() == SkipDelims(s) != ""
      modifies this`save, buf
      ensures Valid() && end == old(end)
      ensures Token(s) == Some(field) && Rest() == AfterToken(s)
      ensures var stop := old(save) + |field|;
              && stop < buf.Length && buf[old(save)..stop] == field && buf[stop] == NUL
              && forall k :: 0 <= k < buf.Length && k != stop ==> buf[k] == old(buf[k])
    {
      TokenIs(s);
      hide SkipDelims, FieldLength, TokenStart, Token, AfterToken;
      field := TakeField();
    }

    /** From a field's start: the field, and the cursor behind its delimiter. */
    method TakeField() returns (field: string)
      requires Valid() && Rest() != "" && Rest()[0] != ';'
      modifies this`save, buf
      ensures Valid() && end == old(end)
      ensures var rest, n := old(Rest()), FieldLength(old(Rest()));
              && field == rest[..n] && Rest() == (if n < |rest| then rest[n + 1..] else "")
              && old(save) + n < buf.Length && buf[old(save)..old(save) + n] == field && buf[old(save) + n] == NUL
              && forall k :: 0 <= k < buf.Length && k != old(save) + n ==> buf[k] == old(buf[k])
    {
      hide FieldLength;
      var start := save;
      var stop := FieldEnd();
      field := buf[save..stop];
      assert Rest()[..stop - save] == field;
      CutAt(stop);
      assert buf[start..stop] == field;
    }

    /** The delimiter behind the field becomes a NUL. */
    method CutAt(stop: nat)
      requires Valid() && save <= stop <= end && (stop < end ==> buf[stop] == ';')
      modifies this`save, buf
      ensures Valid() && end == old(end)
      ensures Rest() == if stop < end then old(Rest())[stop - old(save) + 1..] else ""
      ensures stop < buf.Length && buf[stop] == NUL
      ensures forall k :: 0 <= k < buf.Length && k != stop ==> buf[k] == old(buf[k])
    {
      assert stop < end ==> Rest()[stop - save + 1..] == buf[stop + 1..end];
      save := stop;
      if buf[save] == ';' {
        buf[save] := NUL;
        save := save + 1;
      }
    }
  }

  // ---------------------------------------------------------------------------------------------
  // Decimal numbers
  // ---------------------------------------------------------------------------------------------

  predicate IsDigit(c: char) {
    '0' <= c <= '9'
  }

  function DigitValue(c: char): nat
    requires IsDigit(c)
  {
    c as int - '0' as int
  }

  /** sprintf("%d") of a number that is not negative. */
  function Decimal(n: nat): (s: string)
    ensures s != "" && forall k :: 0 <= k < |s| ==> IsDigit(s[k])
  {
    if n < 10 then [('0' as int + n) as char] else Decimal(n / 10) + [('0' as int + n % 10) as char]
  }

  /** atoi of a string without blanks or sign in front: the value of the leading digits. */
  function Atoi(s: string): nat {
    AtoiFrom(s, 0)
  }

  function AtoiFrom(s: string, acc: nat): nat {
    if s == "" || !IsDigit(s[0]) then acc else AtoiFrom(s[1..], 10 * acc + DigitValue(s[0]))
  }

  lemma {:induction false} AtoiAppend(a: string, b: string, acc: nat)
    requires forall k :: 0 <= k < |a| ==> IsDigit(a[k])
    ensures AtoiFrom(a + b, acc) == AtoiFrom(b, AtoiFrom(a, acc))
  {
    if a == "" {
      assert a + b == b;
    } else {
      assert (a + b)[1..] == a[1..] + b;
      AtoiAppend(a[1..], b, 10 * acc + DigitValue(a[0]));
    }
  }

  lemma {:induction false} AtoiOfDecimal(n: nat)
    ensures Atoi(Decimal(n)) == n
  {
    var last := [('0' as int + n % 10) as char];
    assert last[1..] == "";
    assert AtoiFrom(last, 0) == n % 10;
    if n >= 10 {
      AtoiOfDecimal(n / 10);
      AtoiAppend(Decimal(n / 10), last, 0);
      assert AtoiFrom(last, n / 10) == AtoiFrom("", 10 * (n / 10) + n % 10);
    }
  }

  /** atoi stops at the first character that is no digit. */
  lemma AtoiStops(n: nat, rest: string)
    requires rest == "" || !IsDigit(rest[0])
    ensures Atoi(Decimal(n) + rest) == n && Atoi(rest) == 0
  {
    AtoiOfDecimal(n);
    AtoiAppend(Decimal(n), rest, 0);
  }

  function Pow10(k: nat): nat {
    if k == 0 then 1 else 10 * Pow10(k - 1)
  }

  /** A number has at most k digits exactly if it is below the k-th power of ten. */
  lemma {:induction false} DecimalLength(n: nat, k: nat)
    requires 1 <= k
    ensures |Decimal(n)| <= k <==> n < Pow10(k)
  {
    PowPositive(k - 1);
    if n >= 10 && k > 1 {
      DecimalLength(n / 10, k - 1);
    }
  }

  lemma {:induction false} PowPositive(k: nat)
    ensures Pow10(k) >= 1
  {
    if k > 0 {
      PowPositive(k - 1);
    }
  }

  lemma DecimalIsField(n: nat)
    ensures IsField(Decimal(n))
  {
    assert !IsDigit(';');
  }
}
