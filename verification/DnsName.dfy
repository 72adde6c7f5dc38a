/** Host names in DNS messages: the client's encoder (Assignment-2/dns_client.c, changeHostNameToDNSFormat) and a
    reference decoder after RFC 1035, sections 3.1 and 4.1.4. */
module DnsName {
  import opened Options
  import opened Octets

  const DOT: byte := 46
  const HEADER_SIZE: nat := 12

  /** Length of the text in front of the first dot. */
  function LabelLength(s: Bytes): (n: nat)
    ensures n <= |s|
    ensures forall k :: 0 <= k < n ==> s[k] != DOT
    ensures n < |s| ==> s[n] == DOT
  {
    if s == [] || s[0] == DOT then 0 else 1 + LabelLength(s[1..])
  }

  function AsByte(n: nat): byte {
    (n % 256) as byte
  }

  /** The text behind the first dot. */
  function AfterLabel(s: Bytes): Bytes {
    if LabelLength(s) < |s| then s[LabelLength(s) + 1..] else []
  }

  /** Each piece between dots, its length in front; then the zero octet. Nothing follows a final dot. */
  function Encode(name: Bytes): Bytes
    decreases |name|
  {
    if name == [] then [0]
    else
      var n := LabelLength(name);
      [AsByte(n)] + name[..n] + Encode(AfterLabel(name))
  }

  /** Labels of 1 to 63 octets separated by single dots. */
  ghost predicate ValidName(name: Bytes)
    decreases |name|
  {
    var n := LabelLength(name);
    1 <= n <= 63 && (n == |name| || ValidName(AfterLabel(name)))
  }

  /** The encoding without its zero octet. */
  function Labels(name: Bytes): Bytes {
    var e := Encode(name);
    EncodeEndsInZero(name);
    e[..|e| - 1]
  }

  lemma {:induction false} EncodeEndsInZero(name: Bytes)
    ensures Encode(name) != [] && Encode(name)[|Encode(name)| - 1] == 0
    decreases |name|
  {
    if name != [] {
      var n := LabelLength(name);
      EncodeEndsInZero(AfterLabel(name));
    }
  }

  /** The encoded length is strlen + 2, as the client assumes when it looks for the answer, exactly for the names that
      are not empty and do not end in a dot. */
  lemma {:induction false} EncodedLengthIff(name: Bytes)
    ensures |Encode(name)| == |name| + 2 <==> name != [] && name[|name| - 1] != DOT
    ensures |Encode(name)| == |name| + 1 || |Encode(name)| == |name| + 2
    decreases |name|
  {
    EncodeNothing();
    if name != [] {
      var n := LabelLength(name);
      EncodeUnfold(name);
      LastBehindLabel(name);
      hide Encode, LabelLength, AfterLabel;
      if n < |name| {
        EncodedLengthIff(AfterLabel(name));
      }
    }
  }

  /** Octet by octet, for every name: a character stands one place behind its own; a dot has become the length of the
      label behind it. The length of the first label is in front and a zero at the end. */
  lemma {:induction false} EncodeAt(name: Bytes, k: nat)
    requires k < |name|
    ensures k + 1 < |Encode(name)| && Encode(name)[0] == AsByte(LabelLength(name))
    ensures Encode(name)[k + 1] == if name[k] == DOT then AsByte(LabelLength(name[k + 1..])) else name[k]
    decreases |name|
  {
    var n, tail := LabelLength(name), AfterLabel(name);
    EncodeUnfold(name);
    EncodeStart(name);
    EncodeStart(tail);
    if n < |name| { assert name[n + 1..] == tail; }
    hide *;
    LabelInFront(AsByte(n), name[..n], Encode(tail));
    if k < n {
      assert name[..n][k] == name[k];
    } else if k > n {
      EncodeAt(tail, k - n - 1);
      Shifted(name, n + 1, tail, k);
    }
  }

  lemma LabelInFront(b: byte, text: Bytes, rest: Bytes)
    ensures var all := [b] + text + rest;
            && |all| == |text| + 1 + |rest|
            && (forall j :: 0 <= j < |text| ==> all[j + 1] == text[j])
            && (forall j :: 0 <= j < |rest| ==> all[|text| + 1 + j] == rest[j])
  {
  }

  lemma Shifted(name: Bytes, n: nat, tail: Bytes, k: nat)
    requires n <= k < |name| && tail == name[n..]
    ensures tail[k - n] == name[k] && tail[k - n + 1..] == name[k + 1..]
  {
  }

  lemma EncodeStart(name: Bytes)
    ensures Encode(name) != [] && Encode(name)[0] == AsByte(LabelLength(name))
  {
    if name != [] { EncodeUnfold(name); }
    hide Encode;
    EncodeNothing();
  }

  lemma LastBehindLabel(name: Bytes)
    requires name != []
    ensures var n, tail := LabelLength(name), AfterLabel(name);
            && (n == |name| ==> name[|name| - 1] != DOT && tail == [])
            && (n < |name| ==> |tail| == |name| - n - 1)
            && (n < |name| && tail == [] ==> name[|name| - 1] == DOT)
            && (n < |name| && tail != [] ==> tail[|tail| - 1] == name[|name| - 1])
  {
  }

  lemma {:induction false} ValidNameLength(name: Bytes)
    requires ValidName(name)
    ensures |Encode(name)| == |name| + 2 && |Labels(name)| == |name| + 1
    decreases |name|
  {
    var n := LabelLength(name);
    if n < |name| {
      ValidNameLength(AfterLabel(name));
    }
  }

  // ---------------------------------------------------------------------------------------------
  // The encoder
  // ---------------------------------------------------------------------------------------------

  function Rest(name: Bytes, i: nat): Bytes {
    if i < |name| then name[i..] else []
  }

  lemma RestStep(name: Bytes, i: nat)
    requires i < |name|
    ensures Rest(name, i) == name[i..] && Rest(name, i) != [] && i + LabelLength(Rest(name, i)) <= |name|
    ensures AfterLabel(Rest(name, i)) == Rest(name, i + LabelLength(Rest(name, i)) + 1)
  {
  }

  method ChangeHostNameToDnsFormat(name: Bytes, buf: array<byte>) returns (pos: nat)
    requires |name| + 2 <= buf.Length
    modifies buf
    ensures pos == |Encode(name)| <= buf.Length
    ensures buf[..pos] == Encode(name)
    ensures forall k :: pos <= k < buf.Length ==> buf[k] == old(buf[k])
  {
    hide Encode, LabelLength, AfterLabel, Rest;
    EncodedLengthIff(name);
    RestEnds(name);
    var i: nat := 0;
    pos := 0;
    while i < |name|
      invariant pos <= buf.Length && i <= |name| + 1
      invariant buf[..pos] + Encode(Rest(name, i)) == Encode(name)
      invariant forall k :: pos <= k < buf.Length ==> buf[k] == old(buf[k])
    {
      LabelWritten(name, i, buf[..pos]);
      i, pos := EncodeLabel(name, i, pos, buf);
      i := i + 1;
    }
    EncodeNothing();
    assert buf[..pos] + [0] == Encode(name);
    buf[pos] := 0;
    pos := pos + 1;
  }

  lemma RestEnds(name: Bytes)
    ensures Rest(name, 0) == name && forall i :: i >= |name| ==> Rest(name, i) == []
  {
  }

  /** What is left to encode after one more label, and that there is room for it. */
  lemma LabelWritten(name: Bytes, i: nat, before: Bytes)
    requires i < |name| && before + Encode(Rest(name, i)) == Encode(name)
    ensures var rest := Rest(name, i);
            var n := LabelLength(rest);
            && i + n <= |name| && |before| + 1 + n < |Encode(name)|
            && before + ([AsByte(n)] + rest[..n]) + Encode(Rest(name, i + n + 1)) == Encode(name)
  {
    hide *;
    RestStep(name, i);
    var rest := Rest(name, i);
    var n := LabelLength(rest);
    var head, next := [AsByte(n)] + rest[..n], Encode(Rest(name, i + n + 1));
    assert Encode(rest) == head + next by { EncodeUnfold(rest); }
    assert next != [] by { EncodeEndsInZero(Rest(name, i + n + 1)); }
    Associative(before, head, next);
    assert |before + head + next| == |before| + |head| + |next|;
  }

  lemma BehindFront(a: Bytes, b: Bytes)
    ensures (a + b)[|a|..|a + b|] == b && (a + b)[|a|..] == b
  {
  }

  lemma Associative(a: Bytes, b: Bytes, c: Bytes)
    ensures a + b + c == a + (b + c)
  {
  }

  lemma EncodeUnfold(name: Bytes)
    requires name != []
    ensures var n := LabelLength(name);
            Encode(name) == [AsByte(n)] + name[..n] + Encode(AfterLabel(name))
  {
    hide AfterLabel, LabelLength, AsByte;
  }

  lemma EncodeNothing()
    ensures Encode([]) == [0]
  {
  }

  /** One label: its length and its characters. */
  method EncodeLabel(name: Bytes, j: nat, pos: nat, buf: array<byte>) returns (i: nat, pos': nat)
    requires j < |name| && pos + 1 + LabelLength(Rest(name, j)) <= buf.Length
    modifies buf
    ensures var n := LabelLength(Rest(name, j));
            && i == j + n && pos' == pos + 1 + n
            && buf[..pos'] == old(buf[..pos]) + ([AsByte(n)] + Rest(name, j)[..n])
    ensures forall k :: pos' <= k < buf.Length ==> buf[k] == old(buf[k])
  {
    hide LabelLength, AsByte;
    i := LabelEnd(name, j);
    ghost var before := old(buf[..pos]);
    buf[pos] := AsByte(i - j);
    assert buf[..pos + 1] == before + [AsByte(i - j)];
    pos' := CopyText(name, j, i, pos + 1, buf);
    Associative(before, [AsByte(i - j)], name[j..i]);
    assert Rest(name, j)[..i - j] == name[j..i];
  }

  method CopyText(name: Bytes, j: nat, i: nat, pos: nat, buf: array<byte>) returns (pos': nat)
    requires j <= i <= |name| && pos + (i - j) <= buf.Length
    modifies buf
    ensures pos' == pos + (i - j) && buf[..pos'] == old(buf[..pos]) + name[j..i]
    ensures forall k :: pos' <= k < buf.Length ==> buf[k] == old(buf[k])
  {
    pos' := pos;
    var c := j;
    while c < i
      invariant j <= c <= i && pos' == pos + (c - j)
      invariant forall k :: 0 <= k < pos ==> buf[k] == old(buf[k])
      invariant forall k :: pos <= k < pos' ==> buf[k] == name[j + (k - pos)]
      invariant forall k :: pos' <= k < buf.Length ==> buf[k] == old(buf[k])
    {
      buf[pos'] := name[c];
      pos' := pos' + 1;
      c := c + 1;
    }
  }

  method LabelEnd(name: Bytes, j: nat) returns (i: nat)
    requires j <= |name|
    ensures i == j + LabelLength(Rest(name, j))
  {
    ghost var rest := Rest(name, j);
    i := j;
    while i < |name| && name[i] != DOT
      invariant j <= i <= j + LabelLength(rest)
    {
      assert name[i] == rest[i - j];
      i := i + 1;
    }
  }

  // ---------------------------------------------------------------------------------------------
  // The reference decoder
  // ---------------------------------------------------------------------------------------------

  /** The name at an offset of a message. A pointer leads to an earlier place. */
  function RfcName(msg: Bytes, off: nat, bound: nat): Option<Bytes>
    decreases bound, |msg| - off
  {
    if off >= |msg| then None
    else
      var b := msg[off] as nat;
      if b == 0 then Some([])
      else if b < 64 then
        if off + 1 + b > |msg| then None
        else match RfcName(msg, off + 1 + b, bound)
             case None => None
             case Some(rest) => Some(Join(msg[off + 1..off + 1 + b], rest))
      else if b >= 192 && off + 1 < |msg| then
        var p := (b - 192) * 256 + msg[off + 1] as nat;
        if p < bound then RfcName(msg, p, p) else None
      else None
  }

  function Join(a: Bytes, b: Bytes): Bytes {
    if b == [] then a else a + [DOT] + b
  }

  lemma RfcLabel(msg: Bytes, off: nat, bound: nat, text: Bytes, rest: Bytes)
    requires 1 <= |text| < 64 && off < |msg| && msg[off] as nat == |text| && Stands(msg, off + 1, text)
    requires RfcName(msg, off + 1 + |text|, bound) == Some(rest)
    ensures RfcName(msg, off, bound) == Some(Join(text, rest))
  {
  }

  lemma JoinAssociative(a: Bytes, b: Bytes, c: Bytes)
    requires b != []
    ensures Join(a, Join(b, c)) == Join(Join(a, b), c)
  {
    if c != [] {
      assert a + [DOT] + (b + [DOT] + c) == a + [DOT] + b + [DOT] + c;
    }
  }

  lemma ValidNameParts(name: Bytes)
    requires ValidName(name)
    ensures var n := LabelLength(name);
            && 1 <= n <= 63 && n <= |name|
            && (n < |name| ==> ValidName(AfterLabel(name)) && AfterLabel(name) != []
                               && |AfterLabel(name)| == |name| - n - 1
                               && name == Join(name[..n], AfterLabel(name)))
            && (n == |name| ==> name[..n] == name)
  {
    var n := LabelLength(name);
    if n < |name| {
      assert ValidName(AfterLabel(name));
      assert LabelLength([]) == 0;
      assert AfterLabel(name) == name[n + 1..] && name[n] == DOT;
      hide *;
      JoinedAt(name, n);
    }
  }

  lemma JoinedAt(name: Bytes, n: nat)
    requires n < |name| && name[n] == DOT && name[n + 1..] != []
    ensures name == Join(name[..n], name[n + 1..])
  {
    assert name == name[..n] + [DOT] + name[n + 1..];
  }

  lemma LabelsParts(name: Bytes)
    requires ValidName(name)
    ensures var n := LabelLength(name);
            && (n < |name| ==> Labels(name) == [n as byte] + name[..n] + Labels(AfterLabel(name)))
            && (n == |name| ==> Labels(name) == [n as byte] + name)
  {
    hide ValidName, Encode, LabelLength, AfterLabel;
    ValidNameParts(name);
    EncodeUnfold(name);
    EncodeEndsInZero(AfterLabel(name));
    EncodeNothing();
    var n, e := LabelLength(name), Encode(AfterLabel(name));
    var head := [n as byte] + name[..n];
    assert AsByte(n) == n as byte;
    assert Encode(name) == head + e;
    assert (head + e)[..|head + e| - 1] == head + e[..|e| - 1];
    if n == |name| {
      AfterWholeLabel(name);
      assert name[..n] == name;
    }
  }

  lemma AfterWholeLabel(name: Bytes)
    requires LabelLength(name) == |name|
    ensures AfterLabel(name) == []
  {
  }

  lemma SliceOfSlice(s: Bytes, a: nat, b: nat, c: nat, d: nat)
    requires c <= d && a + d <= b <= |s|
    ensures s[a..b][c..d] == s[a + c..a + d]
  {
    var one, two := s[a..b][c..d], s[a + c..a + d];
    forall k | 0 <= k < d - c ensures one[k] == two[k] {
      assert one[k] == s[a..b][c + k];
      assert two[k] == s[a + c + k];
    }
  }

  lemma LabelsSlices(lit: Bytes)
    requires ValidName(lit)
    ensures var l, n := Labels(lit), LabelLength(lit);
            && |l| == |lit| + 1 && 1 <= n <= 63 && n <= |lit|
            && l[0] as nat == n && l[1..1 + n] == lit[..n]
            && (n < |lit| ==> l[1 + n..] == Labels(AfterLabel(lit)))
  {
    hide Labels, ValidName, LabelLength, AfterLabel;
    ValidNameParts(lit);
    LabelsParts(lit);
    ValidNameLength(lit);
  }

  /** The octets `l` stand at an offset. */
  ghost predicate Stands(msg: Bytes, off: nat, l: Bytes) {
    off + |l| <= |msg| && msg[off..off + |l|] == l
  }

  lemma StandsIn(msg: Bytes, off: nat, l: Bytes, c: nat, d: nat)
    requires Stands(msg, off, l) && c <= d <= |l|
    ensures Stands(msg, off + c, l[c..d])
  {
    SliceOfSlice(msg, off, off + |l|, c, d);
  }

  /** Literal labels are read as the name they spell, in front of whatever follows. */
  lemma {:induction false} RfcLiteral(msg: Bytes, off: nat, bound: nat, lit: Bytes, rest: Bytes)
    requires ValidName(lit) && Stands(msg, off, Labels(lit))
    requires RfcName(msg, off + |lit| + 1, bound) == Some(rest)
    ensures RfcName(msg, off, bound) == Some(Join(lit, rest))
    decreases |lit|
  {
    hide *;
    ValidNameParts(lit);
    LabelsSlices(lit);
    var n, l := LabelLength(lit), Labels(lit);
    StandsIn(msg, off, l, 1, 1 + n);
    StandsFirst(msg, off, l);
    if n == |lit| {
      assert l[1..1 + n] == lit;
      RfcLabel(msg, off, bound, lit, rest);
    } else {
      var tail := AfterLabel(lit);
      StandsIn(msg, off, l, 1 + n, |l|);
      assert l[1 + n..|l|] == l[1 + n..];
      RfcLiteral(msg, off + 1 + n, bound, tail, rest);
      RfcLabel(msg, off, bound, lit[..n], Join(tail, rest));
      JoinAssociative(lit[..n], tail, rest);
    }
  }

  lemma StandsFirst(msg: Bytes, off: nat, l: Bytes)
    requires Stands(msg, off, l) && l != []
    ensures off < |msg| && msg[off] == l[0]
  {
  }

  /** RFC 1035 decoding of an encoded name gives the name back. */
  lemma RfcRoundTrip(msg: Bytes, off: nat, bound: nat, name: Bytes)
    requires ValidName(name) && Stands(msg, off, Encode(name))
    ensures RfcName(msg, off, bound) == Some(name)
  {
    hide Encode, ValidName;
    ValidNameLength(name);
    EncodeEndsInZero(name);
    var n, e := |name| + 1, Encode(name);
    StandsIn(msg, off, e, 0, n);
    StandsIn(msg, off, e, n, n + 1);
    StandsFirst(msg, off + n, e[n..n + 1]);
    assert e[0..n] == Labels(name);
    RfcLiteral(msg, off, bound, name, []);
  }

  lemma {:induction false} DotBehindLabel(name: Bytes, k: nat)
    requires k < |name| && name[k] == DOT
    ensures LabelLength(name) <= k
  {
    if k > 0 && name[0] != DOT {
      DotBehindLabel(name[1..], k - 1);
    }
  }

  /** The length octet of the label that starts at index s of a name stands at offset s of its encoding. */
  lemma {:induction false} LabelOffset(name: Bytes, s: nat)
    requires ValidName(name) && 0 < s < |name| && name[s - 1] == DOT
    ensures ValidName(name[s..]) && s < |Encode(name)| && Encode(name)[s..] == Encode(name[s..])
    decreases |name|
  {
    hide ValidName, Encode;
    ValidNameParts(name);
    ValidNameLength(name);
    EncodeUnfold(name);
    var n := LabelLength(name);
    DotBehindLabel(name, s - 1);
    var tail := AfterLabel(name);
    BehindFront([AsByte(n)] + name[..n], Encode(tail));
    if s == n + 1 {
      assert name[s..] == tail;
    } else {
      assert tail[s - n - 1 - 1] == DOT;
      LabelOffset(tail, s - n - 1);
      assert tail[s - n - 1..] == name[s..];
      assert Encode(name)[s..] == Encode(tail)[s - n - 1..];
    }
  }
}
