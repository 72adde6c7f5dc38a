/** The answer-name printer and the query builder of the DNS client (Assignment-2/dns_client.c) against RFC 1035. */
module DnsAnswer {
  import opened Options
  import opened Octets
  import opened DnsName

  // ---------------------------------------------------------------------------------------------
  // The printing loop
  // ---------------------------------------------------------------------------------------------

  /** The response buffer is zeroed before the answer is read into it. */
  function OctetAt(d: Bytes, i: nat): byte {
    if i < |d| then d[i] else 0
  }

  function OctetsAt(d: Bytes, i: nat, n: nat): (r: Bytes)
    ensures |r| == n && forall k :: 0 <= k < n ==> r[k] == OctetAt(d, i + k)
  {
    seq(n, k requires 0 <= k < n => OctetAt(d, i + k))
  }

  function Behind(d: Bytes, n: nat): Bytes {
    if n < |d| then d[n..] else []
  }

  /** Where a backward scan for a dot stops. */
  function ScanBack(name: Bytes, j: nat, low: nat): (r: nat)
    ensures r <= j
    ensures j >= low ==> r >= low
    ensures forall k :: r < k <= j && k < |name| ==> name[k] != DOT
    ensures r > low ==> r < |name| && name[r] == DOT
  {
    if j > low && !(j < |name| && name[j] == DOT) then ScanBack(name, j - 1, low) else j
  }

  /** What is printed for a pointer to offset 16: the query name from behind the dot that two backward scans find. */
  function Suffix(name: Bytes): Bytes
  {
    if name == [] then [] else name[ScanBack(name, ScanBack(name, |name|, 1) - 1, 0) + 1..]
  }

  /** What the loop prints for answer data `d` when `name` was asked for. */
  function Printed(d: Bytes, name: Bytes): Bytes
    decreases |d|
  {
    if d == [] then []
    else if d[0] == 192 && OctetAt(d, 1) == 12 then name
    else if d[0] == 192 && OctetAt(d, 1) == 16 then Suffix(name)
    else
      var n := d[0] as nat;
      var rest := Behind(d, n + 1);
      OctetsAt(d, 1, n) + if OctetAt(rest, 0) == 0 then [] else [DOT] + Printed(rest, name)
  }

  /** What is printed behind a label. */
  function Continued(rest: Bytes, name: Bytes): Bytes
  {
    if OctetAt(rest, 0) == 0 then [] else [DOT] + Printed(rest, name)
  }

  /** For the empty name the second scan looks in front of it, stops there at once, and the empty name is printed. */
  method PrintSuffix(name: Bytes) returns (out: Bytes)
    ensures out == Suffix(name)
  {
    if name == [] {
      return [];
    }
    var j: nat := |name|;
    while !(j < |name| && name[j] == DOT) && j > 1
      invariant 1 <= j <= |name| && ScanBack(name, j, 1) == ScanBack(name, |name|, 1)
    {
      j := j - 1;
    }
    j := j - 1;
    ghost var start := j;
    while name[j] != DOT && j > 0
      invariant 0 <= j <= start < |name| && ScanBack(name, j, 0) == ScanBack(name, start, 0)
      decreases j
    {
      j := j - 1;
    }
    return name[j + 1..];
  }

  lemma PrintedUnfold(d: Bytes, name: Bytes)
    requires d != []
    ensures d[0] == 192 && OctetAt(d, 1) == 12 ==> Printed(d, name) == name
    ensures d[0] == 192 && OctetAt(d, 1) == 16 ==> Printed(d, name) == Suffix(name)
    ensures !(d[0] == 192 && (OctetAt(d, 1) == 12 || OctetAt(d, 1) == 16)) ==>
              Printed(d, name)
              == OctetsAt(d, 1, d[0] as nat) + Continued(Behind(d, d[0] as nat + 1), name)
  {
    hide Suffix, OctetsAt, Behind, OctetAt;
  }

  lemma PrintedFrom(d: Bytes, i: nat, name: Bytes)
    requires i < |d|
    ensures d[i] == 192 && OctetAt(d, i + 1) == 12 ==> Printed(Behind(d, i), name) == name
    ensures d[i] == 192 && OctetAt(d, i + 1) == 16 ==> Printed(Behind(d, i), name) == Suffix(name)
    ensures !(d[i] == 192 && (OctetAt(d, i + 1) == 12 || OctetAt(d, i + 1) == 16)) ==>
              Printed(Behind(d, i), name)
              == OctetsAt(d, i + 1, d[i] as nat) + Continued(Behind(d, i + 1 + d[i] as nat), name)
  {
    hide Printed, Suffix, Continued;
    var rest, n := Behind(d, i), d[i] as nat;
    assert rest[0] == d[i];
    OctetBehind(d, i, 1);
    OctetsBehind(d, i, 1, n);
    BehindBehind(d, i, n + 1);
    PrintedUnfold(rest, name);
  }

  lemma OctetBehind(d: Bytes, i: nat, k: nat)
    ensures OctetAt(Behind(d, i), k) == OctetAt(d, i + k)
  {
  }

  lemma OctetsBehind(d: Bytes, i: nat, k: nat, n: nat)
    ensures OctetsAt(Behind(d, i), k, n) == OctetsAt(d, i + k, n)
  {
    hide OctetAt, Behind;
    var one, two := OctetsAt(Behind(d, i), k, n), OctetsAt(d, i + k, n);
    forall j | 0 <= j < n ensures one[j] == two[j] {
      OctetBehind(d, i, k + j);
    }
  }

  lemma BehindBehind(d: Bytes, i: nat, n: nat)
    ensures Behind(Behind(d, i), n) == Behind(d, i + n)
  {
  }

  method PrintAnswer(d: Bytes, name: Bytes) returns (out: Bytes)
    ensures out == Printed(d, name)
  {
    hide Printed, Suffix, OctetsAt, Behind, Continued;
    out := [];
    var i: nat := 0;
    PrintedNothing(name);
    WholeBehind(d);
    while i < |d|
      invariant out + Printed(Behind(d, i), name) == Printed(d, name)
    {
      PrintedFrom(d, i, name);
      ContinuedIs(d, i + 1 + d[i] as nat, name);
      var len := d[i] as nat;
      if len == 192 && OctetAt(d, i + 1) == 12 {
        out := out + name;
        return;
      } else if len == 192 && OctetAt(d, i + 1) == 16 {
        var s := PrintSuffix(name);
        out := out + s;
        return;
      } else {
        out := CopyLabel(d, i, len, out);
        i := i + 1 + len;
        if OctetAt(d, i) == 0 {
          return;
        }
        out := out + [DOT];
      }
    }
    WholeBehind(d);
  }

  lemma ContinuedIs(d: Bytes, i: nat, name: Bytes)
    ensures OctetAt(d, i) == 0 ==> Continued(Behind(d, i), name) == []
    ensures OctetAt(d, i) != 0 ==> Continued(Behind(d, i), name) == [DOT] + Printed(Behind(d, i), name)
  {
    OctetBehind(d, i, 0);
    hide Printed, Behind, OctetAt;
  }

  lemma WholeBehind(d: Bytes)
    ensures Behind(d, 0) == d && forall i :: i >= |d| ==> Behind(d, i) == []
  {
  }

  lemma PrintedNothing(name: Bytes)
    ensures Printed([], name) == []
  {
  }

  method CopyLabel(d: Bytes, i: nat, len: nat, before: Bytes) returns (out: Bytes)
    ensures out == before + OctetsAt(d, i + 1, len)
  {
    out := before;
    for j := 1 to len + 1
      invariant out == before + OctetsAt(d, i + 1, len)[..j - 1]
    {
      assert OctetsAt(d, i + 1, len)[..j] == OctetsAt(d, i + 1, len)[..j - 1] + [OctetAt(d, i + j)];
      out := out + [OctetAt(d, i + j)];
    }
  }

  // ---------------------------------------------------------------------------------------------
  // Literal names
  // ---------------------------------------------------------------------------------------------

  lemma PrintedLabel(d: Bytes, name: Bytes, text: Bytes, rest: Bytes)
    requires 1 <= |text| <= 63 && d == [|text| as byte] + text + rest
    ensures Printed(d, name) == text + Continued(rest, name)
  {
    hide Suffix;
    assert OctetsAt(d, 1, |text|) == text;
    assert Behind(d, |text| + 1) == rest;
  }

  /** The loop prints literal labels as the name they spell, and goes on with what follows. */
  lemma {:induction false} PrintedLiteral(lit: Bytes, rest: Bytes, name: Bytes)
    requires ValidName(lit)
    ensures Printed(Labels(lit) + rest, name) == lit + Continued(rest, name)
    decreases |lit|
  {
    hide *;
    ValidNameParts(lit);
    LabelsParts(lit);
    var n := LabelLength(lit);
    if n == |lit| {
      assert Labels(lit) + rest == [n as byte] + lit + rest;
      PrintedLabel(Labels(lit) + rest, name, lit, rest);
    } else {
      var tail := AfterLabel(lit);
      var after := Labels(tail) + rest;
      Associative([n as byte] + lit[..n], Labels(tail), rest);
      PrintedLabel(Labels(lit) + rest, name, lit[..n], after);
      ContinuedLabels(tail, rest, name);
      PrintedLiteral(tail, rest, name);
      JoinedWith(lit[..n], tail, Continued(rest, name));
    }
  }

  lemma JoinedWith(a: Bytes, b: Bytes, c: Bytes)
    requires b != []
    ensures a + ([DOT] + (b + c)) == Join(a, b) + c
  {
    Associative(a, [DOT], b);
    Associative(a, [DOT] + b, c);
    Associative([DOT], b, c);
  }

  lemma ContinuedLabels(lit: Bytes, rest: Bytes, name: Bytes)
    requires ValidName(lit)
    ensures Continued(Labels(lit) + rest, name) == [DOT] + Printed(Labels(lit) + rest, name)
  {
    hide Printed, ValidName, Labels, LabelLength, AfterLabel;
    ValidNameParts(lit);
    LabelsParts(lit);
  }

  lemma EncodeIsLabels(name: Bytes)
    ensures Encode(name) == Labels(name) + [0]
  {
    EncodeEndsInZero(name);
  }

  /** Host name round trip: the printing loop, run on the encoder's output, prints the name, whatever was asked for. */
  lemma HostNameRoundTrip(name: Bytes, asked: Bytes)
    requires ValidName(name)
    ensures Printed(Encode(name), asked) == name
  {
    EncodeIsLabels(name);
    PrintedLiteral(name, [0], asked);
  }

  /** So the encoder maps different host names to different octets. */
  lemma EncodeInjective(a: Bytes, b: Bytes)
    requires ValidName(a) && ValidName(b) && Encode(a) == Encode(b)
    ensures a == b
  {
    HostNameRoundTrip(a, a);
    HostNameRoundTrip(b, a);
  }

  // ---------------------------------------------------------------------------------------------
  // Pointers
  // ---------------------------------------------------------------------------------------------

  /** A response that echoes the question: 12 octets of header, the name, and the question's type and class. */
  ghost predicate Echoes(msg: Bytes, name: Bytes) {
    Stands(msg, HEADER_SIZE, Encode(name))
  }

  /** A pointer to offset 12 is the whole query name; one to 12 + s is the part of it from index s on, if a label
      starts there. */
  lemma PointerTarget(msg: Bytes, name: Bytes, s: nat, bound: nat)
    requires ValidName(name) && Echoes(msg, name)
    requires s == 0 || (s < |name| && name[s - 1] == DOT)
    ensures s <= |name| && RfcName(msg, HEADER_SIZE + s, bound) == Some(name[s..])
  {
    hide RfcName, Encode, ValidName, LabelLength, Stands;
    ValidNameLength(name);
    assert Stands(msg, HEADER_SIZE, Encode(name));
    if s == 0 {
      assert name[0..] == name;
    } else {
      LabelOffset(name, s);
      StandsIn(msg, HEADER_SIZE, Encode(name), s, |name| + 2);
      assert Encode(name)[s..|name| + 2] == Encode(name)[s..];
    }
    RfcRoundTrip(msg, HEADER_SIZE + s, bound, name[s..]);
  }

  /** Labels without their zero octet; none for the empty text. */
  function Literal(lit: Bytes): Bytes {
    if lit == [] then [] else Labels(lit)
  }

  /** A pointer, RFC 1035, section 4.1.4: two bits set, then the offset in 14 bits. */
  function Pointer(target: nat): (r: Bytes)
    requires target < 0x4000
    ensures |r| == 2 && r[0] as nat >= 192 && (r[0] as nat - 192) * 256 + r[1] as nat == target
    ensures r[0] == 192 && r[1] == 12 <==> target == 12
    ensures r[0] == 192 && r[1] == 16 <==> target == 16
  {
    [(192 + target / 256) as byte, (target % 256) as byte]
  }

  /** The answer name that stands behind offset `off`: literal labels, if any, and a pointer into the question. */
  ghost predicate PointsAt(msg: Bytes, off: nat, lit: Bytes, target: nat) {
    && target < 0x4000
    && (lit == [] || ValidName(lit))
    && HEADER_SIZE + 4 < off <= |msg|
    && exists rest: Bytes :: msg[off..] == Literal(lit) + (Pointer(target) + rest)
  }

  lemma PointerOctets(msg: Bytes, off: nat, labels: Bytes, target: nat, rest: Bytes)
    requires target < 0x4000 && off <= |msg| && msg[off..] == labels + (Pointer(target) + rest)
    ensures off + |labels| + 2 <= |msg| && Stands(msg, off, labels)
    ensures msg[off + |labels|] == Pointer(target)[0] && msg[off + |labels| + 1] == Pointer(target)[1]
  {
    var seen, n := msg[off..], |labels|;
    assert |seen| == n + 2 + |rest|;
    assert seen[n] == msg[off + n] && seen[n + 1] == msg[off + n + 1];
    assert seen[..n] == labels;
    assert msg[off..off + n] == seen[..n];
  }

  function LiteralLength(lit: Bytes): nat {
    if lit == [] then 0 else |lit| + 1
  }

  lemma LiteralIs(lit: Bytes)
    requires lit == [] || ValidName(lit)
    ensures |Literal(lit)| == LiteralLength(lit)
    ensures lit != [] ==> Literal(lit) == Labels(lit) && LiteralLength(lit) == |lit| + 1
    ensures lit == [] ==> Literal(lit) == [] && LiteralLength(lit) == 0
  {
    hide Labels, ValidName;
    if lit != [] { ValidNameLength(lit); }
  }

  lemma PointsBehind(msg: Bytes, off: nat, lit: Bytes, target: nat)
    requires PointsAt(msg, off, lit, target)
    ensures target < 0x4000 && 16 < off <= |msg| && off + LiteralLength(lit) + 2 <= |msg|
    ensures lit != [] ==> LiteralLength(lit) == |lit| + 1 && ValidName(lit)
                          && Stands(msg, off, Labels(lit))
    ensures lit == [] ==> LiteralLength(lit) == 0
    ensures var at := off + LiteralLength(lit); msg[at] == Pointer(target)[0] && msg[at + 1] == Pointer(target)[1]
  {
    hide Labels, ValidName, Literal, LiteralLength;
    LiteralIs(lit);
    var rest: Bytes :| msg[off..] == Literal(lit) + (Pointer(target) + rest);
    PointerOctets(msg, off, Literal(lit), target, rest);
  }

  lemma RfcFollows(msg: Bytes, at: nat, bound: nat, target: nat)
    requires target < 0x4000 && target < bound
    requires at + 1 < |msg| && msg[at] == Pointer(target)[0] && msg[at + 1] == Pointer(target)[1]
    ensures RfcName(msg, at, bound) == RfcName(msg, target, target)
  {
  }

  /** What RFC 1035 reads for such a name. */
  lemma RfcPointer(msg: Bytes, off: nat, lit: Bytes, target: nat, name: Bytes)
    requires PointsAt(msg, off, lit, target) && target < off && name != []
    requires RfcName(msg, target, target) == Some(name)
    ensures RfcName(msg, off, off) == Some(if lit == [] then name else Join(lit, name))
  {
    hide *;
    PointsBehind(msg, off, lit, target);
    var n := LiteralLength(lit);
    RfcFollows(msg, off + n, off, target);
    if lit != [] {
      RfcLiteral(msg, off, off, lit, name);
    }
  }

  /** What the client prints for such a name. */
  lemma PrintedPointer(msg: Bytes, off: nat, lit: Bytes, target: nat, name: Bytes)
    requires PointsAt(msg, off, lit, target) && (target == 12 || target == 16)
    ensures Printed(msg[off..], name) == OneName(lit, if target == 12 then name else Suffix(name))
  {
    hide Printed, Labels, ValidName, Suffix, Join;
    var rest: Bytes :| msg[off..] == Literal(lit) + (Pointer(target) + rest);
    var tail := Pointer(target) + rest;
    PrintedAtPointer(tail, target, name);
    if lit == [] {
      assert [] + tail == tail;
    } else {
      PrintedLiteral(lit, tail, name);
      Associative(lit, [DOT], Printed(tail, name));
    }
  }

  function OneName(lit: Bytes, end: Bytes): Bytes {
    if lit == [] then end else lit + [DOT] + end
  }

  lemma PrintedAtPointer(d: Bytes, target: nat, name: Bytes)
    requires target < 0x4000 && |d| >= 2 && d[0] == Pointer(target)[0] && d[1] == Pointer(target)[1] && (target == 12 || target == 16)
    ensures Printed(d, name) == if target == 12 then name else Suffix(name)
  {
    hide Suffix;
  }

  /** A pointer to offset 12, alone or behind literal labels, is printed as RFC 1035 reads it, for every host name. */
  lemma WholeNamePointer(msg: Bytes, off: nat, lit: Bytes, name: Bytes)
    requires ValidName(name) && Echoes(msg, name) && PointsAt(msg, off, lit, 12)
    ensures RfcName(msg, off, off) == Some(Printed(msg[off..], name))
  {
    hide RfcName, Printed, PointsAt, Encode, ValidName, Suffix, Stands, Echoes;
    NameNotEmpty(name);
    PointsBehind(msg, off, lit, 12);
    PointerTarget(msg, name, 0, 12);
    assert name[0..] == name;
    RfcPointer(msg, off, lit, 12, name);
    PrintedPointer(msg, off, lit, 12, name);
  }

  lemma NameNotEmpty(name: Bytes)
    requires ValidName(name)
    ensures name != []
  {
  }

  lemma {:induction false} ValidNameStarts(name: Bytes)
    requires ValidName(name)
    ensures name != [] && name[0] != DOT
  {
  }

  lemma NoDoubleDot(name: Bytes, k: nat)
    requires ValidName(name) && k + 1 < |name| && name[k] == DOT
    ensures name[k + 1] != DOT
  {
    hide ValidName, Encode;
    LabelOffset(name, k + 1);
    ValidNameStarts(name[k + 1..]);
  }

  /** The last dot behind index 0, or index 1, and the dot in front of it, or index 0. */
  ghost predicate LastDots(name: Bytes, a: nat, b: nat) {
    && 1 <= a <= |name| && b < a
    && (forall k :: a < k < |name| ==> name[k] != DOT) && (a > 1 ==> a < |name| && name[a] == DOT)
    && (forall k :: b < k < a ==> name[k] != DOT) && (b > 0 ==> name[b] == DOT)
  }

  /** The two scans stop there. */
  lemma SuffixStart(name: Bytes) returns (a: nat, b: nat)
    requires name != []
    ensures LastDots(name, a, b) && Suffix(name) == name[b + 1..]
  {
    a := ScanBack(name, |name|, 1);
    b := ScanBack(name, a - 1, 0);
  }

  /** There is exactly one dot in name[4..]. */
  ghost predicate OneDotBehind4(name: Bytes) {
    exists k :: OnlyDot(name, k)
  }

  ghost predicate OnlyDot(name: Bytes, k: int) {
    4 <= k < |name| && name[k] == DOT && forall i :: 4 <= i < |name| && i != k ==> name[i] != DOT
  }

  /** The two backward scans print name[4..], where the label behind a first one of three characters starts, exactly
      when there are two labels from there on. */
  lemma SuffixIff(name: Bytes)
    requires ValidName(name) && 4 < |name| && name[3] == DOT
    ensures Suffix(name) == name[4..] <==> OneDotBehind4(name)
  {
    hide *;
    var a, b := SuffixStart(name);
    assert Suffix(name) == name[4..] <==> b == 3 by {
      assert |name[b + 1..]| == |name[4..]| <==> b == 3;
    }
    if OneDotBehind4(name) {
      assert name[4] != DOT by { NoDoubleDot(name, 3); }
      DotsAre(name, a, b);
    }
    if b == 3 {
      DotIsOnly(name, a);
    }
  }

  lemma DotsAre(name: Bytes, a: nat, b: nat)
    requires LastDots(name, a, b) && OneDotBehind4(name) && name[3] == DOT
    ensures b == 3
  {
    var k :| OnlyDot(name, k);
    assert a == k;
  }

  lemma DotIsOnly(name: Bytes, a: nat)
    requires LastDots(name, a, 3)
    ensures OneDotBehind4(name)
  {
    assert OnlyDot(name, a);
  }

  /** A pointer to offset 16, where a label of the question starts, is printed as RFC 1035 reads it exactly when that
      label is the last but one. */
  lemma SuffixPointerIff(msg: Bytes, off: nat, lit: Bytes, name: Bytes)
    requires ValidName(name) && Echoes(msg, name) && PointsAt(msg, off, lit, 16)
    requires 4 < |name| && name[3] == DOT
    ensures RfcName(msg, off, off) == Some(Printed(msg[off..], name)) <==> OneDotBehind4(name)
  {
    hide RfcName, Printed, PointsAt, Encode, ValidName, Suffix, OneDotBehind4;
    PointsBehind(msg, off, lit, 16);
    PointerTarget(msg, name, 4, 16);
    RfcPointer(msg, off, lit, 16, name[4..]);
    PrintedPointer(msg, off, lit, 16, name);
    SuffixIff(name);
    if lit != [] {
      assert lit + [DOT] + name[4..] == (lit + [DOT]) + name[4..];
      assert forall x: Bytes :: (lit + [DOT] + x)[|lit| + 1..] == x;
    }
  }

  lemma PrintedAtOther(d: Bytes, target: nat, name: Bytes)
    requires target < 0x4000 && |d| >= 2 && d[0] == Pointer(target)[0] && d[1] == Pointer(target)[1] && target != 12 && target != 16
    ensures |Printed(d, name)| >= 192
  {
    hide Printed, Suffix, Continued;
    PrintedUnfold(d, name);
  }

  /** A pointer to any other offset is taken for a label of 192 octets or more. */
  lemma OtherPointer(msg: Bytes, off: nat, lit: Bytes, target: nat, name: Bytes)
    requires PointsAt(msg, off, lit, target) && target != 12 && target != 16
    ensures |Printed(msg[off..], name)| >= 192 + |OneName(lit, [])|
  {
    hide Printed, Labels, ValidName, Suffix, Join;
    var rest: Bytes :| msg[off..] == Literal(lit) + (Pointer(target) + rest);
    var tail := Pointer(target) + rest;
    PrintedAtOther(tail, target, name);
    if lit == [] {
      assert [] + tail == tail;
    } else {
      PrintedLiteral(lit, tail, name);
    }
  }

  /** A pointer into the question, to where a label starts, alone or behind literal labels, is printed as RFC 1035 reads
      it exactly when it points to the whole name, or behind a first label of three characters that two labels
      follow. */
  lemma PointerIff(msg: Bytes, off: nat, lit: Bytes, name: Bytes, s: nat)
    requires ValidName(name) && Echoes(msg, name)
    requires s == 0 || (s < |name| && name[s - 1] == DOT)
    requires HEADER_SIZE + s < off && |name| - s < 192
    requires PointsAt(msg, off, lit, HEADER_SIZE + s)
    ensures RfcName(msg, off, off) == Some(Printed(msg[off..], name)) <==> s == 0 || (s == 4 && OneDotBehind4(name))
  {
    hide RfcName, Printed, PointsAt, Encode, ValidName, Suffix, OneDotBehind4, Stands, Echoes;
    if s == 0 {
      WholeNamePointer(msg, off, lit, name);
    } else if s == 4 {
      SuffixPointerIff(msg, off, lit, name);
    } else {
      var target := HEADER_SIZE + s;
      PointerTarget(msg, name, s, HEADER_SIZE + s);
      PointsBehind(msg, off, lit, target);
      RfcPointer(msg, off, lit, target, name[s..]);
      OtherPointer(msg, off, lit, target, name);
    }
  }

  /** The case that fails first: two labels, the first of three characters. */
  lemma TwoLabelSuffixFails()
    ensures var name: Bytes := [97, 98, 99, 46, 99, 111, 109];
            ValidName(name) && Suffix(name) == [98, 99, 46, 99, 111, 109] && Suffix(name) != name[4..]
  {
    var name: Bytes := [97, 98, 99, 46, 99, 111, 109];
    var tail: Bytes := [99, 111, 109];
    LabelLengthIs(name, 3);
    assert name[4..] == tail;
    LabelLengthIs(tail, 3);
    var a, b := SuffixStart(name);
    assert a == 3;
    assert b == 0;
  }

  lemma LabelLengthIs(s: Bytes, n: nat)
    requires n <= |s| && (forall k :: 0 <= k < n ==> s[k] != DOT) && (n < |s| ==> s[n] == DOT)
    ensures LabelLength(s) == n
  {
    var m := LabelLength(s);
  }

  // ---------------------------------------------------------------------------------------------
  // Where the answer's data starts
  // ---------------------------------------------------------------------------------------------

  /** RFC 1035, section 4.1.4: where a name field ends, at its zero octet or its first pointer. */
  function NameEnd(msg: Bytes, off: nat): Option<nat>
    decreases |msg| - off
  {
    if off >= |msg| then None
    else if msg[off] == 0 then Some(off + 1)
    else if msg[off] < 64 then NameEnd(msg, off + 1 + msg[off] as nat)
    else if msg[off] >= 192 && off + 1 < |msg| then Some(off + 2)
    else None
  }

  /** Behind the question's name, type and class come the answer's name, type, class, time to live and data length. */
  function RdataOffset(msg: Bytes): Option<nat> {
    match NameEnd(msg, HEADER_SIZE)
    case None => None
    case Some(question) =>
      match NameEnd(msg, question + 4)
      case None => None
      case Some(owner) => Some(owner + 10)
  }

  /** Where the client looks for the data. */
  function ClientOffset(name: Bytes): nat {
    HEADER_SIZE + (|name| + 2) + 4 + 12
  }

  lemma {:induction false} EncodedEnd(msg: Bytes, off: nat, name: Bytes)
    requires ValidName(name) && Stands(msg, off, Encode(name))
    ensures NameEnd(msg, off) == Some(off + |name| + 2)
    decreases |name|
  {
    hide ValidName, LabelLength, AfterLabel, Encode, Stands;
    ValidNameParts(name);
    ValidNameLength(name);
    EncodeUnfold(name);
    var n, e := LabelLength(name), Encode(name);
    StandsFirst(msg, off, e);
    StandsIn(msg, off, e, 1 + n, |e|);
    BehindFront([AsByte(n)] + name[..n], Encode(AfterLabel(name)));
    if n < |name| {
      EncodedEnd(msg, off + 1 + n, AfterLabel(name));
    } else {
      AfterWholeLabel(name);
      EncodeNothing();
      StandsFirst(msg, off + 1 + n, [0]);
    }
  }

  lemma NameEndBehind(msg: Bytes, off: nat)
    ensures NameEnd(msg, off).Some? ==> off < NameEnd(msg, off).value <= |msg|
    decreases |msg| - off
  {
  }

  /** When the question is echoed, the client finds the answer's data exactly when the answer starts with a pointer. */
  lemma ClientOffsetIff(msg: Bytes, name: Bytes)
    requires ValidName(name) && Echoes(msg, name)
    ensures var at := HEADER_SIZE + |name| + 2 + 4;
            RdataOffset(msg) == Some(ClientOffset(name)) <==> at + 1 < |msg| && msg[at] >= 192
  {
    hide ValidName, Encode;
    EncodedEnd(msg, HEADER_SIZE, name);
    var at := HEADER_SIZE + |name| + 2 + 4;
    if at < |msg| {
      NameEndBehind(msg, at + 1 + msg[at] as nat);
    }
  }

  // ---------------------------------------------------------------------------------------------
  // The query
  // ---------------------------------------------------------------------------------------------

  const CLASS_IN: nat := 1

  /** Two octets in network order. */
  function Short(n: nat): Bytes
    requires n < 65536
  {
    [(n / 256) as byte, (n % 256) as byte]
  }

  function ReadShort(d: Bytes, i: nat): nat {
    OctetAt(d, i) as nat * 256 + OctetAt(d, i + 1) as nat
  }

  /** RFC 1035, section 4.1.1: identifier, flags with only RD set, one question, no records. */
  function Header(id: nat): Bytes
    requires id < 65536
  {
    Short(id) + [1, 0] + Short(1) + Short(0) + Short(0) + Short(0)
  }

  function Query(id: nat, name: Bytes, qtype: nat): Bytes
    requires id < 65536 && qtype < 65536
  {
    Header(id) + Encode(name) + (Short(qtype) + Short(CLASS_IN))
  }

  method PrepareQuery(buf: array<byte>, name: Bytes, qtype: nat, id: nat) returns (size: nat)
    requires id < 65536 && qtype < 65536 && HEADER_SIZE + |name| + 2 + 4 <= buf.Length
    modifies buf
    ensures size == |Query(id, name, qtype)| <= buf.Length
    ensures buf[..size] == Query(id, name, qtype)
  {
    hide Encode;
    EncodedLengthIff(name);
    InitHeader(buf, id);
    size := HEADER_SIZE;
    var domain := new byte[|name| + 2](_ => 0);
    var dqlen := ChangeHostNameToDnsFormat(name, domain);
    CopyInto(buf, size, domain[..dqlen]);
    size := size + dqlen;
    CopyInto(buf, size, Short(qtype));
    CopyInto(buf, size + 2, Short(CLASS_IN));
    size := size + 4;
  }

  method InitHeader(buf: array<byte>, id: nat)
    requires id < 65536 && HEADER_SIZE <= buf.Length
    modifies buf
    ensures buf[..HEADER_SIZE] == Header(id)
  {
    buf[0], buf[1] := (id / 256) as byte, (id % 256) as byte;
    buf[2], buf[3] := 1, 0;
    buf[4], buf[5] := 0, 1;
    buf[6], buf[7] := 0, 0;
    buf[8], buf[9] := 0, 0;
    buf[10], buf[11] := 0, 0;
  }

  /** memcpy. */
  method CopyInto(buf: array<byte>, at: nat, data: Bytes)
    requires at + |data| <= buf.Length
    modifies buf
    ensures buf[..at + |data|] == old(buf[..at]) + data
  {
    var k := 0;
    while k < |data|
      invariant 0 <= k <= |data| && buf[..at + k] == old(buf[..at]) + data[..k]
    {
      buf[at + k] := data[k];
      k := k + 1;
      assert data[..k] == data[..k - 1] + [data[k - 1]];
    }
  }

  lemma StandsBetween(a: Bytes, l: Bytes, c: Bytes)
    ensures Stands(a + l + c, |a|, l)
  {
  }

  /** The query is the RFC 1035 message that asks this question: its fields read back as they were set, the name
      decodes to the host name, and type and class stand right behind it. Its length is 12 + strlen + 2 + 4. */
  lemma QueryIsRfc(id: nat, name: Bytes, qtype: nat)
    requires id < 65536 && qtype < 65536 && ValidName(name)
    ensures var q := Query(id, name, qtype);
            && |q| == HEADER_SIZE + |name| + 2 + 4
            && ReadShort(q, 0) == id && q[2] == 1 && q[3] == 0
            && ReadShort(q, 4) == 1 && ReadShort(q, 6) == 0 && ReadShort(q, 8) == 0 && ReadShort(q, 10) == 0
            && RfcName(q, HEADER_SIZE, HEADER_SIZE) == Some(name)
            && ReadShort(q, HEADER_SIZE + |name| + 2) == qtype
            && ReadShort(q, HEADER_SIZE + |name| + 4) == CLASS_IN
  {
    hide Encode, RfcName, ValidName;
    ValidNameLength(name);
    var q := Query(id, name, qtype);
    StandsBetween(Header(id), Encode(name), Short(qtype) + Short(CLASS_IN));
    RfcRoundTrip(q, HEADER_SIZE, HEADER_SIZE, name);
  }
}
