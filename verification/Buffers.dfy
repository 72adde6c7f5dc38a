/** Strings in C buffers: what a NUL ends, strcpy into a buffer, and strtok(NULL, ";") at a cursor into one. */
module Buffers {
  import opened Options
  import opened CStrings

  /** The string in front of the first NUL. */
  function UpToNul(s: string): (r: string)
    ensures NUL !in r && r <= s
    ensures r == s <==> NUL !in s
  {
    if s == "" || s[0] == NUL then "" else [s[0]] + UpToNul(s[1..])
  }

  lemma {:induction false} UpToNulOf(a: string, b: string)
    requires NUL !in a
    ensures UpToNul(a + [NUL] + b) == a
  {
    var s := a + [NUL] + b;
    if a != "" {
      assert s[1..] == a[1..] + [NUL] + b;
      UpToNulOf(a[1..], b);
      assert a == [a[0]] + a[1..];
    }
  }

  /** The string that starts at `at`. */
  function StringAt(buf: string, at: nat): string {
    if at <= |buf| then UpToNul(buf[at..]) else ""
  }

  /** The string `s` and its NUL stand at `at`. */
  ghost predicate Stands(buf: string, at: nat, s: string) {
    && at + |s| < |buf| && buf[at + |s|] == NUL
    && forall k :: 0 <= k < |s| ==> buf[at + k] == s[k] && s[k] != NUL
  }

  lemma StandsString(buf: string, at: nat, s: string)
    requires Stands(buf, at, s)
    ensures at + |s| < |buf| && StringAt(buf, at) == s
  {
    hide UpToNul;
    assert NUL !in s;
    assert buf[at..] == s + [NUL] + buf[at + |s| + 1..];
    UpToNulOf(s, buf[at + |s| + 1..]);
  }

  /** Nothing else is changed between two buffers. */
  ghost predicate SameFrom(a: string, b: string, at: nat) {
    |a| == |b| && forall k :: at <= k < |a| ==> a[k] == b[k]
  }

  lemma StandsSame(a: string, b: string, at: nat, s: string)
    requires Stands(a, at, s) && SameFrom(a, b, at)
    ensures Stands(b, at, s)
  {
  }

  /** strcpy to the start of a buffer; it copies from the front, so that the source may lie in the buffer itself. */
  function Filled(buf: string, s: string): (r: string)
    ensures |r| == if |buf| <= |s| then |s| + 1 else |buf|
    ensures forall k :: 0 <= k < |r| ==> r[k] == if k < |s| then s[k] else if k == |s| then NUL else buf[k]
  {
    s + [NUL] + if |s| + 1 <= |buf| then buf[|s| + 1..] else ""
  }

  lemma FilledStands(buf: string, s: string)
    requires NUL !in s
    ensures Stands(Filled(buf, s), 0, s)
  {
    assert forall k :: 0 <= k < |s| ==> s[k] in s;
  }

  // ---------------------------------------------------------------------------------------------
  // strtok at a cursor
  // ---------------------------------------------------------------------------------------------

  /** The buffer after the call, where the token starts, and where the next call goes on. */
  datatype Cut = Cut(buf: string, start: nat, next: nat)

  function Tok(buf: string, at: nat): Option<Cut> {
    var rest := StringAt(buf, at);
    match Token(rest)
    case None => None
    case Some(t) =>
      var start := at + TokenStart(rest);
      var stop := start + |t|;
      if stop < at + |rest| && stop < |buf| then Some(Cut(buf[stop := NUL], start, stop + 1))
      else Some(Cut(buf, start, stop))
  }

  /** The delimiters in front of a token, the token, a delimiter, and the rest. */
  lemma {:induction false} SkipIsSuffix(s: string)
    ensures |SkipDelims(s)| <= |s| && SkipDelims(s) == s[|s| - |SkipDelims(s)|..]
  {
    if s != "" && s[0] == ';' {
      SkipIsSuffix(s[1..]);
    }
  }

  /** Delimiters, a token, and, if there is a delimiter behind it, the rest. */
  ghost predicate Parts(s: string, start: nat, t: string, rest: string) {
    && t != "" && start + |t| <= |s|
    && (forall k :: 0 <= k < |t| ==> t[k] == s[start + k])
    && (start + |t| == |s| ==> rest == "")
    && (start + |t| < |s| ==> |rest| == |s| - start - |t| - 1)
    && forall k :: 0 <= k < |rest| ==> rest[k] == s[start + |t| + 1 + k]
  }

  lemma TokenParts(s: string)
    requires Token(s).Some?
    ensures Parts(s, TokenStart(s), Token(s).value, AfterToken(s))
  {
    var r := SkipDelims(s);
    FieldNotEmpty(r);
    SkipIsSuffix(s);
    SuffixAt(s, r);
    FieldParts(r, FieldLength(r));
    PartsOf(s, r, FieldLength(r));
  }

  lemma PartsOf(s: string, r: string, n: nat)
    requires 0 < n <= |r| <= |s| && forall k :: 0 <= k < |r| ==> r[k] == s[|s| - |r| + k]
    ensures Parts(s, |s| - |r|, r[..n], if n < |r| then r[n + 1..] else "")
  {
  }

  lemma FieldParts(r: string, n: nat)
    requires n <= |r|
    ensures |r[..n]| == n && forall k :: 0 <= k < n ==> r[..n][k] == r[k]
    ensures n < |r| ==> Behind(r, r[n + 1..], n + 1)
  {
  }

  ghost predicate Behind(s: string, rest: string, at: nat) {
    at + |rest| == |s| && forall k :: 0 <= k < |rest| ==> rest[k] == s[at + k]
  }

  lemma SuffixAt(s: string, r: string)
    requires |r| <= |s| && r == s[|s| - |r|..]
    ensures forall k :: 0 <= k < |r| ==> r[k] == s[|s| - |r| + k]
  {
  }

  lemma FieldNotEmpty(s: string)
    requires s != "" && s[0] != ';'
    ensures FieldLength(s) > 0
  {
  }

  /** Where a token that starts there ends. */
  function Stop(at: nat, s: string, t: string): nat {
    at + TokenStart(s) + |t|
  }

  /** Where the next call goes on, if this is what it leaves. */
  function NextAt(at: nat, s: string, rest: string): nat
    requires |rest| <= |s|
  {
    at + |s| - |rest|
  }

  lemma NextAtIs(s: string, rest: string)
    requires |rest| <= |s|
    ensures NextAt(0, s, rest) == |s| - |rest|
  {
  }

  /** A call on the string s finds its token t and leaves the rest; it writes one byte at most. */
  lemma TokIs(buf: string, at: nat, s: string, t: string, rest: string)
    requires Stands(buf, at, s) && Token(s) == Some(t) && AfterToken(s) == rest
    ensures |rest| <= |s| && Stop(at, s, t) < |buf|
    ensures Tok(buf, at) == Some(Cut(buf[Stop(at, s, t) := NUL], at + TokenStart(s), NextAt(at, s, rest)))
  {
    StandsString(buf, at, s);
    TokenParts(s);
    hide StringAt, Token, TokenStart, AfterToken;
    var stop := Stop(at, s, t);
    assert stop <= at + |s|;
    if stop == at + |s| {
      assert buf[stop := NUL] == buf;
    }
  }

  /** The token stands in the buffer then. */
  lemma TokText(buf: string, at: nat, s: string, t: string)
    requires Stands(buf, at, s) && Token(s) == Some(t)
    ensures Stop(at, s, t) < |buf| && Stands(buf[Stop(at, s, t) := NUL], at + TokenStart(s), t)
  {
    TokenParts(s);
    hide Token, TokenStart, AfterToken;
    CutStands(buf, at, s, TokenStart(s), t, AfterToken(s));
  }

  /** And the rest stands at the cursor. */
  lemma TokRest(buf: string, at: nat, s: string, t: string, rest: string)
    requires Stands(buf, at, s) && Token(s) == Some(t) && AfterToken(s) == rest
    ensures Stop(at, s, t) < |buf| && |rest| <= |s|
    ensures Stands(buf[Stop(at, s, t) := NUL], NextAt(at, s, rest), rest)
  {
    TokenParts(s);
    hide Token, TokenStart, AfterToken;
    CutStands(buf, at, s, TokenStart(s), t, rest);
  }

  lemma CutStands(buf: string, at: nat, s: string, start: nat, t: string, rest: string)
    requires Stands(buf, at, s) && Parts(s, start, t, rest)
    ensures var b := at + start + |t|;
            && b < |buf| && |rest| <= at + |s|
            && Stands(buf[b := NUL], at + start, t) && Stands(buf[b := NUL], at + |s| - |rest|, rest)
  {
    var stop := at + start + |t|;
    var b := buf[stop := NUL];
    forall k | 0 <= k < |t| ensures b[at + start + k] == t[k] && t[k] != NUL {
      assert buf[at + (start + k)] == s[start + k];
    }
    if start + |t| < |s| {
      forall k | 0 <= k < |rest| ensures b[stop + 1 + k] == rest[k] && rest[k] != NUL {
        assert buf[at + (start + |t| + 1 + k)] == s[start + |t| + 1 + k];
      }
    }
  }

  lemma TokNothing(buf: string, at: nat)
    ensures Tok(buf, at).None? <==> Token(StringAt(buf, at)).None?
  {
  }

  lemma TokAtEnd(buf: string, at: nat)
    requires Stands(buf, at, "")
    ensures Tok(buf, at).None?
  {
    StandsString(buf, at, "");
    hide StringAt;
  }

  /** strtok returns NULL exactly when only delimiters are left. */
  lemma {:induction false} NoTokenIff(s: string)
    ensures Token(s).None? <==> forall k :: 0 <= k < |s| ==> s[k] == ';'
  {
    if s != "" && s[0] == ';' {
      NoTokenIff(s[1..]);
      assert forall k :: 1 <= k < |s| ==> s[k] == s[1..][k - 1];
    }
  }
}
