/** The shell's line splitter (Assignment-1/shell.c, shell_split_line).

    A slot of the token table holds a string; "" stands for a NULL slot. The splitter allocates a slot only
    when it stores a character in it in the same iteration, so an allocated slot is never empty. */
module ShellLexer {

  predicate IsBlank(c: char) {
    c == ' ' || c == '\t' || c == '\n' || c == '\r'
  }

  predicate IsOperatorChar(c: char) {
    c == '|' || c == '<' || c == '>' || c == ',' || c == ';'
  }

  predicate IsWordChar(c: char) {
    !IsBlank(c) && !IsOperatorChar(c)
  }

  /** Length of the operator that starts `s`, by longest match. */
  function OperatorLength(s: string): (n: nat)
    requires s != "" && IsOperatorChar(s[0])
    ensures 1 <= n <= 3 && n <= |s|
  {
    if "|||" <= s then 3
    else if "||" <= s || ">>" <= s then 2
    else 1
  }

  function WordLength(s: string): (n: nat)
    ensures n <= |s|
    ensures forall k :: 0 <= k < n ==> IsWordChar(s[k])
    ensures n < |s| ==> !IsWordChar(s[n])
  {
    if s == "" || !IsWordChar(s[0]) then 0 else 1 + WordLength(s[1..])
  }

  function BlankLength(s: string): (n: nat)
    ensures n <= |s|
    ensures forall k :: 0 <= k < n ==> IsBlank(s[k])
    ensures n < |s| ==> !IsBlank(s[n])
  {
    if s == "" || !IsBlank(s[0]) then 0 else 1 + BlankLength(s[1..])
  }

  /** Reference lexer: maximal munch, blanks only separate. */
  function Lex(s: string): seq<string>
    decreases |s|
  {
    if s == "" then []
    else if IsBlank(s[0]) then Lex(s[1..])
    else if IsOperatorChar(s[0]) then
      [s[..OperatorLength(s)]] + Lex(s[OperatorLength(s)..])
    else
      [s[..WordLength(s)]] + Lex(s[WordLength(s)..])
  }

  /** The slots a line fills. A run of n blanks after a word leaves n - 1 empty slots. */
  function Layout(s: string): seq<string>
    decreases |s|, 0
  {
    if s == "" then []
    else if IsBlank(s[0]) then Layout(s[1..])
    else if IsOperatorChar(s[0]) then
      [s[..OperatorLength(s)]] + Layout(s[OperatorLength(s)..])
    else
      [s[..WordLength(s)]] + AfterWord(s[WordLength(s)..])
  }

  function AfterWord(s: string): seq<string>
    decreases |s|, 1
  {
    if s != "" && IsBlank(s[0]) then AfterBlank(s[1..]) else Layout(s)
  }

  /** Slots for what follows a word and at least one blank: every further blank skips a slot. */
  function AfterBlank(s: string): seq<string>
    decreases |s|, 1
  {
    if s != "" && IsBlank(s[0]) then [""] + AfterBlank(s[1..]) else Layout(s)
  }

  /** The table holds `slots` and nothing behind them. */
  predicate Holds(table: seq<string>, slots: seq<string>) {
    && |slots| < |table|
    && table[..|slots|] == slots
    && forall k :: |slots| <= k < |table| ==> table[k] == ""
  }

  function Occupied(slots: seq<string>): seq<string> {
    if slots == [] then []
    else (if slots[0] == "" then [] else [slots[0]]) + Occupied(slots[1..])
  }

  /** What a reader that stops at the first NULL slot sees. */
  function Visible(slots: seq<string>): (r: seq<string>)
    ensures r <= slots
    ensures "" !in r
    ensures |r| < |slots| ==> slots[|r|] == ""
  {
    if slots == [] || slots[0] == "" then [] else [slots[0]] + Visible(slots[1..])
  }

  /** Number of empty slots that stand before some occupied slot. */
  function Holes(slots: seq<string>): nat {
    if Occupied(slots) == [] then 0
    else (if slots[0] == "" then 1 else 0) + Holes(slots[1..])
  }

  /** Sum of (length - 1) over the runs of blanks that follow a word and precede a token. */
  function ExtraBlanks(s: string): nat
    decreases |s|
  {
    if s == "" then 0
    else if IsBlank(s[0]) then ExtraBlanks(s[1..])
    else if IsOperatorChar(s[0]) then ExtraBlanks(s[OperatorLength(s)..])
    else
      var rest := s[WordLength(s)..];
      var run := BlankLength(rest);
      (if 0 < run < |rest| then run - 1 else 0) + ExtraBlanks(rest[run..])
  }

  /** Some word is followed by two blanks and, later, by a token. */
  ghost predicate HasWideGap(s: string) {
    exists i, j :: GapAt(s, i, j)
  }

  ghost predicate GapAt(s: string, i: int, j: int) {
    0 <= i && i + 2 < j < |s| && IsWordChar(s[i]) && IsBlank(s[i + 1]) && IsBlank(s[i + 2]) && !IsBlank(s[j])
  }

  // ---------------------------------------------------------------------------------------------
  // The splitter
  // ---------------------------------------------------------------------------------------------

  method Grow(a: array<string>, size: nat) returns (b: array<string>)
    requires a.Length <= size
    ensures fresh(b) && b.Length == size
    ensures b[..a.Length] == a[..]
    ensures forall k :: a.Length <= k < size ==> b[k] == ""
  {
    b := new string[size](k requires 0 <= k < size reads a => if k < a.Length then a[k] else "");
  }

  /** What is still to be laid out: `word` is the slot being filled, `pos` the code's character counter,
      which is not reset by a blank. */
  function Pending(pos: nat, word: string, rest: string): seq<string> {
    if pos == 0 then Layout(rest)
    else if word == "" then AfterBlank(rest)
    else Layout(word + rest)
  }

  ghost predicate IsWord(w: string) {
    w != "" && forall k :: 0 <= k < |w| ==> IsWordChar(w[k])
  }

  lemma {:induction false} WordLengthOfWord(w: string, rest: string)
    requires IsWord(w)
    requires rest == "" || !IsWordChar(rest[0])
    ensures WordLength(w + rest) == |w|
  {
    assert (w + rest)[1..] == w[1..] + rest;
    if |w| == 1 {
      assert w[1..] + rest == rest;
    } else {
      WordLengthOfWord(w[1..], rest);
    }
  }

  /** A word that ends before `rest` fills one slot. */
  lemma LayoutOfWord(w: string, rest: string)
    requires IsWord(w)
    requires rest == "" || !IsWordChar(rest[0])
    ensures Layout(w + rest) == [w] + AfterWord(rest)
  {
    WordLengthOfWord(w, rest);
    assert (w + rest)[..|w|] == w;
    assert (w + rest)[|w|..] == rest;
  }

  /** Stores the operator at the front of line[i..] in slot `n`; the result is the next unread position. */
  method PutOperator(tokens: array<string>, n: nat, line: string, i: nat) returns (next: nat)
    requires n < tokens.Length && i < |line| && IsOperatorChar(line[i])
    modifies tokens
    ensures next == i + OperatorLength(line[i..]) <= |line|
    ensures tokens[..] == old(tokens[..])[n := line[i..][..OperatorLength(line[i..])]]
  {
    next := i + 1;
    if i + 2 < |line| && line[i] == '|' && line[i + 1] == '|' && line[i + 2] == '|' {
      tokens[n], next := "|||", i + 3;
    } else if i + 1 < |line| && line[i] == '|' && line[i + 1] == '|' {
      tokens[n], next := "||", i + 2;
    } else if line[i] == '|' {
      tokens[n] := "|";
    } else if i + 1 < |line| && line[i] == '>' && line[i + 1] == '>' {
      tokens[n], next := ">>", i + 2;
    } else if line[i] == '<' {
      tokens[n] := "<";
    } else if line[i] == '>' {
      tokens[n] := ">";
    } else if line[i] == ',' {
      tokens[n] := ",";
    } else {
      tokens[n] := ";";
    }
    ghost var rest := line[i..];
    assert tokens[n] == rest[..OperatorLength(rest)];
  }

  /** The invariant of the splitter's loop on values: `table` is filled up to slot `n`, `rest` is unread. */
  ghost predicate Splitting(line: string, table: seq<string>, n: nat, pos: nat, rest: string) {
    && n + 3 < |table|
    && (forall k :: n < k < |table| ==> table[k] == "")
    && (table[n] != "" ==> pos == |table[n]| && IsWord(table[n]))
    && Layout(line) == table[..n] + Pending(pos, table[n], rest)
  }

  lemma PendingGap(pos: nat, rest: string)
    requires rest != "" && IsOperatorChar(rest[0])
    ensures Pending(pos, "", rest) == Layout(rest)
  {
  }

  lemma AfterWordOperator(rest: string)
    requires rest != "" && IsOperatorChar(rest[0])
    ensures AfterWord(rest) == Layout(rest)
  {
  }

  lemma BlankInFront(rest: string)
    requires rest != "" && IsBlank(rest[0])
    ensures Layout(rest) == Layout(rest[1..]) && AfterWord(rest) == AfterBlank(rest[1..])
    ensures AfterBlank(rest) == [""] + AfterBlank(rest[1..])
  {
  }

  lemma NextSlot(table: seq<string>, n: nat, behind: seq<string>)
    requires n < |table|
    ensures table[..n] + ([table[n]] + behind) == table[..n + 1] + behind
  {
    assert table[..n + 1] == table[..n] + [table[n]];
  }

  lemma SplitBlank(line: string, table: seq<string>, n: nat, pos: nat, rest: string)
    requires Splitting(line, table, n, pos, rest) && n + 5 < |table|
    requires rest != "" && IsBlank(rest[0])
    ensures Splitting(line, table, if pos != 0 then n + 1 else n, pos, rest[1..])
  {
    BlankInFront(rest);
    assert !IsWordChar(rest[0]);
    hide Layout, AfterWord, AfterBlank, IsBlank, IsWordChar, IsWord;
    if pos == 0 {
      assert table[n] == "";
    } else {
      if table[n] != "" { LayoutOfWord(table[n], rest); }
      NextSlot(table, n, AfterBlank(rest[1..]));
      assert table[n + 1] == "";
    }
  }

  /** Closing the word in slot `n`, if there is one, in front of an operator. */
  lemma SplitCloseWord(line: string, table: seq<string>, n: nat, pos: nat, rest: string)
    requires Splitting(line, table, n, pos, rest)
    requires rest != "" && IsOperatorChar(rest[0])
    ensures Layout(line) == table[..if table[n] == "" then n else n + 1] + Layout(rest)
  {
    hide Layout;
    if table[n] == "" {
      PendingGap(pos, rest);
    } else {
      AfterWordOperator(rest);
      LayoutOfWord(table[n], rest);
      assert table[..n + 1] == table[..n] + [table[n]];
    }
  }

  lemma PendingWord(pos: nat, rest: string)
    requires rest != "" && IsWordChar(rest[0])
    ensures Pending(pos, "", rest) == Layout(rest)
  {
  }

  lemma SplitWordChar(line: string, table: seq<string>, n: nat, pos: nat, rest: string)
    requires Splitting(line, table, n, pos, rest)
    requires rest != "" && IsWordChar(rest[0])
    ensures var w := table[n] + [rest[0]];
            Splitting(line, table[n := w], n, if table[n] == "" then 1 else pos + 1, rest[1..])
  {
    hide Layout, AfterBlank;
    var w := table[n] + [rest[0]];
    assert w + rest[1..] == table[n] + rest;
    assert table[n := w][..n] == table[..n];
    if table[n] == "" {
      assert table[n] + rest == rest;
      PendingWord(pos, rest);
    }
  }

  /** One character (or one operator) of the line: the body of the splitter's loop. */
  method SplitOne(line: string, tokens: array<string>, tokenNo: nat, pos: nat, i: nat)
    returns (tokenNo': nat, pos': nat, next: nat)
    requires i < |line| && tokenNo + 5 < tokens.Length
    requires Splitting(line, tokens[..], tokenNo, pos, line[i..])
    modifies tokens
    ensures i < next <= |line|
    ensures Splitting(line, tokens[..], tokenNo', pos', line[next..])
  {
    hide Splitting, OperatorLength;
    ghost var table, rest := tokens[..], line[i..];
    tokenNo', pos', next := tokenNo, pos, i + 1;
    assert rest[0] == line[i] && rest[1..] == line[next..];
    if IsBlank(line[i]) {
      SplitBlank(line, table, tokenNo, pos, rest);
      if pos != 0 {
        tokenNo' := tokenNo + 1;
      }
      return;
    }
    if tokens[tokenNo] == "" {
      pos' := 0;
    }
    SplitCursor(line, table, tokenNo, pos, rest);
    if IsOperatorChar(line[i]) {
      if pos' > 0 {
        pos' := 0;
        tokenNo' := tokenNo + 1;
      }
      SplitOperator(line, table, tokenNo, pos, rest);
      next := PutOperator(tokens, tokenNo', line, i);
      assert rest[OperatorLength(rest)..] == line[next..];
      tokenNo' := tokenNo' + 1;
      return;
    }
    SplitWordChar(line, table, tokenNo, pos, rest);
    tokens[tokenNo] := tokens[tokenNo] + [line[i]];
    assert tokens[..] == table[tokenNo := table[tokenNo] + [rest[0]]];
    pos' := pos' + 1;
  }

  lemma SplitCursor(line: string, table: seq<string>, n: nat, pos: nat, rest: string)
    requires Splitting(line, table, n, pos, rest)
    ensures table[n] != "" ==> pos > 0
  {
  }

  lemma SplitOperator(line: string, table: seq<string>, n: nat, pos: nat, rest: string)
    requires Splitting(line, table, n, pos, rest) && n + 5 < |table|
    requires rest != "" && IsOperatorChar(rest[0])
    ensures var at := if table[n] == "" then n else n + 1;
            var len := OperatorLength(rest);
            Splitting(line, table[at := rest[..len]], at + 1, 0, rest[len..])
  {
    SplitCloseWord(line, table, n, pos, rest);
    LayoutOfOperator(rest);
    var at := if table[n] == "" then n else n + 1;
    var len := OperatorLength(rest);
    PendingFresh(rest[len..]);
    SplitFill(line, table, at, rest[..len], rest[len..]);
  }

  lemma SplitFill(line: string, table: seq<string>, at: nat, op: string, rest: string)
    requires at + 4 < |table| && forall k :: at < k < |table| ==> table[k] == ""
    requires Layout(line) == table[..at] + ([op] + Pending(0, "", rest))
    ensures Splitting(line, table[at := op], at + 1, 0, rest)
  {
    hide Pending, Layout, IsWord;
    var t := table[at := op];
    assert t[..at] == table[..at] && t[at] == op && t[at + 1] == "";
    NextSlot(t, at, Pending(0, "", rest));
  }

  lemma PendingFresh(rest: string)
    ensures Pending(0, "", rest) == Layout(rest)
  {
  }

  lemma LayoutOfOperator(rest: string)
    requires rest != "" && IsOperatorChar(rest[0])
    ensures Layout(rest) == [rest[..OperatorLength(rest)]] + Layout(rest[OperatorLength(rest)..])
  {
    hide OperatorLength;
    assert !IsBlank(rest[0]);
  }

  /** The table doubles whenever fewer than five slots are left, so every slot index stays inside it. */
  method SplitLine(line: string) returns (tokens: array<string>)
    ensures fresh(tokens)
    ensures Holds(tokens[..], Layout(line))
    ensures Occupied(tokens[..]) == Lex(line)
    ensures forall ts :: Tokenized(line, ts) <==> ts == Occupied(tokens[..])
    ensures Holes(tokens[..]) == ExtraBlanks(line)
    ensures Visible(tokens[..]) == Lex(line) <==> !HasWideGap(line)
  {
    hide *;
    var bufsize := 128;
    tokens := new string[bufsize](_ => "");
    SplittingStart(line, tokens[..]);
    var pos: nat, tokenNo: nat, i := 0, 0, 0;
    assert line[0..] == line;
    while i < |line|
      invariant fresh(tokens) && tokens.Length == bufsize
      invariant 0 <= i <= |line|
      invariant Splitting(line, tokens[..], tokenNo, pos, line[i..])
    {
      if tokenNo + 5 >= bufsize {
        bufsize := 2 * bufsize;
        ghost var before := tokens[..];
        tokens := Grow(tokens, bufsize);
        SplittingGrown(line, before, tokens[..], tokenNo, pos, line[i..]);
      }
      tokenNo, pos, i := SplitOne(line, tokens, tokenNo, pos, i);
    }
    assert line[i..] == "";
    SplitDone(line, tokens[..], tokenNo, pos);
    SplitIs(line, tokens[..]);
  }

  lemma SplittingStart(line: string, table: seq<string>)
    requires 4 < |table| && forall k :: 0 <= k < |table| ==> table[k] == ""
    ensures Splitting(line, table, 0, 0, line)
  {
  }

  lemma SplittingGrown(line: string, table: seq<string>, grown: seq<string>, n: nat, pos: nat, rest: string)
    requires Splitting(line, table, n, pos, rest)
    requires |table| <= |grown| && grown[..|table|] == table && forall k :: |table| <= k < |grown| ==> grown[k] == ""
    ensures Splitting(line, grown, n, pos, rest) && n + 3 < |table|
  {
    hide Pending, Layout, IsWord;
    assert forall k :: 0 <= k < |table| ==> grown[k] == grown[..|table|][k];
    assert grown[..n] == table[..n];
  }

  /** What the table holds, in terms of the line. */
  lemma SplitIs(line: string, table: seq<string>)
    requires Holds(table, Layout(line))
    ensures Occupied(table) == Lex(line) && Holes(table) == ExtraBlanks(line)
    ensures forall ts :: Tokenized(line, ts) <==> ts == Occupied(table)
    ensures Visible(table) == Lex(line) <==> !HasWideGap(line)
  {
    hide *;
    VisiblePrefix(table, Layout(line));
    SlotsAreTokens(line);
    HolesCounted(line);
    VisibleTokens(line);
    forall ts ensures Tokenized(line, ts) <==> ts == Lex(line) {
      LexIff(line, ts);
    }
  }

  lemma SplitDone(line: string, table: seq<string>, n: nat, pos: nat)
    requires Splitting(line, table, n, pos, "")
    ensures Holds(table, Layout(line))
  {
    if table[n] != "" {
      LayoutOfWord(table[n], "");
      assert table[n] + "" == table[n];
      assert table[..n + 1] == table[..n] + [table[n]];
    }
  }

  // ---------------------------------------------------------------------------------------------
  // The slots against the reference lexer
  // ---------------------------------------------------------------------------------------------

  lemma {:induction false} OccupiedAppend(a: seq<string>, b: seq<string>)
    ensures Occupied(a + b) == Occupied(a) + Occupied(b)
  {
    if a == [] {
      assert a + b == b;
    } else {
      assert (a + b)[1..] == a[1..] + b;
      OccupiedAppend(a[1..], b);
    }
  }

  /** For every line, the occupied slots read in order are the reference lexer's tokens. */
  lemma {:induction false} SlotsAreTokens(s: string)
    ensures Occupied(Layout(s)) == Lex(s)
    ensures Occupied(AfterWord(s)) == Lex(s)
    ensures Occupied(AfterBlank(s)) == Lex(s)
    decreases |s|
  {
    if s == "" {
    } else if IsBlank(s[0]) {
      SlotsAreTokens(s[1..]);
      OccupiedAppend([""], AfterBlank(s[1..]));
    } else if IsOperatorChar(s[0]) {
      var n := OperatorLength(s);
      SlotsAreTokens(s[n..]);
      OccupiedAppend([s[..n]], Layout(s[n..]));
    } else {
      var n := WordLength(s);
      SlotsAreTokens(s[n..]);
      OccupiedAppend([s[..n]], AfterWord(s[n..]));
    }
  }

  lemma LexNonEmpty(s: string)
    requires s != "" && !IsBlank(s[0])
    ensures Lex(s) != []
  {
  }

  lemma {:induction false} HolesAfterBlank(s: string)
    ensures var run := BlankLength(s);
            Holes(AfterBlank(s)) == (if run < |s| then run else 0) + Holes(Layout(s[run..]))
  {
    if s != "" && IsBlank(s[0]) {
      HolesAfterBlank(s[1..]);
      SlotsAreTokens(s);
      SlotsAreTokens(s[1..]);
      var run := BlankLength(s);
      assert s[1..][BlankLength(s[1..])..] == s[run..];
      var slots := AfterBlank(s);
      assert slots[1..] == AfterBlank(s[1..]);
      if run < |s| {
        LexOfBlanks(s, run);
        LexNonEmpty(s[run..]);
      } else {
        LexOfBlanks(s, run);
      }
    }
  }

  lemma {:induction false} LexOfBlanks(s: string, n: nat)
    requires n <= |s| && forall k :: 0 <= k < n ==> IsBlank(s[k])
    ensures Lex(s) == Lex(s[n..])
  {
    if n == 0 {
      assert s[0..] == s;
    } else {
      LexOfBlanks(s[1..], n - 1);
      assert s[1..][n - 1..] == s[n..];
    }
  }

  /** The number of empty slots in front of the last token, exactly. */
  lemma {:induction false} HolesCounted(s: string)
    ensures Holes(Layout(s)) == ExtraBlanks(s)
    decreases |s|
  {
    if s == "" {
    } else if IsBlank(s[0]) {
      HolesCounted(s[1..]);
    } else {
      SlotsAreTokens(s);
      LexNonEmpty(s);
      var n := if IsOperatorChar(s[0]) then OperatorLength(s) else WordLength(s);
      var slots := Layout(s);
      if IsOperatorChar(s[0]) {
        HolesCounted(s[n..]);
        assert slots[1..] == Layout(s[n..]);
      } else {
        var rest := s[n..];
        var run := BlankLength(rest);
        HolesCounted(rest[run..]);
        assert slots[1..] == AfterWord(rest);
        if run > 0 {
          HolesAfterBlank(rest[1..]);
          assert rest[1..][BlankLength(rest[1..])..] == rest[run..];
        } else {
          assert rest[run..] == rest;
        }
      }
    }
  }

  lemma {:induction false} VisibleIffNoHoles(slots: seq<string>)
    ensures Visible(slots) <= Occupied(slots)
    ensures Visible(slots) == Occupied(slots) <==> Holes(slots) == 0
  {
    if slots != [] {
      VisibleIffNoHoles(slots[1..]);
    }
  }

  lemma GapShift(s: string, n: nat)
    requires n <= |s|
    requires forall i, j :: 0 <= i < n ==> !GapAt(s, i, j)
    ensures HasWideGap(s) <==> HasWideGap(s[n..])
  {
    if HasWideGap(s) {
      var i, j :| GapAt(s, i, j);
      assert GapAt(s[n..], i - n, j - n);
    }
    if HasWideGap(s[n..]) {
      var i, j :| GapAt(s[n..], i, j);
      assert GapAt(s, i + n, j + n);
    }
  }

  lemma NoGapInWord(s: string, n: nat, run: nat)
    requires n + run <= |s|
    requires forall k :: 0 <= k < n ==> IsWordChar(s[k])
    requires forall k :: n <= k < n + run ==> IsBlank(s[k])
    requires n + run < |s| ==> !IsBlank(s[n + run])
    requires run < 2 || n + run == |s|
    ensures forall i, j :: 0 <= i < n + run ==> !GapAt(s, i, j)
  {
  }

  /** A word of n characters, then a run of blanks. */
  lemma WideGapAfter(s: string, n: nat, run: nat)
    requires 1 <= n && n + run <= |s|
    requires forall k :: 0 <= k < n ==> IsWordChar(s[k])
    requires forall k :: n <= k < n + run ==> IsBlank(s[k])
    requires n + run < |s| ==> !IsBlank(s[n + run])
    ensures HasWideGap(s) <==> (2 <= run && n + run < |s|) || HasWideGap(s[n + run..])
  {
    if 2 <= run && n + run < |s| {
      assert GapAt(s, n - 1, n + run);
    } else {
      NoGapInWord(s, n, run);
      hide GapAt;
      GapShift(s, n + run);
    }
  }

  lemma WideGapOfWord(s: string)
    requires s != "" && IsWordChar(s[0])
    ensures var rest := s[WordLength(s)..];
            var run := BlankLength(rest);
            HasWideGap(s) <==> 2 <= run < |rest| || HasWideGap(rest[run..])
  {
    var n := WordLength(s);
    var rest := s[n..];
    var run := BlankLength(rest);
    assert n >= 1;
    hide *;
    assert rest[run..] == s[n + run..];
    assert forall k :: 0 <= k < |rest| ==> rest[k] == s[n + k];
    forall k | n <= k < n + run ensures IsBlank(s[k]) {
      assert s[k] == rest[k - n];
    }
    WideGapAfter(s, n, run);
  }

  lemma WideGapOfOperator(s: string)
    requires s != "" && IsOperatorChar(s[0])
    ensures HasWideGap(s) <==> HasWideGap(s[OperatorLength(s)..])
  {
    var n := OperatorLength(s);
    assert forall k :: 0 <= k < n ==> IsOperatorChar(s[k]);
    GapShift(s, n);
  }

  /** No hole is left exactly when no word is followed by two blanks and a later token. */
  lemma {:induction false} HolesIffWideGap(s: string)
    ensures ExtraBlanks(s) == 0 <==> !HasWideGap(s)
    decreases |s|
  {
    if s == "" {
    } else if IsBlank(s[0]) {
      HolesIffWideGap(s[1..]);
      GapShift(s, 1);
    } else if IsOperatorChar(s[0]) {
      var n := OperatorLength(s);
      HolesIffWideGap(s[n..]);
      WideGapOfOperator(s);
    } else {
      var rest := s[WordLength(s)..];
      HolesIffWideGap(rest[BlankLength(rest)..]);
      WideGapOfWord(s);
    }
  }

  /** The parser, which stops at the first empty slot, sees the tokens of the line up to the first wide gap:
      all of them exactly when there is no wide gap. */
  lemma VisibleTokens(s: string)
    ensures Visible(Layout(s)) <= Lex(s)
    ensures Visible(Layout(s)) == Lex(s) <==> !HasWideGap(s)
  {
    SlotsAreTokens(s);
    HolesCounted(s);
    VisibleIffNoHoles(Layout(s));
    HolesIffWideGap(s);
  }

  lemma {:induction false} VisiblePrefix(table: seq<string>, slots: seq<string>)
    requires Holds(table, slots)
    ensures Visible(table) == Visible(slots)
    ensures Occupied(table) == Occupied(slots)
    ensures Holes(table) == Holes(slots)
  {
    if slots == [] {
      OccupiedOfEmpties(table);
    } else {
      assert table[1..][..|slots| - 1] == slots[1..];
      assert table[0] == slots[0];
      VisiblePrefix(table[1..], slots[1..]);
    }
  }

  lemma {:induction false} OccupiedOfEmpties(table: seq<string>)
    requires forall k :: 0 <= k < |table| ==> table[k] == ""
    ensures Occupied(table) == []
  {
    if table != [] {
      OccupiedOfEmpties(table[1..]);
    }
  }

  // ---------------------------------------------------------------------------------------------
  // What the tokens of a line are
  // ---------------------------------------------------------------------------------------------

  const BLANKS := " \t\n\r"
  const SPECIAL := " \t\n\r|<>,;"

  /** t stands at the front of s and cannot be lengthened: a word up to a blank or an operator, or an operator that is
      not the beginning of a longer one. */
  ghost predicate LongestToken(s: string, t: string) {
    && t != "" && t <= s
    && if forall k :: 0 <= k < |t| ==> t[k] !in SPECIAL then |t| < |s| ==> s[|t|] in SPECIAL
       else IsOperator(t) && (|t| < |s| ==> !IsOperator(s[..|t| + 1]))
  }

  ghost predicate BlankBetween(line: string, a: nat, b: nat) {
    a <= b <= |line| && forall p :: a <= p < b ==> line[p] in BLANKS
  }

  /** Where the token in front of number k ends. */
  function EndOf(from: nat, tokens: seq<string>, at: seq<nat>, k: nat): nat
    requires k <= |tokens| == |at|
  {
    if k == 0 then from else at[k - 1] + |tokens[k - 1]|
  }

  /** Token number k stands at its place, cannot be lengthened, and has only blanks in front of it. */
  ghost predicate Placed(line: string, from: nat, tokens: seq<string>, at: seq<nat>, k: nat)
    requires k < |tokens| == |at|
  {
    BlankBetween(line, EndOf(from, tokens, at, k), at[k]) && LongestToken(line[at[k]..], tokens[k])
  }

  /** The tokens stand at these places of the line, one behind the other, none can be lengthened, and everything between
      them is blank. */
  ghost predicate Tokenizes(line: string, from: nat, tokens: seq<string>, at: seq<nat>) {
    && |at| == |tokens|
    && (forall k :: 0 <= k < |tokens| ==> Placed(line, from, tokens, at, k))
    && BlankBetween(line, EndOf(from, tokens, at, |tokens|), |line|)
  }

  lemma CharClasses(c: char)
    ensures IsBlank(c) <==> c in BLANKS
    ensures IsWordChar(c) <==> c !in SPECIAL
    ensures IsOperatorChar(c) <==> c in SPECIAL && c !in BLANKS
  {
    assert c in BLANKS <==> c == ' ' || c == '\t' || c == '\n' || c == '\r';
    assert c in SPECIAL <==> c == ' ' || c == '\t' || c == '\n' || c == '\r' || c == '|' || c == '<' || c == '>' || c == ','
                             || c == ';';
  }

  lemma OperatorStart(t: string)
    requires IsOperator(t)
    ensures 1 <= |t| <= 3 && IsOperatorChar(t[0]) && t[0] in SPECIAL
  {
    CharClasses(t[0]);
  }

  /** The longest operator. */
  lemma LongestOperator(s: string, t: string)
    requires s != "" && IsOperatorChar(s[0])
    ensures t == s[..OperatorLength(s)] <==> t <= s && IsOperator(t) && (|t| < |s| ==> !IsOperator(s[..|t| + 1]))
  {
    assert s[..1] == [s[0]];
    if |s| > 1 { assert s[..2] == [s[0], s[1]]; }
    if |s| > 2 { assert s[..3] == [s[0], s[1], s[2]]; }
    if |s| > 3 { assert |s[..4]| == 4; }
    assert t <= s ==> t == s[..|t|];
    assert IsOperator(t) ==> |t| == 1 || |t| == 2 || |t| == 3;
  }

  lemma LongestWord(s: string, t: string)
    requires s != "" && IsWordChar(s[0])
    ensures t == s[..WordLength(s)] <==>
              t <= s && IsWord(t) && (|t| < |s| ==> !IsWordChar(s[|t|]))
  {
    var n := WordLength(s);
    assert t <= s ==> t == s[..|t|] && forall k :: 0 <= k < |t| ==> t[k] == s[k];
  }

  /** The token the reference lexer takes off the front. */
  function FirstToken(s: string): string
    requires s != "" && !IsBlank(s[0])
  {
    if IsOperatorChar(s[0]) then s[..OperatorLength(s)] else s[..WordLength(s)]
  }

  lemma FirstTokenIff(s: string, t: string)
    requires s != "" && !IsBlank(s[0])
    ensures LongestToken(s, t) <==> t == FirstToken(s)
    ensures 1 <= |FirstToken(s)| <= |s|
  {
    CharClasses(s[0]);
    forall c: char ensures IsWordChar(c) <==> c !in SPECIAL {
      CharClasses(c);
    }
    hide IsOperator, OperatorLength, WordLength;
    if t != "" && t <= s { assert t[0] == s[0]; }
    if IsOperatorChar(s[0]) {
      LongestOperator(s, t);
      assert t == s[..OperatorLength(s)] ==> t[0] == s[0];
    } else {
      LongestWord(s, t);
      if IsOperator(t) { OperatorStart(t); }
    }
  }

  lemma LexUnfold(s: string)
    ensures s == "" ==> Lex(s) == []
    ensures s != "" && IsBlank(s[0]) ==> Lex(s) == Lex(s[1..])
    ensures s != "" && !IsBlank(s[0]) ==>
              |FirstToken(s)| <= |s| && Lex(s) == [FirstToken(s)] + Lex(s[|FirstToken(s)|..])
  {
    hide OperatorLength, WordLength;
  }

  lemma LongestNotBlank(s: string, t: string)
    requires LongestToken(s, t)
    ensures s != "" && !IsBlank(s[0])
  {
    CharClasses(s[0]);
    assert t[0] == s[0];
    if IsOperator(t) { OperatorStart(t); }
  }

  lemma OneBlankMore(line: string, from: nat, b: nat)
    requires from < |line| && IsBlank(line[from])
    ensures BlankBetween(line, from + 1, b) ==> BlankBetween(line, from, b)
    ensures BlankBetween(line, from, b) && b != from ==> BlankBetween(line, from + 1, b)
  {
    CharClasses(line[from]);
  }

  lemma PlacedBehindBlank(line: string, from: nat, tokens: seq<string>, at: seq<nat>, k: nat)
    requires from < |line| && IsBlank(line[from]) && k < |tokens| == |at|
    ensures Placed(line, from, tokens, at, k) <==> Placed(line, from + 1, tokens, at, k)
  {
    OneBlankMore(line, from, at[k]);
    if k == 0 && Placed(line, from, tokens, at, k) {
      LongestNotBlank(line[at[0]..], tokens[0]);
      assert at[0] != from;
    }
    hide LongestToken, BlankBetween;
  }

  /** A blank in front makes no difference. */
  lemma BlankInFrontOfTokens(line: string, from: nat, tokens: seq<string>, at: seq<nat>)
    requires from < |line| && IsBlank(line[from])
    ensures Tokenizes(line, from, tokens, at) <==> Tokenizes(line, from + 1, tokens, at)
  {
    if |at| == |tokens| {
      var n := |tokens|;
      OneBlankMore(line, from, |line|);
      assert n > 0 ==> EndOf(from, tokens, at, n) == EndOf(from + 1, tokens, at, n);
      assert EndOf(from, tokens, at, 0) == from && EndOf(from + 1, tokens, at, 0) == from + 1;
      hide EndOf, Placed, BlankBetween;
      assert BlankBetween(line, EndOf(from, tokens, at, n), |line|)
             <==> BlankBetween(line, EndOf(from + 1, tokens, at, n), |line|);
      if Tokenizes(line, from, tokens, at) {
        var next := from + 1;
        forall k | 0 <= k < n ensures Placed(line, next, tokens, at, k) {
          PlacedBehindBlank(line, from, tokens, at, k);
        }
      }
      if Tokenizes(line, from + 1, tokens, at) {
        forall k | 0 <= k < n ensures Placed(line, from, tokens, at, k) {
          PlacedBehindBlank(line, from, tokens, at, k);
        }
      }
    }
  }

  lemma EndBehind(from: nat, t: string, tokens: seq<string>, at: seq<nat>, k: nat)
    requires k <= |tokens| == |at|
    ensures EndOf(from, [t] + tokens, [from] + at, k + 1) == EndOf(from + |t|, tokens, at, k)
  {
  }

  lemma PlacedBehind(line: string, from: nat, t: string, tokens: seq<string>, at: seq<nat>, k: nat)
    requires k < |tokens| == |at|
    ensures Placed(line, from, [t] + tokens, [from] + at, k + 1) <==> Placed(line, from + |t|, tokens, at, k)
  {
    EndBehind(from, t, tokens, at, k);
    hide LongestToken, BlankBetween, EndOf;
    assert ([t] + tokens)[k + 1] == tokens[k] && ([from] + at)[k + 1] == at[k];
  }

  /** The first token, and the others behind it. */
  lemma TokensBehind(line: string, from: nat, t: string, tokens: seq<string>, at: seq<nat>)
    requires from + |t| <= |line| && LongestToken(line[from..], t)
    ensures Tokenizes(line, from, [t] + tokens, [from] + at) <==> Tokenizes(line, from + |t|, tokens, at)
  {
    if |at| == |tokens| {
      var ts, ps := [t] + tokens, [from] + at;
      assert Placed(line, from, ts, ps, 0);
      hide LongestToken, Placed, BlankBetween, EndOf;
      EndBehind(from, t, tokens, at, |tokens|);
      if Tokenizes(line, from, ts, ps) {
        var next := from + |t|;
        forall k | 0 <= k < |tokens| ensures Placed(line, next, tokens, at, k) {
          assert Placed(line, from, ts, ps, k + 1);
          PlacedBehind(line, from, t, tokens, at, k);
        }
      }
      if Tokenizes(line, from + |t|, tokens, at) {
        forall k | 0 <= k < |ts| ensures Placed(line, from, ts, ps, k) {
          if k > 0 { PlacedBehind(line, from, t, tokens, at, k - 1); }
        }
      }
    }
  }

  /** The first token stands at the first place that is not blank. */
  lemma FirstPlace(line: string, from: nat, tokens: seq<string>, at: seq<nat>)
    requires Tokenizes(line, from, tokens, at) && from < |line| && !IsBlank(line[from])
    ensures tokens != [] && at[0] == from && tokens[0] == FirstToken(line[from..])
    ensures tokens == [tokens[0]] + tokens[1..] && at == [from] + at[1..]
  {
    CharClasses(line[from]);
    hide LongestToken, FirstToken;
    assert tokens != [];
    assert Placed(line, from, tokens, at, 0);
    FirstTokenIff(line[from..], tokens[0]);
  }

  /** What the reference lexer does from a place of the line on. */
  lemma LexFrom(line: string, from: nat)
    requires from <= |line|
    ensures from == |line| ==> Lex(line[from..]) == []
    ensures from < |line| && IsBlank(line[from]) ==> Lex(line[from..]) == Lex(line[from + 1..])
    ensures from < |line| && !IsBlank(line[from]) ==>
              var t := FirstToken(line[from..]);
              && 1 <= |t| <= |line| - from && LongestToken(line[from..], t)
              && Lex(line[from..]) == [t] + Lex(line[from + |t|..])
  {
    var s := line[from..];
    LexUnfold(s);
    hide Lex, FirstToken, LongestToken, IsBlank;
    if from < |line| {
      assert s[1..] == line[from + 1..];
      if !IsBlank(s[0]) {
        var t := FirstToken(s);
        FirstTokenIff(s, t);
        assert s[|t|..] == line[from + |t|..];
      }
    }
  }

  /** The reference lexer's tokens stand in the line like that. */
  lemma {:induction false} LexTokenizes(line: string, from: nat) returns (at: seq<nat>)
    requires from <= |line|
    ensures Tokenizes(line, from, Lex(line[from..]), at)
    decreases |line| - from
  {
    hide *;
    LexFrom(line, from);
    if from == |line| {
      at := [];
      NothingLeft(line);
    } else if IsBlank(line[from]) {
      at := LexTokenizes(line, from + 1);
      BlankInFrontOfTokens(line, from, Lex(line[from..]), at);
    } else {
      var t := FirstToken(line[from..]);
      var rest := LexTokenizes(line, from + |t|);
      TokensBehind(line, from, t, Lex(line[from + |t|..]), rest);
      at := [from] + rest;
    }
  }

  lemma NothingLeft(line: string)
    ensures Tokenizes(line, |line|, [], [])
  {
  }

  lemma NoTokensAtEnd(line: string, tokens: seq<string>, at: seq<nat>)
    requires Tokenizes(line, |line|, tokens, at)
    ensures tokens == []
  {
    assert tokens != [] ==> !Placed(line, |line|, tokens, at, 0);
  }

  /** And no other tokens do. */
  lemma {:induction false} LexIsUnique(line: string, from: nat, tokens: seq<string>, at: seq<nat>)
    requires Tokenizes(line, from, tokens, at) && from <= |line|
    ensures tokens == Lex(line[from..])
    decreases |line| - from
  {
    hide *;
    LexFrom(line, from);
    if from == |line| {
      NoTokensAtEnd(line, tokens, at);
    } else if IsBlank(line[from]) {
      BlankInFrontOfTokens(line, from, tokens, at);
      LexIsUnique(line, from + 1, tokens, at);
    } else {
      FirstPlace(line, from, tokens, at);
      var t := tokens[0];
      TokensBehind(line, from, t, tokens[1..], at[1..]);
      LexIsUnique(line, from + |t|, tokens[1..], at[1..]);
    }
  }

  /** The places of the tokens are some places. */
  ghost predicate Tokenized(line: string, tokens: seq<string>) {
    exists at :: Tokenizes(line, 0, tokens, at)
  }

  /** The reference lexer computes the one list of tokens that the line consists of. */
  lemma LexIff(line: string, tokens: seq<string>)
    ensures tokens == Lex(line) <==> Tokenized(line, tokens)
  {
    assert line[0..] == line;
    var at0 := LexTokenizes(line, 0);
    hide Lex, Tokenizes;
    if at :| Tokenizes(line, 0, tokens, at) {
      LexIsUnique(line, 0, tokens, at);
    }
  }

  // ---------------------------------------------------------------------------------------------
  // What the parser sees of a line with a wide gap
  // ---------------------------------------------------------------------------------------------

  /** The first word that is followed by two blanks and a later token ends at i. */
  ghost predicate FirstWideGap(s: string, i: nat) {
    (exists j :: GapAt(s, i, j)) && forall k, j :: 0 <= k < i ==> !GapAt(s, k, j)
  }

  lemma GapBehind(s: string, n: nat, i: nat)
    requires FirstWideGap(s, i) && n <= i
    ensures i + 2 < |s| && FirstWideGap(s[n..], i - n)
  {
    var j :| GapAt(s, i, j);
    assert GapAt(s[n..], i - n, j - n);
    forall k, l | 0 <= k < i - n && GapAt(s[n..], k, l) ensures GapAt(s, k + n, l + n) {
    }
  }

  /** A token in front stays one when the line is cut off behind it. */
  lemma FirstTokenOfPrefix(s: string, m: nat)
    requires s != "" && !IsBlank(s[0]) && |FirstToken(s)| <= m <= |s|
    ensures 1 <= |FirstToken(s)| && s[..m][0] == s[0] && FirstToken(s[..m]) == FirstToken(s)
  {
    var t := FirstToken(s);
    FirstTokenIff(s, t);
    FirstTokenIff(s[..m], t);
    hide FirstToken, IsOperator, IsBlank;
    if |t| < m {
      assert s[..m][..|t| + 1] == s[..|t| + 1];
    }
  }

  /** The slots from a token on. */
  lemma LayoutFrom(s: string)
    requires s != "" && !IsBlank(s[0])
    ensures var t := FirstToken(s);
            && |t| <= |s|
            && Layout(s) == [t] + (if IsOperatorChar(s[0]) then Layout(s[|t|..]) else AfterWord(s[|t|..]))
  {
    hide OperatorLength, WordLength;
  }

  lemma VisibleCons(t: string, slots: seq<string>)
    requires t != ""
    ensures Visible([t] + slots) == [t] + Visible(slots)
  {
    assert ([t] + slots)[1..] == slots;
  }

  /** Where the gap is when the line starts with a word: right behind it, or farther on with one blank at most between. */
  lemma GapOfWord(s: string, i: nat)
    requires s != "" && IsWordChar(s[0]) && FirstWideGap(s, i)
    ensures var n := |FirstToken(s)|;
            && 1 <= n <= |s| && n <= i + 1
            && (i + 1 == n ==> AfterWord(s[n..]) != [] && AfterWord(s[n..])[0] == "")
            && (i + 1 > n ==> i >= n && (IsBlank(s[n]) ==> i > n && n + 1 < |s| && !IsBlank(s[n + 1])))
  {
    var n := WordLength(s);
    var j :| GapAt(s, i, j);
    assert n >= 1;
    hide WordLength;
    if i + 1 == n {
      assert s[n..][1] == s[n + 1];
    } else {
      assert i >= n;
      if IsBlank(s[n]) && IsBlank(s[n + 1]) { assert GapAt(s, n - 1, j); }
    }
  }

  lemma AfterWordIs(s: string)
    ensures s != "" && !IsBlank(s[0]) ==> AfterWord(s) == Layout(s)
    ensures |s| > 1 && IsBlank(s[0]) && !IsBlank(s[1]) ==> AfterWord(s) == Layout(s[1..])
  {
  }

  lemma CutTwice(s: string, m: nat, a: nat)
    requires a <= m <= |s|
    ensures s[..m][a..] == s[a..m] && s[a..][..m - a] == s[a..m]
    ensures a < m ==> s[a..m][0] == s[a] && s[a..m][1..] == s[a + 1..m]
  {
  }

  /** The tokens of a line that is cut off at m: the first one, and those behind it and perhaps a blank. */
  lemma LexCut(s: string, m: nat, n: nat)
    requires s != "" && !IsBlank(s[0]) && n <= m <= |s|
    requires |FirstToken(s)| == n || (|FirstToken(s)| == n - 1 && IsBlank(s[n - 1]))
    ensures Lex(s[..m]) == [FirstToken(s)] + Lex(s[n..m])
  {
    hide *;
    var t := FirstToken(s);
    FirstTokenOfPrefix(s, m);
    LexUnfold(s[..m]);
    CutTwice(s, m, |t|);
    if |t| == n - 1 {
      LexUnfold(s[|t|..m]);
    }
  }

  /** One token and perhaps a blank, and the visible tokens behind them. */
  lemma VisibleBehind(s: string, i: nat, n: nat)
    requires n <= i < |s| && !IsBlank(s[0])
    requires |FirstToken(s)| == n || (|FirstToken(s)| == n - 1 && IsBlank(s[n - 1]))
    requires Layout(s) == [FirstToken(s)] + Layout(s[n..])
    requires Visible(Layout(s[n..])) == Lex(s[n..][..i - n + 1])
    ensures Visible(Layout(s)) == Lex(s[..i + 1])
  {
    hide *;
    FirstTokenIff(s, FirstToken(s));
    LexCut(s, i + 1, n);
    CutTwice(s, i + 1, n);
    VisibleCons(FirstToken(s), Layout(s[n..]));
  }

  /** Of a line with a wide gap the parser sees exactly the tokens up to the first one. */
  lemma {:induction false} VisibleIs(s: string, i: nat)
    requires FirstWideGap(s, i)
    ensures i < |s| && Visible(Layout(s)) == Lex(s[..i + 1])
    decreases |s|
  {
    GapBehind(s, 0, i);
    hide *;
    if IsBlank(s[0]) {
      GapBehind(s, 1, i);
      VisibleIs(s[1..], i - 1);
      VisibleBehindBlank(s, i);
    } else {
      LayoutFrom(s);
      FirstTokenIff(s, FirstToken(s));
      var n := |FirstToken(s)|;
      if IsOperatorChar(s[0]) {
        GapNotInOperator(s, i);
        GapBehind(s, n, i);
        VisibleIs(s[n..], i - n);
        VisibleBehind(s, i, n);
      } else {
        IsWordStart(s[0]);
        GapOfWord(s, i);
        if i + 1 == n {
          VisibleToGap(s, n);
        } else {
          var m := if IsBlank(s[n]) then n + 1 else n;
          AfterWordAt(s, n);
          GapBehind(s, m, i);
          VisibleIs(s[m..], i - m);
          VisibleBehind(s, i, m);
        }
      }
    }
  }

  lemma IsWordStart(c: char)
    requires !IsBlank(c) && !IsOperatorChar(c)
    ensures IsWordChar(c)
  {
  }

  lemma AfterWordAt(s: string, n: nat)
    requires n < |s| && (IsBlank(s[n]) ==> n + 1 < |s| && !IsBlank(s[n + 1]))
    ensures AfterWord(s[n..]) == Layout(s[if IsBlank(s[n]) then n + 1 else n..])
  {
    AfterWordIs(s[n..]);
    assert s[n..][1..] == s[n + 1..];
    hide AfterWord, Layout, IsBlank;
  }

  lemma VisibleBehindBlank(s: string, i: nat)
    requires 0 < i < |s| && IsBlank(s[0]) && Visible(Layout(s[1..])) == Lex(s[1..][..i])
    ensures Visible(Layout(s)) == Lex(s[..i + 1])
  {
    LexUnfold(s[..i + 1]);
    assert s[..i + 1][1..] == s[1..][..i];
    hide Lex, Visible;
  }

  lemma GapNotInOperator(s: string, i: nat)
    requires s != "" && IsOperatorChar(s[0]) && FirstWideGap(s, i)
    ensures |FirstToken(s)| <= i
  {
    var n := OperatorLength(s);
    assert forall k :: 0 <= k < n ==> IsOperatorChar(s[k]);
    var j :| GapAt(s, i, j);
  }

  /** The gap is right behind the first word. */
  lemma VisibleToGap(s: string, n: nat)
    requires s != "" && IsWordChar(s[0]) && n == |FirstToken(s)| <= |s|
    requires Layout(s) == [FirstToken(s)] + AfterWord(s[n..]) && AfterWord(s[n..]) != [] && AfterWord(s[n..])[0] == ""
    ensures Visible(Layout(s)) == Lex(s[..n])
  {
    var t := FirstToken(s);
    FirstTokenIff(s, t);
    FirstTokenOfPrefix(s, n);
    VisibleCons(t, AfterWord(s[n..]));
    LexUnfold(s[..n]);
    LexUnfold(s[..n][n..]);
    hide Lex, Layout, AfterWord, FirstToken, LongestToken;
    assert Visible(AfterWord(s[n..])) == [];
  }

  // ---------------------------------------------------------------------------------------------
  // Printing tokens
  // ---------------------------------------------------------------------------------------------

  ghost predicate IsOperator(t: string) {
    t == "|" || t == "||" || t == "|||" || t == "<" || t == ">" || t == ">>" || t == "," || t == ";"
  }

  ghost predicate IsToken(t: string) {
    IsWord(t) || IsOperator(t)
  }

  /** The tokens with single spaces between them; a typed line ends with its newline. */
  function PrintLine(tokens: seq<string>): string {
    if tokens == [] then "\n"
    else if |tokens| == 1 then tokens[0] + "\n"
    else tokens[0] + " " + PrintLine(tokens[1..])
  }

  lemma LayoutOfToken(t: string, rest: string)
    requires IsToken(t)
    requires rest != "" && IsBlank(rest[0])
    ensures Layout(t + rest) == [t] + (if IsWord(t) then AfterBlank(rest[1..]) else Layout(rest[1..]))
  {
    if IsWord(t) {
      LayoutOfWord(t, rest);
    } else {
      var s := t + rest;
      assert s[|t|] == rest[0] && forall k :: 0 <= k < |t| ==> s[k] == t[k];
      assert OperatorLength(s) == |t|;
      assert s[..|t|] == t && s[|t|..] == rest;
    }
  }

  lemma PrintedStart(tokens: seq<string>)
    requires tokens != [] && IsToken(tokens[0])
    ensures PrintLine(tokens) != "" && !IsBlank(PrintLine(tokens)[0])
  {
  }

  /** Splitting a printed token list fills exactly one slot per token. */
  lemma {:induction false} LayoutOfPrinted(tokens: seq<string>)
    requires forall k :: 0 <= k < |tokens| ==> IsToken(tokens[k])
    ensures Layout(PrintLine(tokens)) == tokens
  {
    hide Layout, IsToken;
    if tokens == [] {
      LayoutOfNewline();
    } else {
      var t, rest := tokens[0], tokens[1..];
      assert tokens == [t] + rest;
      LayoutOfPrinted(rest);
      LayoutOfFirst(t, rest);
    }
  }

  lemma LayoutOfNewline()
    ensures Layout("\n") == [] && AfterBlank("") == [] && Layout("") == []
  {
    assert "\n"[1..] == "";
  }

  lemma LayoutOfFirst(t: string, rest: seq<string>)
    requires IsToken(t) && (rest != [] ==> IsToken(rest[0]))
    ensures Layout(PrintLine([t] + rest)) == [t] + Layout(PrintLine(rest))
  {
    hide Layout, AfterBlank, IsToken;
    LayoutOfNewline();
    if rest == [] {
      LayoutOfToken(t, "\n");
      assert "\n"[1..] == "";
      assert [t] + rest == [t];
    } else {
      var line := PrintLine(rest);
      assert ([t] + rest)[1..] == rest;
      PrintedStart(rest);
      assert t + " " + line == t + (" " + line);
      LayoutOfToken(t, " " + line);
      assert (" " + line)[1..] == line;
      AfterBlankThere(line);
    }
  }

  lemma AfterBlankThere(s: string)
    requires s != "" && !IsBlank(s[0])
    ensures AfterBlank(s) == Layout(s)
  {
  }
}
