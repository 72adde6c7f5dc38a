/** The shell's parser (Assignment-1/shell.c, shell_parse): tokens to an array of commands in which the even
    slots hold a command with its arguments and the odd slots an operator. */
module ShellParser {
  import opened ShellLexer

  /** File descriptors. A zeroed descriptor is Stdin, the value -1 is NoFd. */
  datatype Fd = NoFd | Stdin | Out | PipeRead(id: nat) | PipeWrite(id: nat)

  /** A C array of two descriptors: index 0 is the reading end, index 1 the writing end. */
  datatype Ends = Ends(rd: Fd, wr: Fd)

  /** The C struct; cmd == "" stands for NULL. */
  datatype Command = Command(cmd: string, args: seq<string>, read: Ends, write: Ends)

  const ZEROED := Command("", [], Ends(Stdin, Stdin), Ends(Stdin, Stdin))
  const UNSET := Ends(NoFd, NoFd)

  /** What the parser decides about a slot: its word and its arguments. */
  datatype Slot = Slot(cmd: string, args: seq<string>)

  predicate StartsOperator(t: string) {
    t != "" && IsOperatorChar(t[0])
  }

  function ArgCount(tokens: seq<string>): (n: nat)
    ensures n <= |tokens|
    ensures forall k :: 0 <= k < n ==> !StartsOperator(tokens[k])
    ensures n < |tokens| ==> StartsOperator(tokens[n])
  {
    if tokens == [] || StartsOperator(tokens[0]) then 0 else 1 + ArgCount(tokens[1..])
  }

  function ParseTokens(tokens: seq<string>): seq<Slot>
    decreases |tokens|
  {
    if tokens == [] then []
    else
      var n := ArgCount(tokens);
      if n == |tokens| then [Slot(tokens[0], tokens)]
      else [Slot(tokens[0], tokens[..n]), Slot(tokens[n], [])] + ParseTokens(tokens[n + 1..])
  }

  /** Some token starts with `c` or with `d`. */
  predicate Mentions(tokens: seq<string>, c: char, d: char) {
    tokens != [] && (StartsWith(tokens[0], c, d) || Mentions(tokens[1..], c, d))
  }

  predicate StartsWith(t: string, c: char, d: char) {
    t != "" && (t[0] == c || t[0] == d)
  }

  predicate HasPipe(tokens: seq<string>) {
    Mentions(tokens, '|', '|')
  }

  predicate HasRedirect(tokens: seq<string>) {
    Mentions(tokens, '<', '>')
  }

  // ---------------------------------------------------------------------------------------------
  // What the parse means
  // ---------------------------------------------------------------------------------------------

  /** The tokens of a slot list: arguments of the even slots, the word of the odd ones. */
  function Unparse(slots: seq<Slot>): seq<string> {
    if slots == [] then []
    else if |slots| == 1 then slots[0].args
    else slots[0].args + ([slots[1].cmd] + Unparse(slots[2..]))
  }

  ghost predicate Plain(args: seq<string>) {
    forall k :: 0 <= k < |args| ==> !StartsOperator(args[k])
  }

  /** Commands at even positions, operators at odd ones; a command with no arguments is named by the
      operator behind it, and only the last command may lack an operator. */
  ghost predicate Alternates(slots: seq<Slot>) {
    if slots == [] then true
    else
      && Plain(slots[0].args)
      && (if |slots| == 1 then slots[0].args != [] && slots[0].cmd == slots[0].args[0]
          else
            && slots[0].cmd == (slots[0].args + [slots[1].cmd])[0]
            && StartsOperator(slots[1].cmd) && slots[1].args == []
            && Alternates(slots[2..]))
  }

  /** The parser loses no token, whatever the operators are and however they stand. */
  lemma {:induction false} ParseKeepsTokens(tokens: seq<string>)
    ensures Unparse(ParseTokens(tokens)) == tokens
    ensures Alternates(ParseTokens(tokens))
    decreases |tokens|
  {
    if tokens == [] {
      assert ParseTokens([]) == [];
    } else {
      hide *;
      if ArgCount(tokens) == |tokens| {
        OneSlot(tokens);
      } else {
        var args, op, rest := CommandInFront(tokens);
        ParseKeepsTokens(rest);
        KeepsCommand(args, op, rest);
      }
    }
  }

  lemma KeepsCommand(args: seq<string>, op: string, rest: seq<string>)
    requires Plain(args) && StartsOperator(op)
    requires Unparse(ParseTokens(rest)) == rest && Alternates(ParseTokens(rest))
    ensures var tokens := args + ([op] + rest);
            Unparse(ParseTokens(tokens)) == tokens && Alternates(ParseTokens(tokens))
  {
    hide *;
    ParseCommand(args, op, rest);
    PairInFront(Slot((args + [op])[0], args), Slot(op, []), ParseTokens(rest));
  }

  lemma CommandInFront(tokens: seq<string>) returns (args: seq<string>, op: string, rest: seq<string>)
    requires ArgCount(tokens) < |tokens|
    ensures tokens == args + ([op] + rest) && |rest| < |tokens|
    ensures Plain(args) && StartsOperator(op)
  {
    hide ArgCount, StartsOperator;
    var n := ArgCount(tokens);
    args, op, rest := tokens[..n], tokens[n], tokens[n + 1..];
    SplitAt(tokens, n);
    forall k | 0 <= k < |args| ensures !StartsOperator(args[k]) {
      assert args[k] == tokens[k];
    }
  }

  lemma SplitAt<T>(s: seq<T>, n: nat)
    requires n < |s|
    ensures s[..n] + ([s[n]] + s[n + 1..]) == s
  {
  }

  lemma ParseUnfold(tokens: seq<string>)
    requires tokens != []
    ensures var n := ArgCount(tokens);
            && (n == |tokens| ==> ParseTokens(tokens) == [Slot(tokens[0], tokens)])
            && (n < |tokens| ==>
                  ParseTokens(tokens)
                  == [Slot(tokens[0], tokens[..n]), Slot(tokens[n], [])] + ParseTokens(tokens[n + 1..]))
  {
    hide ArgCount, StartsOperator;
  }

  lemma OneSlot(tokens: seq<string>)
    requires tokens != [] && ArgCount(tokens) == |tokens|
    ensures Unparse(ParseTokens(tokens)) == tokens && Alternates(ParseTokens(tokens))
  {
    ParseUnfold(tokens);
    hide ArgCount, StartsOperator, ParseTokens;
    assert Plain(tokens);
  }

  lemma PairInFront(c: Slot, op: Slot, slots: seq<Slot>)
    ensures Unparse([c, op] + slots) == c.args + ([op.cmd] + Unparse(slots))
    ensures (&& Plain(c.args)
             && c.cmd == (c.args + [op.cmd])[0]
             && StartsOperator(op.cmd) && op.args == [] && Alternates(slots))
            ==> Alternates([c, op] + slots)
  {
    hide StartsOperator, Plain;
    var all := [c, op] + slots;
    assert all[2..] == slots && all[0] == c && all[1] == op;
  }

  lemma ArgCountIs(args: seq<string>, rest: seq<string>)
    requires Plain(args)
    requires rest == [] || StartsOperator(rest[0])
    ensures ArgCount(args + rest) == |args|
  {
    assert forall k :: 0 <= k < |args| ==> (args + rest)[k] == args[k];
    assert rest != [] ==> (args + rest)[|args|] == rest[0];
  }

  lemma AlternatesUnfold(slots: seq<Slot>)
    requires Alternates(slots) && slots != []
    ensures Plain(slots[0].args)
    ensures |slots| == 1 ==> slots[0].args != [] && Unparse(slots) == slots[0].args
                             && slots[0].cmd == slots[0].args[0]
    ensures |slots| > 1 ==>
      && Unparse(slots) == slots[0].args + ([slots[1].cmd] + Unparse(slots[2..])) && slots[1].args == []
      && StartsOperator(slots[1].cmd) && Alternates(slots[2..])
      && slots[0].cmd == (slots[0].args + [slots[1].cmd])[0]
  {
    hide Plain, StartsOperator;
  }

  /** The parse is the only alternating slot list with these tokens. */
  lemma {:induction false} ParseIsUnique(slots: seq<Slot>)
    requires Alternates(slots)
    ensures ParseTokens(Unparse(slots)) == slots
    decreases |slots|
  {
    if slots != [] {
      hide *;
      if |slots| == 1 {
        LastCommand(slots);
      } else {
        AlternatesUnfold(slots);
        ParseIsUnique(slots[2..]);
        ParseCommand(slots[0].args, slots[1].cmd, Unparse(slots[2..]));
        PairIs(slots);
      }
    }
  }

  lemma PairIs(slots: seq<Slot>)
    requires |slots| > 1 && slots[1].args == []
    requires slots[0].cmd == (slots[0].args + [slots[1].cmd])[0]
    ensures [Slot((slots[0].args + [slots[1].cmd])[0], slots[0].args), Slot(slots[1].cmd, [])] + slots[2..] == slots
  {
  }

  lemma LastCommand(slots: seq<Slot>)
    requires |slots| == 1 && Alternates(slots)
    ensures ParseTokens(Unparse(slots)) == slots
  {
    hide *;
    AlternatesUnfold(slots);
    var args := slots[0].args;
    NoArgumentLeft(args);
    ParseUnfold(args);
    assert slots == [Slot(args[0], args)];
  }

  lemma NoArgumentLeft(args: seq<string>)
    requires Plain(args)
    ensures ArgCount(args) == |args|
  {
    hide StartsOperator;
    ArgCountIs(args, []);
    assert args + [] == args;
  }

  /** A command's arguments and the operator behind them make two slots. */
  lemma ParseCommand(args: seq<string>, op: string, behind: seq<string>)
    requires Plain(args) && StartsOperator(op)
    ensures ParseTokens(args + ([op] + behind))
            == [Slot((args + [op])[0], args), Slot(op, [])] + ParseTokens(behind)
  {
    hide *;
    var tokens, n := args + ([op] + behind), |args|;
    ArgCountIs(args, [op] + behind);
    ParseUnfold(tokens);
    assert tokens[..n] == args && tokens[n] == op && tokens[n + 1..] == behind;
    assert tokens[0] == (args + [op])[0];
  }

  // ---------------------------------------------------------------------------------------------
  // The parser
  // ---------------------------------------------------------------------------------------------

  /** What the parser stores for slot number k: descriptors are set to -1 in the command slots only. */
  function Stored(slot: Slot, k: nat): Command {
    if k % 2 == 0 then Command(slot.cmd, slot.args, UNSET, UNSET)
    else ZEROED.(cmd := slot.cmd, args := slot.args)
  }

  ghost predicate Image(cmds: seq<Command>, slots: seq<Slot>) {
    && |slots| + 3 < |cmds|
    && (forall k :: 0 <= k < |slots| ==> cmds[k] == Stored(slots[k], k))
    && (forall k :: |slots| <= k < |cmds| ==> cmds[k] == ZEROED)
  }

  method GrowCommands(a: array<Command>, size: nat) returns (b: array<Command>)
    requires a.Length <= size
    ensures fresh(b) && b.Length == size
    ensures b[..a.Length] == a[..]
    ensures forall k :: a.Length <= k < size ==> b[k] == ZEROED
  {
    b := new Command[size](k requires 0 <= k < size reads a => if k < a.Length then a[k] else ZEROED);
  }

  /** A token table whose first empty slot stands right behind `tokens`. */
  ghost predicate Terminated(args: seq<string>, tokens: seq<string>) {
    && |tokens| < |args|
    && args[|tokens|] == ""
    && (forall k :: 0 <= k < |tokens| ==> args[k] == tokens[k] && tokens[k] != "")
  }

  lemma VisibleTerminated(args: seq<string>)
    requires |Visible(args)| < |args|
    ensures Terminated(args, Visible(args))
  {
    var tokens := Visible(args);
    assert forall k :: 0 <= k < |tokens| ==> tokens[k] in tokens;
  }

  /** The parser's inner loop: arguments up to the next operator or the end. */
  method CopyArgs(args: array<string>, pos: nat, ghost tokens: seq<string>)
    returns (pos': nat, list: seq<string>)
    requires Terminated(args[..], tokens) && pos < |tokens|
    ensures pos' == pos + ArgCount(tokens[pos..])
    ensures list == tokens[pos..][..ArgCount(tokens[pos..])]
  {
    ghost var rest := tokens[pos..];
    ghost var n := ArgCount(rest);
    pos', list := pos, [];
    assert forall k :: 0 <= k < args.Length ==> args[..][k] == args[k];
    assert forall k :: 0 <= k < |rest| ==> rest[k] == tokens[pos + k];
    while args[pos'] != "" && !IsOperatorChar(args[pos'][0])
      invariant pos <= pos' <= pos + n
      invariant list == rest[..pos' - pos]
      decreases |tokens| - pos'
    {
      assert rest[..pos' - pos + 1] == rest[..pos' - pos] + [args[pos']];
      list := list + [args[pos']];
      pos' := pos' + 1;
    }
  }

  /** Stores one command and the operator behind it: the body of the parser's loop. */
  method ParseOne(args: array<string>, cmds: array<Command>, cmdNo: nat, pos: nat,
                  ghost tokens: seq<string>, ghost slots: seq<Slot>)
    returns (cmdNo': nat, pos': nat, op: string)
    requires Terminated(args[..], tokens) && pos < |tokens|
    requires cmdNo + 5 < cmds.Length && cmdNo % 2 == 0 && cmdNo == |slots|
    requires Image(cmds[..], slots)
    modifies cmds
    ensures Image(cmds[..], slots + NextSlots(tokens[pos..]))
    ensures pos < pos' <= |tokens| && cmdNo' == cmdNo + |NextSlots(tokens[pos..])|
    ensures tokens[pos'..] == AfterSlots(tokens[pos..])
    ensures pos' < |tokens| ==> cmdNo' % 2 == 0
    ensures var n := ArgCount(tokens[pos..]);
            op == if pos + n == |tokens| then "" else tokens[pos + n]
  {
    hide Image, Terminated, NextSlots, AfterSlots, ArgCount, Stored;
    ghost var rest := tokens[pos..];
    ghost var n := ArgCount(rest);
    NextSlotsAre(rest);
    pos' := PutCommand(args, cmds, cmdNo, pos, tokens, slots);
    ghost var slot := Slot(rest[0], rest[..n]);
    cmdNo', op := cmdNo, "";
    TerminatedAt(args[..], tokens, pos');
    if args[pos'] != "" {
      cmdNo', op := cmdNo' + 1, args[pos'];
      ghost var before := cmds[..];
      ImageAppend(before, slots + [slot], Slot(op, []));
      StoredOperator(op, cmdNo');
      cmds[cmdNo'] := cmds[cmdNo'].(cmd := op);
      assert cmds[..] == before[cmdNo' := Stored(Slot(op, []), cmdNo')];
      pos' := pos' + 1;
      assert slots + NextSlots(rest) == slots + [slot] + [Slot(op, [])];
    }
    cmdNo' := cmdNo' + 1;
  }

  lemma NextSlotsAre(rest: seq<string>)
    requires rest != []
    ensures var n := ArgCount(rest);
            var slot := Slot(rest[0], rest[..n]);
            && (n == |rest| ==> NextSlots(rest) == [slot] && AfterSlots(rest) == [])
            && (n < |rest| ==> NextSlots(rest) == [slot, Slot(rest[n], [])] && AfterSlots(rest) == rest[n + 1..])
  {
    assert rest[..|rest|] == rest;
  }

  lemma TerminatedAt(args: seq<string>, tokens: seq<string>, pos: nat)
    requires Terminated(args, tokens) && pos <= |tokens|
    ensures pos < |args| && (args[pos] == "" <==> pos == |tokens|)
    ensures pos < |tokens| ==> args[pos] == tokens[pos]
  {
  }

  /** Stores one command with its arguments. */
  method PutCommand(args: array<string>, cmds: array<Command>, cmdNo: nat, pos: nat,
                    ghost tokens: seq<string>, ghost slots: seq<Slot>)
    returns (pos': nat)
    requires Terminated(args[..], tokens) && pos < |tokens|
    requires cmdNo + 5 < cmds.Length && cmdNo % 2 == 0 && cmdNo == |slots|
    requires Image(cmds[..], slots)
    modifies cmds
    ensures var rest := tokens[pos..];
            pos' == pos + ArgCount(rest)
            && Image(cmds[..], slots + [Slot(rest[0], rest[..ArgCount(rest)])])
  {
    hide Image;
    ghost var rest, before := tokens[pos..], cmds[..];
    TerminatedAt(args[..], tokens, pos);
    ImageAppend(before, slots, Slot(rest[0], rest[..ArgCount(rest)]));
    cmds[cmdNo] := cmds[cmdNo].(cmd := args[pos], read := UNSET, write := UNSET);
    var list;
    pos', list := CopyArgs(args, pos, tokens);
    cmds[cmdNo] := cmds[cmdNo].(args := list);
    assert cmds[..] == before[cmdNo := Stored(Slot(rest[0], rest[..ArgCount(rest)]), cmdNo)];
  }

  lemma StoredOperator(op: string, k: nat)
    requires k % 2 == 1
    ensures Stored(Slot(op, []), k) == ZEROED.(cmd := op)
  {
  }

  lemma ImageAppend(cmds: seq<Command>, slots: seq<Slot>, slot: Slot)
    requires Image(cmds, slots) && |slots| + 4 < |cmds|
    ensures cmds[|slots|] == ZEROED
    ensures Image(cmds[|slots| := Stored(slot, |slots|)], slots + [slot])
  {
  }

  /** The slots that one round of the parser's loop adds. */
  function NextSlots(rest: seq<string>): (slots: seq<Slot>)
    requires rest != []
    ensures 1 <= |slots| <= 2
  {
    var n := ArgCount(rest);
    if n == |rest| then [Slot(rest[0], rest)] else [Slot(rest[0], rest[..n]), Slot(rest[n], [])]
  }

  function AfterSlots(rest: seq<string>): seq<string>
    requires rest != []
  {
    if ArgCount(rest) == |rest| then [] else rest[ArgCount(rest) + 1..]
  }

  lemma {:induction false} MentionsStep(rest: seq<string>, c: char, d: char)
    requires rest != [] && IsOperatorChar(c) && IsOperatorChar(d)
    ensures Mentions(rest, c, d) <==>
            (ArgCount(rest) < |rest| && StartsWith(rest[ArgCount(rest)], c, d)) || Mentions(AfterSlots(rest), c, d)
  {
    if ArgCount(rest) > 0 && |rest| > 1 {
      MentionsStep(rest[1..], c, d);
      if ArgCount(rest) < |rest| {
        assert rest[1..][ArgCount(rest[1..]) + 1..] == rest[ArgCount(rest) + 1..];
      }
    }
  }

  /** The parser's loop on values: the slots so far, and which operator kinds have been seen. */
  ghost predicate Parsing(tokens: seq<string>, pos: nat, slots: seq<Slot>, isp: bool, isr: bool) {
    && pos <= |tokens|
    && ParseTokens(tokens) == slots + ParseTokens(tokens[pos..])
    && (HasPipe(tokens) <==> isp || HasPipe(tokens[pos..]))
    && (HasRedirect(tokens) <==> isr || HasRedirect(tokens[pos..]))
  }

  lemma ParsingStep(tokens: seq<string>, pos: nat, pos': nat, slots: seq<Slot>, isp: bool, isr: bool, op: string)
    requires Parsing(tokens, pos, slots, isp, isr)
    requires pos < pos' <= |tokens| && tokens[pos'..] == AfterSlots(tokens[pos..])
    requires var n := ArgCount(tokens[pos..]);
             op == if pos + n == |tokens| then "" else tokens[pos + n]
    ensures Parsing(tokens, pos', slots + NextSlots(tokens[pos..]),
                    isp || StartsWith(op, '|', '|'), isr || StartsWith(op, '<', '>'))
  {
    var rest := tokens[pos..];
    MentionsStep(rest, '|', '|');
    MentionsStep(rest, '<', '>');
    assert slots + ParseTokens(rest) == slots + NextSlots(rest) + ParseTokens(AfterSlots(rest));
  }

  method EnsureRoom(cmds: array<Command>, cmdNo: nat, ghost slots: seq<Slot>) returns (bigger: array<Command>)
    requires Image(cmds[..], slots) && cmdNo == |slots|
    ensures bigger == cmds || fresh(bigger)
    ensures Image(bigger[..], slots) && cmdNo + 5 < bigger.Length
  {
    bigger := cmds;
    if cmdNo + 5 >= cmds.Length {
      bigger := GrowCommands(cmds, 2 * cmds.Length);
      ImageGrown(cmds[..], bigger[..], slots);
    }
  }

  method Parse(args: array<string>, isPipeline0: bool)
    returns (cmds: array<Command>, ok: bool, isPipeline: bool)
    requires |Visible(args[..])| < args.Length
    ensures fresh(cmds)
    ensures Image(cmds[..], ParseTokens(Visible(args[..])))
    ensures var tokens := Visible(args[..]);
            && (ok <==> tokens != [] && !(HasPipe(tokens) && HasRedirect(tokens)))
            && isPipeline == (if ok then HasPipe(tokens) else isPipeline0)
  {
    ghost var tokens := Visible(args[..]);
    ghost var slots: seq<Slot> := [];
    VisibleTerminated(args[..]);
    cmds := new Command[128](_ => ZEROED);
    var cmdNo: nat, pos: nat, isp, isr := 0, 0, false, false;
    assert tokens[0..] == tokens;
    while args[pos] != ""
      invariant fresh(cmds)
      invariant Parsing(tokens, pos, slots, isp, isr)
      invariant Image(cmds[..], slots)
      invariant cmdNo == |slots| && (pos < |tokens| ==> cmdNo % 2 == 0)
      decreases |tokens| - pos
    {
      assert args[..][pos] == args[pos];
      cmds := EnsureRoom(cmds, cmdNo, slots);
      ghost var pos0 := pos;
      var op;
      cmdNo, pos, op := ParseOne(args, cmds, cmdNo, pos, tokens, slots);
      ParsingStep(tokens, pos0, pos, slots, isp, isr, op);
      slots := slots + NextSlots(tokens[pos0..]);
      if op != "" {
        if op[0] == '|' { isp := true; }
        if op[0] == '<' || op[0] == '>' { isr := true; }
      }
    }
    assert pos == |tokens| by { assert args[..][pos] == args[pos]; }
    assert tokens[pos..] == [] && slots + [] == slots;
    if pos == 0 {
      return cmds, false, isPipeline0;
    }
    if isp && isr {
      return cmds, false, isPipeline0;
    }
    return cmds, true, isp;
  }

  lemma ImageGrown(cmds: seq<Command>, bigger: seq<Command>, slots: seq<Slot>)
    requires Image(cmds, slots) && |cmds| <= |bigger|
    requires bigger[..|cmds|] == cmds && forall k :: |cmds| <= k < |bigger| ==> bigger[k] == ZEROED
    ensures Image(bigger, slots)
  {
    assert forall k :: 0 <= k < |cmds| ==> bigger[k] == bigger[..|cmds|][k];
  }
}
