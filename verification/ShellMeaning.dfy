/** Pipelines as syntax trees, what they mean, and the theorem that splitting, parsing and executing the printed
    form of a pipeline produces that meaning (Assignment-1/shell.c). */
module ShellMeaning {
  import opened ShellLexer
  import opened ShellParser
  import opened Octets
  import opened ShellKernel

  /** A command: its name followed by its arguments. */
  type Argv = seq<string>

  datatype Tail = End | Then(rest: seq<string>)

  /** `c | next`, `c`, `c || a , b` and `c ||| a , b , d`; the last three may be followed by `; rest`. In `c op rest` the
      readers or commas that the operator asks for are missing. */
  datatype Pipeline =
    | Stage(c: Argv, next: Pipeline)
    | Last(c: Argv, tail: Tail)
    | Fan2(c: Argv, a: Argv, b: Argv, tail: Tail)
    | Fan3(c: Argv, a: Argv, b: Argv, d: Argv, tail: Tail)
    | Broken(c: Argv, op: string, rest: seq<string>)

  ghost predicate IsArgv(c: Argv) {
    c != [] && c[0] != "cd" && forall k :: 0 <= k < |c| ==> IsWord(c[k])
  }

  ghost predicate IsTail(t: Tail) {
    t.Then? ==> !HasRedirect(t.rest) && forall k :: 0 <= k < |t.rest| ==> IsToken(t.rest[k])
  }

  /** One reader, two with a comma between them, or three with commas between them do not follow. */
  ghost predicate Incomplete(op: string, slots: seq<Slot>) {
    || (op == "|" && slots == [])
    || (op == "||" && (|slots| < 3 || slots[1].cmd != ","))
    || (op == "|||" && (|slots| < 5 || slots[1].cmd != "," || slots[3].cmd != ","))
  }

  ghost predicate WellFormed(p: Pipeline) {
    && IsArgv(p.c)
    && match p
       case Stage(_, next) => WellFormed(next)
       case Last(_, tail) => IsTail(tail)
       case Fan2(_, a, b, tail) => IsArgv(a) && IsArgv(b) && IsTail(tail)
       case Fan3(_, a, b, d, tail) => IsArgv(a) && IsArgv(b) && IsArgv(d) && IsTail(tail)
       case Broken(_, op, rest) =>
         && Incomplete(op, ParseTokens(rest))
         && !HasRedirect(rest) && forall k :: 0 <= k < |rest| ==> IsToken(rest[k])
  }

  // ---------------------------------------------------------------------------------------------
  // Meaning
  // ---------------------------------------------------------------------------------------------

  function RunArgv(run: Programs, c: Argv, input: Bytes): Bytes {
    if c == [] then [] else run(c[0], c, input)
  }

  /** The bytes a pipeline sends to the terminal. What follows `;` contributes nothing, and neither does anything in a
      pipeline that is broken. */
  function Denote(p: Pipeline, input: Bytes, run: Programs): Bytes {
    var s := RunArgv(run, p.c, input);
    match p
    case Stage(_, next) => Denote(next, s, run)
    case Last(_, _) => s
    case Fan2(_, a, b, _) => RunArgv(run, a, s) + RunArgv(run, b, s)
    case Fan3(_, a, b, d, _) => RunArgv(run, a, s) + RunArgv(run, b, s) + RunArgv(run, d, s)
    case Broken(_, _, _) => []
  }

  /** The same with only `n` slots left to execute: the executor's loop has a fixed bound. */
  function DenoteWithin(p: Pipeline, input: Bytes, run: Programs, n: int): Bytes {
    var s := RunArgv(run, p.c, input);
    match p
    case Stage(_, next) => DenoteWithin(next, s, run, n - 2)
    case Last(_, tail) => if n >= Need(p) then s else []
    case Fan2(_, a, b, _) => (if n >= 3 then RunArgv(run, a, s) else []) + (if n >= 5 then RunArgv(run, b, s) else [])
    case Fan3(_, a, b, d, _) =>
      (if n >= 3 then RunArgv(run, a, s) else []) + (if n >= 5 then RunArgv(run, b, s) else [])
      + (if n >= 7 then RunArgv(run, d, s) else [])
    case Broken(_, _, _) => []
  }

  /** The number of slots a pipeline needs to have its output delivered. */
  function Need(p: Pipeline): nat {
    match p
    case Stage(_, next) => if Need(next) == 0 then 0 else 2 + Need(next)
    case Last(_, tail) => if tail.End? then 1 else 2
    case Fan2(_, _, _, _) => 5
    case Fan3(_, _, _, _, _) => 7
    case Broken(_, _, _) => 0
  }

  lemma {:induction false} EnoughSlots(p: Pipeline, input: Bytes, run: Programs, n: int)
    requires n >= Need(p) || Need(p) == 0
    ensures DenoteWithin(p, input, run, n) == Denote(p, input, run)
  {
    if p.Stage? {
      EnoughSlots(p.next, RunArgv(run, p.c, input), run, n - 2);
    }
  }

  /** A program that always prints one byte tells a pipeline that is cut short from one that is not. */
  lemma {:induction false} TooFewSlots(p: Pipeline, input: Bytes, run: Programs, n: int)
    requires WellFormed(p) && n < Need(p) && 0 < Need(p)
    requires forall c, a, s :: run(c, a, s) == [1]
    ensures |DenoteWithin(p, input, run, n)| < |Denote(p, input, run)|
  {
    hide RunArgv, IsArgv, IsTail;
    var s := RunArgv(run, p.c, input);
    PrintsOne(run, p.c, input);
    match p
    case Stage(_, next) => TooFewSlots(next, s, run, n - 2);
    case Last(_, _) =>
    case Fan2(_, a, b, _) =>
      PrintsOne(run, a, s);
      PrintsOne(run, b, s);
    case Fan3(_, a, b, d, _) =>
      PrintsOne(run, a, s);
      PrintsOne(run, b, s);
      PrintsOne(run, d, s);
    case Broken(_, _, _) =>
  }

  lemma PrintsOne(run: Programs, c: Argv, s: Bytes)
    requires forall c, a, s :: run(c, a, s) == [1]
    requires IsArgv(c)
    ensures RunArgv(run, c, s) == [1]
  {
  }

  /** The loop bound is harmless, for all programs and inputs, exactly when the pipeline needs no more slots. */
  lemma BoundHarmlessIff(p: Pipeline, n: nat)
    requires WellFormed(p)
    ensures Need(p) <= n <==>
            forall input: Bytes, run: Programs :: DenoteWithin(p, input, run, n) == Denote(p, input, run)
  {
    if Need(p) <= n {
      forall input: Bytes, run: Programs
        ensures DenoteWithin(p, input, run, n) == Denote(p, input, run)
      {
        EnoughSlots(p, input, run, n);
      }
    } else {
      var one: Programs := (c, a, s) => [1];
      TooFewSlots(p, [], one, n);
    }
  }

  // ---------------------------------------------------------------------------------------------
  // Printing and parsing
  // ---------------------------------------------------------------------------------------------

  function TailTokens(t: Tail): seq<string> {
    if t.End? then [] else [";"] + t.rest
  }

  function Tokens(p: Pipeline): seq<string> {
    match p
    case Stage(c, next) => c + (["|"] + Tokens(next))
    case Last(c, tail) => c + TailTokens(tail)
    case Fan2(c, a, b, tail) => c + (["||"] + (a + ([","] + (b + TailTokens(tail)))))
    case Fan3(c, a, b, d, tail) => c + (["|||"] + (a + ([","] + (b + ([","] + (d + TailTokens(tail)))))))
    case Broken(c, op, rest) => c + ([op] + rest)
  }

  function CommandSlot(c: Argv): Slot {
    Slot(if c == [] then "" else c[0], c)
  }

  function TailSlots(t: Tail): seq<Slot> {
    if t.End? then [] else [Slot(";", [])] + ParseTokens(t.rest)
  }

  function Slots(p: Pipeline): seq<Slot> {
    match p
    case Stage(c, next) => [CommandSlot(c), Slot("|", [])] + Slots(next)
    case Last(c, tail) => [CommandSlot(c)] + TailSlots(tail)
    case Fan2(c, a, b, tail) =>
      [CommandSlot(c), Slot("||", [])] + ([CommandSlot(a), Slot(",", [])] + ([CommandSlot(b)] + TailSlots(tail)))
    case Fan3(c, a, b, d, tail) =>
      [CommandSlot(c), Slot("|||", [])]
      + ([CommandSlot(a), Slot(",", [])] + ([CommandSlot(b), Slot(",", [])] + ([CommandSlot(d)] + TailSlots(tail))))
    case Broken(c, op, rest) => [CommandSlot(c), Slot(op, [])] + ParseTokens(rest)
  }

  lemma WordsAreArguments(c: Argv)
    requires forall k :: 0 <= k < |c| ==> IsWord(c[k])
    ensures Plain(c)
  {
  }

  lemma ParseArgv(c: Argv, op: string, rest: seq<string>)
    requires IsArgv(c) && StartsOperator(op)
    ensures ParseTokens(c + ([op] + rest)) == [CommandSlot(c), Slot(op, [])] + ParseTokens(rest)
  {
    hide ParseTokens;
    WordsAreArguments(c);
    ParseCommand(c, op, rest);
  }

  lemma ParseLast(c: Argv, tail: Tail)
    requires IsArgv(c)
    ensures ParseTokens(c + TailTokens(tail)) == [CommandSlot(c)] + TailSlots(tail)
  {
    if tail.End? {
      WordsAreArguments(c);
      ArgCountIs(c, []);
      assert c + [] == c;
    } else {
      ParseArgv(c, ";", tail.rest);
    }
  }

  /** Parsing the tokens of a pipeline gives its slots. */
  lemma {:induction false} ParsePipeline(p: Pipeline)
    requires WellFormed(p)
    ensures ParseTokens(Tokens(p)) == Slots(p)
  {
    match p
    case Stage(c, next) =>
      ParsePipeline(next);
      ParseArgv(c, "|", Tokens(next));
    case Last(c, tail) =>
      ParseLast(c, tail);
    case Fan2(c, a, b, tail) =>
      ParseLast(b, tail);
      ParseArgv(a, ",", b + TailTokens(tail));
      ParseArgv(c, "||", a + ([","] + (b + TailTokens(tail))));
    case Fan3(c, a, b, d, tail) =>
      ParseLast(d, tail);
      ParseArgv(b, ",", d + TailTokens(tail));
      ParseArgv(a, ",", b + ([","] + (d + TailTokens(tail))));
      ParseArgv(c, "|||", a + ([","] + (b + ([","] + (d + TailTokens(tail))))));
    case Broken(c, op, rest) =>
      ParseArgv(c, op, rest);
  }

  ghost predicate AllTokens(tokens: seq<string>) {
    forall k :: 0 <= k < |tokens| ==> IsToken(tokens[k])
  }

  lemma TailIsTokens(c: Argv, tail: Tail)
    requires IsArgv(c) && IsTail(tail)
    ensures AllTokens(c + TailTokens(tail))
  {
  }

  lemma {:induction false} PipelineIsTokens(p: Pipeline)
    requires WellFormed(p)
    ensures AllTokens(Tokens(p)) && Tokens(p) != []
  {
    match p
    case Stage(c, next) => PipelineIsTokens(next);
    case Last(c, tail) => TailIsTokens(c, tail);
    case Fan2(c, a, b, tail) => TailIsTokens(b, tail);
    case Fan3(c, a, b, d, tail) => TailIsTokens(d, tail);
    case Broken(c, op, rest) =>
      assert IsOperator(op);
  }

  lemma {:induction false} MentionsAppend(a: seq<string>, b: seq<string>, c: char, d: char)
    ensures Mentions(a + b, c, d) <==> Mentions(a, c, d) || Mentions(b, c, d)
  {
    if a == [] {
      assert a + b == b;
    } else {
      assert (a + b)[1..] == a[1..] + b;
      MentionsAppend(a[1..], b, c, d);
    }
  }

  lemma {:induction false} WordsMentionNothing(c: Argv, x: char, y: char)
    requires forall k :: 0 <= k < |c| ==> IsWord(c[k])
    requires IsOperatorChar(x) && IsOperatorChar(y)
    ensures !Mentions(c, x, y)
  {
    if c != [] {
      WordsMentionNothing(c[1..], x, y);
    }
  }

  lemma CommandMentions(c: Argv, op: string, rest: seq<string>, x: char, y: char)
    requires IsArgv(c) && op != "" && IsOperatorChar(x) && IsOperatorChar(y)
    ensures Mentions(c + ([op] + rest), x, y) <==> StartsWith(op, x, y) || Mentions(rest, x, y)
  {
    MentionsAppend(c, [op] + rest, x, y);
    WordsMentionNothing(c, x, y);
    assert ([op] + rest)[1..] == rest;
  }

  lemma TailRedirect(c: Argv, tail: Tail)
    requires IsArgv(c) && IsTail(tail)
    ensures !HasRedirect(c + TailTokens(tail))
  {
    if tail.End? {
      WordsMentionNothing(c, '<', '>');
      assert c + [] == c;
    } else {
      CommandMentions(c, ";", tail.rest, '<', '>');
    }
  }

  /** A pipeline of more than one command is run by the pipeline executor: it has a `|` and no redirection. */
  lemma {:induction false} PipelineKinds(p: Pipeline)
    requires WellFormed(p)
    ensures !HasRedirect(Tokens(p))
    ensures !p.Last? ==> HasPipe(Tokens(p))
  {
    match p
    case Stage(c, next) =>
      PipelineKinds(next);
      CommandMentions(c, "|", Tokens(next), '<', '>');
      CommandMentions(c, "|", Tokens(next), '|', '|');
    case Last(c, tail) =>
      TailRedirect(c, tail);
    case Fan2(c, a, b, tail) =>
      TailRedirect(b, tail);
      var tb := b + TailTokens(tail);
      CommandMentions(a, ",", tb, '<', '>');
      CommandMentions(c, "||", a + ([","] + tb), '<', '>');
      CommandMentions(c, "||", a + ([","] + tb), '|', '|');
    case Fan3(c, a, b, d, tail) =>
      TailRedirect(d, tail);
      var td := d + TailTokens(tail);
      CommandMentions(b, ",", td, '<', '>');
      CommandMentions(a, ",", b + ([","] + td), '<', '>');
      CommandMentions(c, "|||", a + ([","] + (b + ([","] + td))), '<', '>');
      CommandMentions(c, "|||", a + ([","] + (b + ([","] + td))), '|', '|');
    case Broken(c, op, rest) =>
      CommandMentions(c, op, rest, '<', '>');
      CommandMentions(c, op, rest, '|', '|');
  }

  /** The parser, reading the slots that the splitter fills from the printed line, sees the pipeline's tokens. */
  lemma PrintedVisible(p: Pipeline)
    requires WellFormed(p)
    ensures Visible(Layout(PrintLine(Tokens(p)))) == Tokens(p)
  {
    PipelineIsTokens(p);
    LayoutOfPrinted(Tokens(p));
    VisibleAll(Tokens(p));
  }

  lemma {:induction false} VisibleAll(tokens: seq<string>)
    requires forall k :: 0 <= k < |tokens| ==> tokens[k] != ""
    ensures Visible(tokens) == tokens
  {
    if tokens != [] {
      VisibleAll(tokens[1..]);
    }
  }
}
