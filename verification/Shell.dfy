/** The shell's loop body (Assignment-1/shell.c, shell_loop): split, parse, execute. */
module Shell {
  import opened ShellLexer
  import opened ShellParser
  import opened ShellKernel
  import opened ShellExecutor
  import opened ShellMeaning
  import opened ShellExecution

  /** Every token of the reference lexer is a word or one of the eight operators. */
  lemma {:induction false} LexGivesTokens(s: string)
    ensures AllTokens(Lex(s))
    decreases |s|
  {
    if s == "" {
    } else if IsBlank(s[0]) {
      LexGivesTokens(s[1..]);
    } else if IsOperatorChar(s[0]) {
      var n := OperatorLength(s);
      LexGivesTokens(s[n..]);
      assert n == 1 ==> s[..n] == [s[0]];
      assert IsOperator(s[..n]);
    } else {
      var n := WordLength(s);
      LexGivesTokens(s[n..]);
      assert IsWord(s[..n]);
    }
  }

  /** The odd slots of a parse hold operators, and no slot is unnamed. */
  ghost predicate Named(slots: seq<Slot>, tokens: seq<string>) {
    forall k :: 0 <= k < |slots| ==> slots[k].cmd in tokens && (k % 2 == 1 ==> StartsOperator(slots[k].cmd))
  }

  lemma {:induction false} ParseNames(tokens: seq<string>)
    ensures Named(ParseTokens(tokens), tokens)
    decreases |tokens|
  {
    if tokens == [] {
      assert ParseTokens(tokens) == [];
    } else {
      hide *;
      if ArgCount(tokens) < |tokens| {
        ParseNames(tokens[ArgCount(tokens) + 1..]);
        NamedCommand(tokens);
      } else {
        NamedOne(tokens);
      }
    }
  }

  lemma NamedCommand(tokens: seq<string>)
    requires ArgCount(tokens) < |tokens|
    requires var rest := tokens[ArgCount(tokens) + 1..]; Named(ParseTokens(rest), rest)
    ensures Named(ParseTokens(tokens), tokens)
  {
    hide *;
    ParseUnfold(tokens);
    OperatorAt(tokens);
    NamedMore(tokens, ArgCount(tokens), ParseTokens(tokens[ArgCount(tokens) + 1..]));
  }

  lemma OperatorAt(tokens: seq<string>)
    requires ArgCount(tokens) < |tokens|
    ensures StartsOperator(tokens[ArgCount(tokens)])
  {
    hide StartsOperator;
  }

  lemma NamedOne(tokens: seq<string>)
    requires tokens != [] && ArgCount(tokens) == |tokens|
    ensures Named(ParseTokens(tokens), tokens)
  {
    ParseUnfold(tokens);
    hide *;
    NamedFirst(tokens, Slot(tokens[0], tokens));
  }

  lemma NamedFirst(tokens: seq<string>, slot: Slot)
    requires tokens != [] && slot.cmd == tokens[0]
    ensures Named([slot], tokens)
  {
    hide StartsOperator;
  }

  lemma NamedMore(tokens: seq<string>, n: nat, slots: seq<Slot>)
    requires n < |tokens| && StartsOperator(tokens[n]) && Named(slots, tokens[n + 1..])
    ensures Named([Slot(tokens[0], tokens[..n]), Slot(tokens[n], [])] + slots, tokens)
  {
    hide StartsOperator;
    var all := [Slot(tokens[0], tokens[..n]), Slot(tokens[n], [])] + slots;
    forall k | 0 <= k < |all| ensures all[k].cmd in tokens && (k % 2 == 1 ==> StartsOperator(all[k].cmd)) {
      if k >= 2 { assert all[k] == slots[k - 2]; }
    }
  }

  lemma {:induction false} NoRedirectToken(tokens: seq<string>, t: string)
    requires !HasRedirect(tokens) && t in tokens && IsToken(t) && StartsOperator(t)
    ensures IsBuiltin(t)
  {
    if t == tokens[0] {
      assert !StartsWith(t, '<', '>');
    } else {
      NoRedirectToken(tokens[1..], t);
    }
  }

  /** Whatever line was typed, its parse is an array the executor can run if there is no redirection in it. */
  lemma ParsedIsRunnable(tokens: seq<string>, cs: seq<Command>, k: Kernel)
    requires tokens != [] && AllTokens(tokens) && !HasRedirect(tokens)
    requires Image(cs, ParseTokens(tokens))
    ensures Bounded(cs, |ParseTokens(tokens)|) && Sane(FromStdin(cs), k, 0)
  {
    var slots := ParseTokens(tokens);
    ParseNames(tokens);
    forall j | 0 <= j < |slots| ensures slots[j].cmd != "" && (j % 2 == 1 ==> IsBuiltin(slots[j].cmd)) {
      NamedSlot(tokens, slots, j);
    }
    hide ParseTokens, HasRedirect, IsBuiltin;
    RunnableImage(slots, cs, k);
  }

  lemma NamedSlot(tokens: seq<string>, slots: seq<Slot>, j: nat)
    requires AllTokens(tokens) && !HasRedirect(tokens) && Named(slots, tokens) && j < |slots|
    ensures slots[j].cmd != "" && (j % 2 == 1 ==> IsBuiltin(slots[j].cmd))
  {
    assert slots[j].cmd in tokens && IsToken(slots[j].cmd);
    if j % 2 == 1 {
      NoRedirectToken(tokens, slots[j].cmd);
    }
    hide HasRedirect, IsBuiltin;
  }

  lemma RunnableImage(slots: seq<Slot>, cs: seq<Command>, k: Kernel)
    requires slots != [] && Image(cs, slots)
    requires forall j :: 0 <= j < |slots| ==> slots[j].cmd != "" && (j % 2 == 1 ==> IsBuiltin(slots[j].cmd))
    ensures Bounded(cs, |slots|) && Sane(FromStdin(cs), k, 0)
  {
    hide IsBuiltin;
    forall j | 0 <= j < |slots| ensures cs[j].cmd == slots[j].cmd {
      assert cs[j] == Stored(slots[j], j);
    }
  }

  lemma ImageIsLaid(cs: seq<Command>, slots: seq<Slot>)
    requires Image(cs, slots)
    ensures Laid(FromStdin(cs), 0, |slots|, slots)
  {
    forall j | 0 <= j < |slots| ensures HasSlot(FromStdin(cs)[0 + j], slots[j], j) {
      assert cs[j] == Stored(slots[j], j);
    }
  }

  /** run(parse(split(print(p)))) is the meaning of p, as far as the executor's loop bound reaches. */
  lemma MeaningPreserved(p: Pipeline, cs: seq<Command>, k: Kernel, run: Programs)
    requires WellFormed(p) && Quiet(k) && k.outOpen && k.stdinOpen
    requires Image(cs, ParseTokens(Visible(Layout(PrintLine(Tokens(p))))))
    ensures var n := |Slots(p)|;
            && Bounded(FromStdin(cs), n) && Sane(FromStdin(cs), k, 0)
            && Exec(FromStdin(cs), k, 0, n, run).terminal
               == k.terminal + DenoteWithin(p, k.stdin, run, BUFFER_SIZE)
            && Exec(FromStdin(cs), k, 0, n, run).stdin == []
  {
    hide Exec, DenoteWithin, WellFormed, Slots, Tokens, Image, ParseTokens, Laid, Layout, PrintLine, Visible;
    PrintedVisible(p);
    ParsePipeline(p);
    PipelineKinds(p);
    PipelineIsTokens(p);
    ParsedIsRunnable(Tokens(p), cs, k);
    ImageIsLaid(cs, Slots(p));
    ExecPipeline(p, FromStdin(cs), k, 0, |Slots(p)|, run);
    StartsWithCommand(p, FromStdin(cs));
    ExecEmptiesInput(FromStdin(cs), k, |Slots(p)|, run);
  }

  lemma StartsWithCommand(p: Pipeline, cs: seq<Command>)
    requires WellFormed(p) && Laid(cs, 0, |Slots(p)|, Slots(p))
    ensures Slots(p) != [] && !IsBuiltin(cs[0].cmd)
  {
    LaidCommand(cs, 0, |Slots(p)|, p.c, Slots(p), 0);
    CommandIsExternal(cs[0], p.c);
  }

  /** One of the tokens is one of these three. */
  ghost predicate Contains(tokens: seq<string>, a: string, b: string, c: string) {
    exists k :: 0 <= k < |tokens| && tokens[k] in {a, b, c}
  }

  /** What the parser takes for a pipe, and what for a redirection. */
  lemma {:induction false} KindsIff(tokens: seq<string>)
    requires AllTokens(tokens)
    ensures HasPipe(tokens) <==> Contains(tokens, "|", "||", "|||")
    ensures HasRedirect(tokens) <==> Contains(tokens, "<", ">", ">>")
  {
    if tokens != [] {
      var t, rest := tokens[0], tokens[1..];
      KindsIff(rest);
      KindOfToken(t);
      ContainsCons(tokens, "|", "||", "|||");
      ContainsCons(tokens, "<", ">", ">>");
      hide StartsWith, Contains;
    }
  }

  lemma KindOfToken(t: string)
    requires IsToken(t)
    ensures StartsWith(t, '|', '|') <==> t in {"|", "||", "|||"}
    ensures StartsWith(t, '<', '>') <==> t in {"<", ">", ">>"}
  {
    if IsWord(t) { assert IsWordChar(t[0]); }
  }

  lemma ContainsCons(tokens: seq<string>, a: string, b: string, c: string)
    requires tokens != []
    ensures Contains(tokens, a, b, c) <==> tokens[0] in {a, b, c} || Contains(tokens[1..], a, b, c)
  {
    if Contains(tokens, a, b, c) {
      var k :| 0 <= k < |tokens| && tokens[k] in {a, b, c};
      if k > 0 { assert tokens[1..][k - 1] == tokens[k]; }
    }
    if Contains(tokens[1..], a, b, c) {
      var k :| 0 <= k < |tokens[1..]| && tokens[1..][k] in {a, b, c};
      assert tokens[k + 1] == tokens[1..][k];
    }
  }

  /** What the executor makes of any line: the slot-by-slot evaluation of the tokens the parser sees. */
  ghost predicate Evaluates(line: string, k0: Kernel, run: Programs, k: Kernel) {
    var slots := ParseTokens(Visible(Layout(line)));
    exists cs: seq<Command> ::
      && Image(cs, slots) && slots != []
      && Bounded(FromStdin(cs), |slots|) && Quiet(Entered(k0)) && Sane(FromStdin(cs), Entered(k0), 0)
      && k == Restored(k0, Exec(FromStdin(cs), Entered(k0), 0, |slots|, run))
  }

  /** What shell_execute_redirected makes of an array of commands: a parameter. */
  type Redirected = (seq<Command>, Kernel) -> Kernel

  /** The other executor is called once, with the image of the same parse. */
  ghost predicate Redirects(line: string, k0: Kernel, redirected: Redirected, k: Kernel) {
    exists cs: seq<Command> :: Image(cs, ParseTokens(Visible(Layout(line)))) && k == redirected(cs, k0)
  }

  /** One turn of the shell's loop on any line. It is a pipeline exactly as the parser decides, and then it is evaluated
      slot by slot; any other line goes to the other executor, and one without a parse changes nothing. A line that is
      the printed form of a pipeline `p` of more than one command is a pipeline, sends the meaning of `p` to the
      terminal, and reads all of standard input. Standard input stays open behind a pipeline. */
  method InterpretLine(line: string, isPipeline0: bool, k0: Kernel, run: Programs, redirected: Redirected,
                       ghost p: Pipeline)
    returns (isPipeline: bool, k: Kernel)
    requires Quiet(k0)
    ensures var tokens := Visible(Layout(line));
            var ok := tokens != [] && !(HasPipe(tokens) && HasRedirect(tokens));
            && isPipeline == (if ok then HasPipe(tokens) else isPipeline0)
            && (!ok ==> k == k0)
            && (ok && isPipeline ==> Evaluates(line, k0, run, k) && k.stdinOpen == k0.stdinOpen)
            && (ok && !isPipeline ==> Redirects(line, k0, redirected, k))
    ensures WellFormed(p) && !p.Last? && line == PrintLine(Tokens(p)) && k0.stdinOpen ==>
              && isPipeline
              && k.terminal == k0.terminal + DenoteWithin(p, k0.stdin, run, 128) && k.stdin == []
              && (Need(p) <= 128 ==> k.terminal == k0.terminal + Denote(p, k0.stdin, run))
  {
    hide Exec, DenoteWithin, WellFormed, Denote, Need, Quiet, Sane, Bounded, Image;
    k := k0;
    var tokens := SplitLine(line);
    ghost var seen := Visible(tokens[..]);
    VisiblePrefix(tokens[..], Layout(line));
    VisibleTokens(line);
    LexGivesTokens(line);
    assert AllTokens(seen);
    var cmds, ok;
    cmds, ok, isPipeline := Parse(tokens, isPipeline0);
    ghost var printed := WellFormed(p) && !p.Last? && line == PrintLine(Tokens(p));
    if printed {
      PrintedVisible(p);
      PipelineKinds(p);
      PipelineIsTokens(p);
    }
    if ok && !isPipeline {
      k := redirected(cmds[..], k0);
    } else if ok {
      ParsedIsRunnable(seen, cmds[..], Entered(k0));
      ParsedSomething(seen);
      EnteredQuiet(k0);
      ghost var cs := cmds[..];
      if printed && k0.stdinOpen {
        MeaningPreserved(p, cs, Entered(k0), run);
        ParsePipeline(p);
        if Need(p) <= BUFFER_SIZE {
          EnoughSlots(p, k0.stdin, run, BUFFER_SIZE);
        }
      }
      k := Execute(cmds, k0, run, |ParseTokens(seen)|);
      assert Image(cs, ParseTokens(seen));
    }
  }

  lemma ParsedSomething(tokens: seq<string>)
    requires tokens != []
    ensures ParseTokens(tokens) != []
  {
  }

  lemma EnteredQuiet(k: Kernel)
    requires Quiet(k)
    ensures Quiet(Entered(k))
  {
  }
}
