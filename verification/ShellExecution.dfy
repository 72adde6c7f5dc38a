/** Executing the slots of a pipeline: the terminal receives what the pipeline denotes. */
module ShellExecution {
  import opened ShellLexer
  import opened ShellParser
  import opened Octets
  import opened ShellKernel
  import opened ShellExecutor
  import opened ShellMeaning

  /** The slots are stored from `i` to the end of the array, and no command among them has been started. */
  ghost predicate Laid(cs: seq<Command>, i: nat, n: nat, slots: seq<Slot>) {
    && i + |slots| == n < |cs|
    && forall j :: 0 <= j < |slots| ==> HasSlot(cs[i + j], slots[j], j)
  }

  ghost predicate HasSlot(c: Command, s: Slot, j: nat) {
    c.cmd == s.cmd && c.args == s.args && (j % 2 == 0 ==> c.write == UNSET)
  }

  /** The descriptor can be read, and this is what it holds. */
  ghost predicate Offers(k: Kernel, fd: Fd, data: Bytes) {
    CanRead(k, fd) && Content(k, fd) == data
  }

  lemma OffersInput(k: Kernel, fd: Fd, data: Bytes)
    requires Offers(k, fd, data)
    ensures ChildInput(k, fd) == data
  {
  }

  /** An external command that is followed by another slot: the next slot can read its output, and nothing has
      reached the terminal. */
  lemma AfterCommand(cs: seq<Command>, k: Kernel, i: nat, run: Programs)
    requires i + 1 < |cs| && cs[i + 1].cmd != "" && cs[i].write == UNSET && Known(k, cs[i].read.rd)
    ensures var o := RunCommand(cs, k, i, run);
            && Offers(o.kernel, o.cmds[i + 1].read.rd, run(cs[i].cmd, cs[i].args, ChildInput(k, cs[i].read.rd)))
            && o.kernel.terminal == k.terminal && o.kernel.outOpen == k.outOpen
            && o.cmds[i + 1].cmd == cs[i + 1].cmd && |o.cmds| == |cs|
            && forall j :: i + 1 < j < |cs| ==> o.cmds[j] == cs[j]
  {
  }

  /** The last command's output goes to the terminal. */
  lemma AfterLastCommand(cs: seq<Command>, k: Kernel, i: nat, run: Programs)
    requires i + 1 < |cs| && cs[i + 1].cmd == "" && cs[i].write == UNSET && Known(k, cs[i].read.rd) && k.outOpen
    ensures RunCommand(cs, k, i, run).kernel.terminal
            == k.terminal + run(cs[i].cmd, cs[i].args, ChildInput(k, cs[i].read.rd))
  {
  }

  /** `|` hands the stream on. */
  lemma AfterPipe(cs: seq<Command>, k: Kernel, i: nat)
    requires i + 1 < |cs| && Known(k, cs[i].read.rd)
    ensures var o := FanOut(cs, k, i, 1);
            && Offers(o.kernel, o.cmds[i + 1].read.rd, Content(k, cs[i].read.rd))
            && o.kernel.terminal == k.terminal && o.kernel.outOpen == k.outOpen
            && |o.cmds| == |cs|
            && o.cmds[i + 1] == cs[i + 1].(read := o.cmds[i + 1].read)
            && forall j :: i + 1 < j < |cs| ==> o.cmds[j] == cs[j]
  {
  }

  /** `||` and `|||` give every reader the whole stream, in a pipe of its own, and send it to the terminal. */
  lemma AfterFan(cs: seq<Command>, k: Kernel, i: nat, m: nat, t: nat)
    requires t < m && 2 <= m && i + 2 * m <= |cs| && Known(k, cs[i].read.rd)
    ensures var o := FanOut(cs, k, i, m);
            && |o.cmds| == |cs|
            && o.cmds[i + 1 + 2 * t] == Branch(cs[i + 1 + 2 * t], |k.pipes| + t)
            && (i + 2 + 2 * t < |cs| ==> o.cmds[i + 2 + 2 * t] == cs[i + 2 + 2 * t])
            && (forall j :: i + 2 * m <= j < |cs| ==> o.cmds[j] == cs[j])
            && Offers(o.kernel, PipeRead(|k.pipes| + t), Content(k, cs[i].read.rd))
            && o.kernel.terminal == k.terminal && !o.stop
  {
    var j := i + 1 + 2 * t;
    assert i < j < i + 2 * m && (j - i) % 2 == 1 && (j - i) / 2 == t;
    assert (j + 1 - i) % 2 == 0;
  }

  /** A reader of a fan-out writes to the terminal and leaves the other readers' pipes alone. */
  lemma AfterBranch(cs: seq<Command>, k: Kernel, i: nat, run: Programs, fd: Fd, data: Bytes)
    requires i + 1 < |cs| && cs[i].write == Ends(NoFd, Out) && Known(k, cs[i].read.rd)
    ensures var o := RunCommand(cs, k, i, run);
            && o.kernel.terminal == k.terminal + run(cs[i].cmd, cs[i].args, ChildInput(k, cs[i].read.rd))
            && !o.kernel.outOpen
            && |o.cmds| == |cs|
            && o.cmds[i + 1].cmd == cs[i + 1].cmd
            && (forall j :: i + 1 < j < |cs| ==> o.cmds[j] == cs[j])
            && (fd.PipeRead? && fd != cs[i].read.rd && Offers(k, fd, data) ==> Offers(o.kernel, fd, data))
  {
  }

  // ---------------------------------------------------------------------------------------------
  // Runs of the executor
  // ---------------------------------------------------------------------------------------------

  /** A state the executor can be in at slot `i`. */
  ghost predicate At(cs: seq<Command>, k: Kernel, i: nat, n: nat) {
    Bounded(cs, n) && i <= n && Quiet(k) && Sane(cs, k, i)
  }

  lemma ExecStep(cs: seq<Command>, k: Kernel, i: nat, n: nat, run: Programs)
    requires At(cs, k, i, n) && i < n && i < BUFFER_SIZE
    ensures var o := Step(cs, k, i, n, run);
            && At(o.cmds, o.kernel, i + 1, n)
            && Exec(cs, k, i, n, run) == if o.stop then o.kernel else Exec(o.cmds, o.kernel, i + 1, n, run)
  {
    StepKeeps(cs, k, i, n, run);
  }

  /** The slot holds this command, ready to run and not started. */
  ghost predicate HasCommand(c: Command, argv: Argv) {
    IsArgv(argv) && c.cmd == argv[0] && c.args == argv
  }

  lemma CommandIsExternal(c: Command, argv: Argv)
    requires HasCommand(c, argv)
    ensures !IsBuiltin(c.cmd) && c.cmd != ""
  {
    assert IsWord(argv[0]) && IsWordChar(argv[0][0]);
  }

  /** The tail of a pipeline whose output has been delivered. */
  ghost predicate AtTail(cs: seq<Command>, i: nat, n: nat, tail: Tail) {
    n < |cs| && if tail.End? then i == n else i < n && cs[i].cmd == ";"
  }

  lemma ExecTail(cs: seq<Command>, k: Kernel, i: nat, n: nat, run: Programs, tail: Tail)
    requires At(cs, k, i, n) && AtTail(cs, i, n, tail) && !k.outOpen
    ensures Exec(cs, k, i, n, run).terminal == k.terminal
  {
    if i < BUFFER_SIZE && i < n {
      ExecStep(cs, k, i, n, run);
    }
  }

  /** `;` after a pipeline that has not fanned out: the stream goes to the terminal, and nothing else runs. */
  lemma ExecSemicolon(cs: seq<Command>, k: Kernel, i: nat, n: nat, run: Programs, data: Bytes)
    requires At(cs, k, i, n) && i < n && i < BUFFER_SIZE && cs[i].cmd == ";"
    requires k.outOpen && Offers(k, cs[i].read.rd, data)
    ensures Exec(cs, k, i, n, run).terminal == k.terminal + data
  {
    ExecStep(cs, k, i, n, run);
  }

  lemma ExecLastBranch(cs: seq<Command>, k: Kernel, i: nat, n: nat, run: Programs, b: Argv, data: Bytes, tail: Tail)
    requires At(cs, k, i, n) && i < n && HasCommand(cs[i], b) && cs[i].write == Ends(NoFd, Out)
    requires Offers(k, cs[i].read.rd, data) && AtTail(cs, i + 1, n, tail)
    ensures Exec(cs, k, i, n, run).terminal
            == k.terminal + if i < BUFFER_SIZE then RunArgv(run, b, data) else []
  {
    if i < BUFFER_SIZE {
      CommandIsExternal(cs[i], b);
      OffersInput(k, cs[i].read.rd, data);
      ExecStep(cs, k, i, n, run);
      AfterBranch(cs, k, i, run, NoFd, []);
      var o := RunCommand(cs, k, i, run);
      ExecTail(o.cmds, o.kernel, i + 1, n, run, tail);
    } else {
      assert k.terminal + [] == k.terminal;
    }
  }

  /** A reader of a fan-out and the comma behind it. */
  lemma ExecBranch(cs: seq<Command>, k: Kernel, i: nat, n: nat, run: Programs, b: Argv, data: Bytes)
    returns (cs': seq<Command>, k': Kernel)
    requires At(cs, k, i, n) && i + 1 < n && i + 1 < BUFFER_SIZE
    requires HasCommand(cs[i], b) && cs[i].write == Ends(NoFd, Out) && cs[i + 1].cmd == ","
    requires Offers(k, cs[i].read.rd, data)
    ensures At(cs', k', i + 2, n) && Exec(cs, k, i, n, run) == Exec(cs', k', i + 2, n, run)
    ensures k'.terminal == k.terminal + RunArgv(run, b, data)
    ensures |cs'| == |cs| && forall j :: i + 2 <= j < |cs| ==> cs'[j] == cs[j]
    ensures forall p, d :: PipeRead(p) != cs[i].read.rd && Offers(k, PipeRead(p), d) ==> Offers(k', PipeRead(p), d)
  {
    CommandIsExternal(cs[i], b);
    OffersInput(k, cs[i].read.rd, data);
    ExecStep(cs, k, i, n, run);
    AfterBranch(cs, k, i, run, NoFd, []);
    var o := RunCommand(cs, k, i, run);
    cs', k' := o.cmds, o.kernel;
    ExecStep(cs', k', i + 1, n, run);
    forall p, d | PipeRead(p) != cs[i].read.rd && Offers(k, PipeRead(p), d)
      ensures Offers(k', PipeRead(p), d)
    {
      AfterBranch(cs, k, i, run, PipeRead(p), d);
    }
  }

  /** A command of the chain and the operator slot behind it: the operator finds the command's output. */
  lemma ExecCommand(cs: seq<Command>, k: Kernel, i: nat, n: nat, run: Programs, c: Argv)
    returns (cs': seq<Command>, k': Kernel)
    requires At(cs, k, i, n) && i + 1 < n && i + 1 < BUFFER_SIZE
    requires HasCommand(cs[i], c) && cs[i].write == UNSET
    ensures At(cs', k', i + 1, n) && Exec(cs, k, i, n, run) == Exec(cs', k', i + 1, n, run)
    ensures k'.terminal == k.terminal && k'.outOpen == k.outOpen
    ensures |cs'| == |cs| && cs'[i + 1].cmd == cs[i + 1].cmd && forall j :: i + 2 <= j < |cs| ==> cs'[j] == cs[j]
    ensures Offers(k', cs'[i + 1].read.rd, RunArgv(run, c, ChildInput(k, cs[i].read.rd)))
  {
    CommandIsExternal(cs[i], c);
    ExecStep(cs, k, i, n, run);
    AfterCommand(cs, k, i, run);
    var o := RunCommand(cs, k, i, run);
    cs', k' := o.cmds, o.kernel;
  }

  lemma NoSlotsLeft(p: Pipeline, input: Bytes, run: Programs, n: int)
    requires n <= 0
    ensures DenoteWithin(p, input, run, n) == []
  {
  }

  lemma LaidCommand(cs: seq<Command>, i: nat, n: nat, c: Argv, slots: seq<Slot>, j: nat)
    requires Laid(cs, i, n, slots) && j < |slots| && j % 2 == 0 && slots[j] == CommandSlot(c) && IsArgv(c)
    ensures HasCommand(cs[i + j], c) && cs[i + j].write == UNSET
  {
    assert HasSlot(cs[i + j], slots[j], j);
  }

  lemma LaidWord(cs: seq<Command>, i: nat, n: nat, slots: seq<Slot>, j: nat)
    requires Laid(cs, i, n, slots) && j < |slots|
    ensures cs[i + j].cmd == slots[j].cmd
  {
    assert HasSlot(cs[i + j], slots[j], j);
  }

  lemma LaidTail(cs: seq<Command>, i: nat, n: nat, slots: seq<Slot>, j: nat, tail: Tail)
    requires Laid(cs, i, n, slots) && j <= |slots| && slots[j..] == TailSlots(tail)
    ensures AtTail(cs, i + j, n, tail)
  {
    if tail.Then? {
      assert slots[j] == slots[j..][0];
      LaidWord(cs, i, n, slots, j);
    }
  }

  lemma ExecLast(p: Pipeline, cs: seq<Command>, k: Kernel, i: nat, n: nat, run: Programs)
    requires p.Last? && WellFormed(p) && i % 2 == 0 && i < BUFFER_SIZE
    requires At(cs, k, i, n) && Laid(cs, i, n, Slots(p)) && k.outOpen
    ensures Exec(cs, k, i, n, run).terminal
            == k.terminal + DenoteWithin(p, ChildInput(k, cs[i].read.rd), run, BUFFER_SIZE - i)
  {
    var slots := Slots(p);
    LaidCommand(cs, i, n, p.c, slots, 0);
    assert slots[1..] == TailSlots(p.tail);
    LaidTail(cs, i, n, slots, 1, p.tail);
    if p.tail.End? {
      CommandIsExternal(cs[i], p.c);
      ExecStep(cs, k, i, n, run);
      AfterLastCommand(cs, k, i, run);
    } else {
      var cs', k' := ExecCommand(cs, k, i, n, run, p.c);
      ExecSemicolon(cs', k', i + 1, n, run, RunArgv(run, p.c, ChildInput(k, cs[i].read.rd)));
    }
  }

  /** One stage and the `|` behind it. */
  lemma ExecStage(p: Pipeline, cs: seq<Command>, k: Kernel, i: nat, n: nat, run: Programs)
    returns (cs': seq<Command>, k': Kernel)
    requires p.Stage? && WellFormed(p) && i % 2 == 0 && i < BUFFER_SIZE
    requires At(cs, k, i, n) && Laid(cs, i, n, Slots(p)) && k.outOpen
    ensures At(cs', k', i + 2, n) && Laid(cs', i + 2, n, Slots(p.next)) && k'.outOpen
    ensures Exec(cs, k, i, n, run) == Exec(cs', k', i + 2, n, run)
    ensures k'.terminal == k.terminal
    ensures ChildInput(k', cs'[i + 2].read.rd) == RunArgv(run, p.c, ChildInput(k, cs[i].read.rd))
  {
    assert i + 1 < BUFFER_SIZE;
    hide *;
    var slots, next := Slots(p), Slots(p.next);
    StageSlots(p);
    LaidBound(cs, i, n, slots);
    LaidCommand(cs, i, n, p.c, slots, 0);
    LaidWord(cs, i, n, slots, 1);
    var cs1, k1 := ExecCommand(cs, k, i, n, run, p.c);
    var data := RunArgv(run, p.c, ChildInput(k, cs[i].read.rd));
    AtSlot(cs1, k1, i + 1, n);
    ExecStep(cs1, k1, i + 1, n, run);
    PipeRuns(cs1, k1, i + 1, n, run);
    AfterPipe(cs1, k1, i + 1);
    OffersContent(k1, cs1[i + 1].read.rd, data);
    var o := FanOut(cs1, k1, i + 1, 1);
    cs', k' := o.cmds, o.kernel;
    OffersInput(k', cs'[i + 2].read.rd, data);
    LaidRest(cs, i, n, slots, next);
    LaidElsewhere(cs, cs', i + 2, n, next);
  }

  lemma StageSlots(p: Pipeline)
    requires p.Stage? && WellFormed(p)
    ensures IsArgv(p.c) && |Slots(p.next)| > 0 && |Slots(p)| == |Slots(p.next)| + 2
    ensures Slots(p)[0] == CommandSlot(p.c) && Slots(p)[1].cmd == "|" && Slots(p)[2..] == Slots(p.next)
  {
  }

  lemma LaidBound(cs: seq<Command>, i: nat, n: nat, slots: seq<Slot>)
    requires Laid(cs, i, n, slots)
    ensures i + |slots| == n < |cs|
  {
  }

  /** The slots are still there if at most the first one's input has changed. */
  lemma LaidElsewhere(cs: seq<Command>, cs': seq<Command>, i: nat, n: nat, slots: seq<Slot>)
    requires Laid(cs, i, n, slots) && |cs'| == |cs| && i < n
    requires cs'[i] == cs[i].(read := cs'[i].read) && forall j :: i < j < |cs| ==> cs'[j] == cs[j]
    ensures Laid(cs', i, n, slots)
  {
    forall j | 0 <= j < |slots| ensures HasSlot(cs'[i + j], slots[j], j) {
      assert HasSlot(cs[i + j], slots[j], j);
    }
  }

  lemma OffersContent(k: Kernel, fd: Fd, data: Bytes)
    requires Offers(k, fd, data)
    ensures Content(k, fd) == data
  {
  }

  /** The `|` slot of a complete pipeline does not stop the executor. */
  lemma PipeRuns(cs: seq<Command>, k: Kernel, i: nat, n: nat, run: Programs)
    requires Bounded(cs, n) && 0 < i && i + 1 < n && cs[i].cmd == "|"
    ensures Step(cs, k, i, n, run) == FanOut(cs, k, i, 1) && !FanOut(cs, k, i, 1).stop
  {
  }

  /** Slot `i` holds an unstarted or a started reader of the fan-out, and a comma stands behind all but the last. */
  ghost predicate Readers(cs: seq<Command>, i: nat, n: nat, bs: seq<Argv>, write: Ends, tail: Tail)
    decreases |bs|
  {
    if bs == [] then false
    else
      && i < n < |cs| && HasCommand(cs[i], bs[0]) && cs[i].write == write
      && if |bs| == 1 then AtTail(cs, i + 1, n, tail)
         else i + 1 < n && cs[i + 1].cmd == "," && Readers(cs, i + 2, n, bs[1..], write, tail)
  }

  /** Every reader from `i` on has its own pipe, numbered from `p`, with the whole stream in it. */
  ghost predicate Served(cs: seq<Command>, k: Kernel, i: nat, m: nat, p: nat, data: Bytes) {
    forall t: nat :: t < m ==> ServedAt(cs, k, i, t, p, data)
  }

  ghost predicate ServedAt(cs: seq<Command>, k: Kernel, i: nat, t: nat, p: nat, data: Bytes) {
    i + 2 * t < |cs| && cs[i + 2 * t].read.rd == PipeRead(p + t) && Offers(k, PipeRead(p + t), data)
  }

  /** The outputs of the readers that start before the loop bound, in order. */
  function Outputs(run: Programs, bs: seq<Argv>, data: Bytes, i: nat): Bytes {
    if bs == [] || i >= BUFFER_SIZE then []
    else RunArgv(run, bs[0], data) + Outputs(run, bs[1..], data, i + 2)
  }

  lemma ReadersElsewhere(cs: seq<Command>, cs': seq<Command>, i: nat, n: nat, bs: seq<Argv>, write: Ends, tail: Tail)
    requires Readers(cs, i, n, bs, write, tail)
    requires |cs'| == |cs| && forall j :: i <= j < |cs| ==> cs'[j] == cs[j]
    ensures Readers(cs', i, n, bs, write, tail)
    decreases |bs|
  {
    if |bs| > 1 {
      ReadersElsewhere(cs, cs', i + 2, n, bs[1..], write, tail);
    }
  }

  lemma {:induction false} ExecReaders(cs: seq<Command>, k: Kernel, i: nat, n: nat, run: Programs, bs: seq<Argv>,
                                       p: nat, data: Bytes, tail: Tail)
    requires At(cs, k, i, n) && i % 2 == 0
    requires Readers(cs, i, n, bs, Ends(NoFd, Out), tail) && Served(cs, k, i, |bs|, p, data)
    ensures Exec(cs, k, i, n, run).terminal == k.terminal + Outputs(run, bs, data, i)
    decreases |bs|
  {
    hide Offers, HasCommand, At, Exec;
    assert ServedAt(cs, k, i, 0, p, data);
    if |bs| == 1 {
      ExecLastBranch(cs, k, i, n, run, bs[0], data, tail);
      assert Outputs(run, bs[1..], data, i + 2) == [];
    } else if i >= BUFFER_SIZE {
      ExecBeyond(cs, k, i, n, run);
    } else {
      var cs', k' := ExecBranch(cs, k, i, n, run, bs[0], data);
      ReadersElsewhere(cs, cs', i + 2, n, bs[1..], Ends(NoFd, Out), tail);
      var i2, p2 := i + 2, p + 1;
      forall t: nat | t < |bs| - 1 ensures ServedAt(cs', k', i2, t, p2, data) {
        assert ServedAt(cs, k, i, t + 1, p, data);
      }
      ExecReaders(cs', k', i + 2, n, run, bs[1..], p + 1, data, tail);
    }
  }

  lemma ExecBeyond(cs: seq<Command>, k: Kernel, i: nat, n: nat, run: Programs)
    requires At(cs, k, i, n) && i >= BUFFER_SIZE
    ensures Exec(cs, k, i, n, run) == k
  {
  }

  /** `||` and `|||` in front of their readers. */
  ghost predicate IsTee(op: string, m: nat) {
    (op == "||" && m == 2) || (op == "|||" && m == 3)
  }

  lemma ExecTee(cs: seq<Command>, k: Kernel, i: nat, n: nat, run: Programs, bs: seq<Argv>, data: Bytes, tail: Tail)
    requires At(cs, k, i, n) && i % 2 == 1 && i < BUFFER_SIZE && i < n
    requires IsTee(cs[i].cmd, |bs|) && Offers(k, cs[i].read.rd, data)
    requires Readers(cs, i + 1, n, bs, UNSET, tail)
    ensures Exec(cs, k, i, n, run).terminal == k.terminal + Outputs(run, bs, data, i + 1)
  {
    hide *;
    AtSlot(cs, k, i, n);
    TeeRuns(cs, k, i, n, run, bs, tail);
    ExecStep(cs, k, i, n, run);
    TeeServes(cs, k, i, |bs|, data);
    ReadersStarted(cs, k, i, n, bs, tail, |bs|, 0);
    var o := FanOut(cs, k, i, |bs|);
    ExecReaders(o.cmds, o.kernel, i + 1, n, run, bs, |k.pipes|, data, tail);
  }

  lemma AtSlot(cs: seq<Command>, k: Kernel, i: nat, n: nat)
    requires At(cs, k, i, n) && i < n
    ensures Bounded(cs, n) && n < |cs| && Known(k, cs[i].read.rd)
  {
  }

  lemma TeeServes(cs: seq<Command>, k: Kernel, i: nat, m: nat, data: Bytes)
    requires 2 <= m && i + 2 * m <= |cs| && Known(k, cs[i].read.rd) && Offers(k, cs[i].read.rd, data)
    ensures var o := FanOut(cs, k, i, m);
            Served(o.cmds, o.kernel, i + 1, m, |k.pipes|, data) && o.kernel.terminal == k.terminal && !o.stop
  {
    hide FanOut, CanRead, Content;
    var o, first, p := FanOut(cs, k, i, m), i + 1, |k.pipes|;
    AfterFan(cs, k, i, m, 0);
    forall t: nat | t < m ensures ServedAt(o.cmds, o.kernel, first, t, p, data) {
      AfterFan(cs, k, i, m, t);
    }
  }

  /** The operator finds all its readers and does not stop. */
  lemma TeeRuns(cs: seq<Command>, k: Kernel, i: nat, n: nat, run: Programs, bs: seq<Argv>, tail: Tail)
    requires Bounded(cs, n) && 0 < i < n && IsTee(cs[i].cmd, |bs|) && Readers(cs, i + 1, n, bs, UNSET, tail)
    ensures 2 <= |bs| && i + 2 * |bs| <= n && Step(cs, k, i, n, run) == FanOut(cs, k, i, |bs|)
  {
    hide FanOut, RunCommand, Drained, HasCommand;
    assert Readers(cs, i + 3, n, bs[1..], UNSET, tail);
    if |bs| == 3 {
      assert Readers(cs, i + 5, n, bs[1..][1..], UNSET, tail);
    }
  }

  /** After the fan-out the readers write to the terminal. */
  lemma {:induction false} ReadersStarted(cs: seq<Command>, k: Kernel, i: nat, n: nat, bs: seq<Argv>, tail: Tail,
                                          m: nat, t: nat)
    requires 2 <= m && t + |bs| == m && i + 2 * m <= n < |cs| && Known(k, cs[i].read.rd)
    requires Readers(cs, i + 1 + 2 * t, n, bs, UNSET, tail)
    ensures Readers(FanOut(cs, k, i, m).cmds, i + 1 + 2 * t, n, bs, Ends(NoFd, Out), tail)
    decreases |bs|
  {
    hide FanOut;
    AfterFan(cs, k, i, m, t);
    if |bs| > 1 {
      ReadersStarted(cs, k, i, n, bs[1..], tail, m, t + 1);
    }
  }

  /** The slots of the readers, as the parser leaves them. */
  function ReaderSlots(bs: seq<Argv>, tail: Tail): seq<Slot>
    requires bs != []
  {
    if |bs| == 1 then [CommandSlot(bs[0])] + TailSlots(tail)
    else [CommandSlot(bs[0]), Slot(",", [])] + ReaderSlots(bs[1..], tail)
  }

  lemma {:induction false} LaidReaders(cs: seq<Command>, i: nat, n: nat, bs: seq<Argv>, tail: Tail)
    requires bs != [] && Laid(cs, i, n, ReaderSlots(bs, tail)) && forall b :: b in bs ==> IsArgv(b)
    ensures Readers(cs, i, n, bs, UNSET, tail)
    decreases |bs|
  {
    hide HasCommand;
    var slots := ReaderSlots(bs, tail);
    LaidCommand(cs, i, n, bs[0], slots, 0);
    if |bs| == 1 {
      assert slots[1..] == TailSlots(tail);
      LaidTail(cs, i, n, slots, 1, tail);
    } else {
      LaidWord(cs, i, n, slots, 1);
      LaidRest(cs, i, n, slots, ReaderSlots(bs[1..], tail));
      LaidReaders(cs, i + 2, n, bs[1..], tail);
    }
  }

  lemma LaidRest(cs: seq<Command>, i: nat, n: nat, slots: seq<Slot>, rest: seq<Slot>)
    requires Laid(cs, i, n, slots) && 2 <= |slots| && slots[2..] == rest
    ensures Laid(cs, i + 2, n, rest)
  {
    forall j | 0 <= j < |rest| ensures HasSlot(cs[i + 2 + j], rest[j], j) {
      assert rest[j] == slots[2 + j];
      assert HasSlot(cs[i + (2 + j)], slots[2 + j], 2 + j);
    }
  }

  /** A command that fans out to the readers `bs`. */
  lemma ExecFan(cs: seq<Command>, k: Kernel, i: nat, n: nat, run: Programs, c: Argv, op: string, bs: seq<Argv>,
                tail: Tail)
    requires i % 2 == 0 && i < BUFFER_SIZE && At(cs, k, i, n)
    requires IsArgv(c) && IsTee(op, |bs|) && forall b :: b in bs ==> IsArgv(b)
    requires Laid(cs, i, n, [CommandSlot(c), Slot(op, [])] + ReaderSlots(bs, tail))
    ensures Exec(cs, k, i, n, run).terminal
            == k.terminal + Outputs(run, bs, RunArgv(run, c, ChildInput(k, cs[i].read.rd)), i + 2)
  {
    hide HasCommand, At, Exec, Offers;
    var slots := [CommandSlot(c), Slot(op, [])] + ReaderSlots(bs, tail);
    LaidCommand(cs, i, n, c, slots, 0);
    LaidWord(cs, i, n, slots, 1);
    LaidRest(cs, i, n, slots, ReaderSlots(bs, tail));
    LaidReaders(cs, i + 2, n, bs, tail);
    var cs1, k1 := ExecCommand(cs, k, i, n, run, c);
    ReadersElsewhere(cs, cs1, i + 2, n, bs, UNSET, tail);
    ExecTee(cs1, k1, i + 1, n, run, bs, RunArgv(run, c, ChildInput(k, cs[i].read.rd)), tail);
  }

  lemma ExecFan2(p: Pipeline, cs: seq<Command>, k: Kernel, i: nat, n: nat, run: Programs)
    requires p.Fan2? && WellFormed(p) && i % 2 == 0 && i < BUFFER_SIZE
    requires At(cs, k, i, n) && Laid(cs, i, n, Slots(p))
    ensures Exec(cs, k, i, n, run).terminal
            == k.terminal + DenoteWithin(p, ChildInput(k, cs[i].read.rd), run, BUFFER_SIZE - i)
  {
    hide HasCommand, Exec, Offers, Quiet, Sane;
    var bs := [p.a, p.b];
    assert bs[1..] == [p.b];
    assert ReaderSlots([p.b], p.tail) == [CommandSlot(p.b)] + TailSlots(p.tail);
    var data := RunArgv(run, p.c, ChildInput(k, cs[i].read.rd));
    ExecFan(cs, k, i, n, run, p.c, "||", bs, p.tail);
    assert Outputs(run, [p.b][1..], data, i + 6) == [];
    assert Outputs(run, bs, data, i + 2) == DenoteWithin(p, ChildInput(k, cs[i].read.rd), run, BUFFER_SIZE - i);
  }

  lemma ExecFan3(p: Pipeline, cs: seq<Command>, k: Kernel, i: nat, n: nat, run: Programs)
    requires p.Fan3? && WellFormed(p) && i % 2 == 0 && i < BUFFER_SIZE
    requires At(cs, k, i, n) && Laid(cs, i, n, Slots(p))
    ensures Exec(cs, k, i, n, run).terminal
            == k.terminal + DenoteWithin(p, ChildInput(k, cs[i].read.rd), run, BUFFER_SIZE - i)
  {
    hide HasCommand, Exec, Offers, Quiet, Sane;
    var bs := [p.a, p.b, p.d];
    assert bs[1..] == [p.b, p.d] && [p.b, p.d][1..] == [p.d];
    assert ReaderSlots([p.d], p.tail) == [CommandSlot(p.d)] + TailSlots(p.tail);
    assert ReaderSlots([p.b, p.d], p.tail) == [CommandSlot(p.b), Slot(",", [])] + ReaderSlots([p.d], p.tail);
    var data := RunArgv(run, p.c, ChildInput(k, cs[i].read.rd));
    ExecFan(cs, k, i, n, run, p.c, "|||", bs, p.tail);
    assert Outputs(run, [p.d][1..], data, i + 8) == [];
    var oa, ob, od := RunArgv(run, p.a, data), RunArgv(run, p.b, data), RunArgv(run, p.d, data);
    assert oa + ob + od == oa + (ob + od);
    assert Outputs(run, [p.b, p.d], data, i + 4)
           == if i + 4 >= BUFFER_SIZE then [] else ob + Outputs(run, [p.d], data, i + 6);
    assert Outputs(run, [p.d], data, i + 6) == if i + 6 >= BUFFER_SIZE then [] else od;
    assert Outputs(run, bs, data, i + 2) == DenoteWithin(p, ChildInput(k, cs[i].read.rd), run, BUFFER_SIZE - i);
  }

  /** The slots at and behind place i have these names, and there are no others. */
  ghost predicate SlotNames(cs: seq<Command>, i: nat, n: nat, slots: seq<Slot>) {
    i + |slots| == n < |cs| && forall j :: 0 <= j < |slots| ==> cs[i + j].cmd == slots[j].cmd
  }

  /** The operator misses a reader or a comma, and stops the executor. */
  lemma StopsAt(cs: seq<Command>, k: Kernel, i: nat, n: nat, run: Programs, op: string, slots: seq<Slot>)
    requires Bounded(cs, n) && 0 < i < n && cs[i].cmd == op && Incomplete(op, slots) && SlotNames(cs, i + 1, n, slots)
    ensures Step(cs, k, i, n, run).stop && Step(cs, k, i, n, run).kernel == k
  {
    hide FanOut, RunCommand, Drained;
    assert |slots| > 1 ==> cs[i + 1 + 1].cmd == slots[1].cmd;
    assert |slots| > 3 ==> cs[i + 1 + 3].cmd == slots[3].cmd;
  }

  lemma ExecBroken(p: Pipeline, cs: seq<Command>, k: Kernel, i: nat, n: nat, run: Programs)
    requires p.Broken? && WellFormed(p) && i % 2 == 0 && i < BUFFER_SIZE
    requires At(cs, k, i, n) && Laid(cs, i, n, Slots(p))
    ensures Exec(cs, k, i, n, run).terminal == k.terminal
  {
    assert i + 1 < BUFFER_SIZE;
    BrokenIs(p);
    hide *;
    var slots, behind := Slots(p), ParseTokens(p.rest);
    LaidBound(cs, i, n, slots);
    LaidCommand(cs, i, n, p.c, slots, 0);
    LaidWord(cs, i, n, slots, 1);
    var cs', k' := ExecCommand(cs, k, i, n, run, p.c);
    SlotsBehind(cs, cs', i, n, slots, behind);
    ExecStops(cs', k', i + 1, n, run, p.op, behind);
  }

  lemma ExecStops(cs: seq<Command>, k: Kernel, i: nat, n: nat, run: Programs, op: string, slots: seq<Slot>)
    requires At(cs, k, i, n) && 0 < i < BUFFER_SIZE && i < n
    requires cs[i].cmd == op && Incomplete(op, slots) && SlotNames(cs, i + 1, n, slots)
    ensures Exec(cs, k, i, n, run) == k
  {
    hide *;
    AtSlot(cs, k, i, n);
    ExecStep(cs, k, i, n, run);
    StopsAt(cs, k, i, n, run, op, slots);
  }

  lemma BrokenIs(p: Pipeline)
    requires p.Broken? && WellFormed(p)
    ensures IsArgv(p.c) && Incomplete(p.op, ParseTokens(p.rest))
    ensures |Slots(p)| == |ParseTokens(p.rest)| + 2 && Slots(p)[2..] == ParseTokens(p.rest)
    ensures Slots(p)[0] == CommandSlot(p.c) && Slots(p)[1].cmd == p.op
  {
    hide ParseTokens;
  }

  lemma SlotsBehind(cs: seq<Command>, cs': seq<Command>, i: nat, n: nat, slots: seq<Slot>, behind: seq<Slot>)
    requires Laid(cs, i, n, slots) && |slots| == |behind| + 2 && slots[2..] == behind
    requires |cs'| == |cs| && forall j :: i + 2 <= j < |cs| ==> cs'[j] == cs[j]
    ensures SlotNames(cs', i + 1 + 1, n, behind)
  {
    forall j | 0 <= j < |behind| ensures cs'[i + 1 + 1 + j].cmd == behind[j].cmd {
      LaidWord(cs, i, n, slots, 2 + j);
      assert slots[2..][j] == slots[2 + j];
    }
  }

  /** Executing the slots of a well-formed pipeline sends its meaning to the terminal, within the loop bound. */
  lemma {:induction false} ExecPipeline(p: Pipeline, cs: seq<Command>, k: Kernel, i: nat, n: nat, run: Programs)
    requires WellFormed(p) && i % 2 == 0
    requires At(cs, k, i, n) && Laid(cs, i, n, Slots(p)) && k.outOpen
    ensures Exec(cs, k, i, n, run).terminal
            == k.terminal + DenoteWithin(p, ChildInput(k, cs[i].read.rd), run, BUFFER_SIZE - i)
    decreases p
  {
    hide Offers, HasCommand, Quiet, Sane, Step, Exec, At, Laid, DenoteWithin, ChildInput, Slots, RunArgv;
    AtBound(cs, k, i, n);
    if i >= BUFFER_SIZE {
      ExecBeyond(cs, k, i, n, run);
      NoSlotsLeft(p, ChildInput(k, cs[i].read.rd), run, BUFFER_SIZE - i);
    } else {
      match p
      case Stage(c, next) =>
        var cs', k' := ExecStage(p, cs, k, i, n, run);
        ExecPipeline(next, cs', k', i + 2, n, run);
        StageWithin(p, ChildInput(k, cs[i].read.rd), run, BUFFER_SIZE - i);
      case Last(_, _) => ExecLast(p, cs, k, i, n, run);
      case Fan2(_, _, _, _) => ExecFan2(p, cs, k, i, n, run);
      case Fan3(_, _, _, _, _) => ExecFan3(p, cs, k, i, n, run);
      case Broken(_, _, _) =>
        ExecBroken(p, cs, k, i, n, run);
        assert DenoteWithin(p, ChildInput(k, cs[i].read.rd), run, BUFFER_SIZE - i) == [] by {
          BrokenWithin(p, ChildInput(k, cs[i].read.rd), run, BUFFER_SIZE - i);
        }
    }
  }

  /** An operator in front of the first command stops the executor at once; a comma and cd do nothing. */
  lemma OtherSlots(cs: seq<Command>, k: Kernel, i: nat, n: nat, run: Programs)
    requires At(cs, k, i, n) && i < n && i < BUFFER_SIZE
    ensures i == 0 && cs[i].cmd in {"|", "||", "|||"} ==> Exec(cs, k, i, n, run) == k
    ensures cs[i].cmd in {",", "cd"} ==>
              At(cs, k, i + 1, n) && Exec(cs, k, i, n, run) == Exec(cs, k, i + 1, n, run)
  {
    ExecStep(cs, k, i, n, run);
    hide FanOut, RunCommand, Drained, Exec, At;
  }

  lemma AtBound(cs: seq<Command>, k: Kernel, i: nat, n: nat)
    requires At(cs, k, i, n)
    ensures i <= n < |cs|
  {
  }

  lemma BrokenWithin(p: Pipeline, input: Bytes, run: Programs, n: int)
    requires p.Broken?
    ensures DenoteWithin(p, input, run, n) == []
  {
  }

  lemma StageWithin(p: Pipeline, input: Bytes, run: Programs, n: int)
    requires p.Stage?
    ensures DenoteWithin(p, input, run, n) == DenoteWithin(p.next, RunArgv(run, p.c, input), run, n - 2)
  {
  }

  // ---------------------------------------------------------------------------------------------
  // Standard input
  // ---------------------------------------------------------------------------------------------

  /** Nothing comes back on standard input. */
  lemma StepKeepsEmptyInput(cs: seq<Command>, k: Kernel, i: nat, n: nat, run: Programs)
    requires Bounded(cs, n) && i < n && k.stdin == []
    ensures Step(cs, k, i, n, run).kernel.stdin == []
  {
    CommandKeepsEmptyInput(cs, k, i, run);
    assert Ended(k, cs[i].read.rd).stdin == [];
    assert Drained(k, cs[i].read.rd, {Out}).stdin == [];
    hide Ended, Drained, RunCommand, Content;
  }

  lemma CommandKeepsEmptyInput(cs: seq<Command>, k: Kernel, i: nat, run: Programs)
    requires i + 1 < |cs|
    ensures RunCommand(cs, k, i, run).kernel.stdin == Consumed(k, cs[i].read.rd).stdin
    ensures k.stdin == [] ==> Consumed(k, cs[i].read.rd).stdin == []
  {
    assert Close(Consumed(k, cs[i].read.rd), cs[i].read.rd).stdin == Consumed(k, cs[i].read.rd).stdin;
    hide Close;
  }

  lemma {:induction false} ExecKeepsEmptyInput(cs: seq<Command>, k: Kernel, i: nat, n: nat, run: Programs)
    requires At(cs, k, i, n) && k.stdin == []
    ensures Exec(cs, k, i, n, run).stdin == []
    decreases n - i
  {
    if i < BUFFER_SIZE && i < n {
      AtSlot(cs, k, i, n);
      hide *;
      ExecStep(cs, k, i, n, run);
      StepKeepsEmptyInput(cs, k, i, n, run);
      var o := Step(cs, k, i, n, run);
      if !o.stop { ExecKeepsEmptyInput(o.cmds, o.kernel, i + 1, n, run); }
    }
  }

  /** The first command of a line reads all of standard input, and nothing is left there when the line has run. */
  lemma ExecEmptiesInput(cs: seq<Command>, k: Kernel, n: nat, run: Programs)
    requires At(cs, k, 0, n) && 0 < n && cs[0].read.rd == Stdin && k.stdinOpen && !IsBuiltin(cs[0].cmd)
    ensures Exec(cs, k, 0, n, run).stdin == []
  {
    ExecStep(cs, k, 0, n, run);
    CommandKeepsEmptyInput(cs, k, 0, run);
    var o := Step(cs, k, 0, n, run);
    assert o == RunCommand(cs, k, 0, run) && o.kernel.stdin == [];
    hide RunCommand, Exec, At;
    ExecKeepsEmptyInput(o.cmds, o.kernel, 1, n, run);
  }
}
