/** The pipeline executor (Assignment-1/shell.c, shell_execute_pipeline): what one slot of the command array
    does to the array and to the kernel, and the loop over the slots. */
module ShellExecutor {
  import opened ShellParser
  import opened Octets
  import opened ShellKernel

  /** The executor looks at no more than this many slots. */
  const BUFFER_SIZE: nat := 128

  /** The array holds `n` commands and a NULL behind them. */
  ghost predicate Bounded(cs: seq<Command>, n: nat) {
    n < |cs| && cs[n].cmd == "" && forall j :: 0 <= j < n ==> cs[j].cmd != ""
  }

  predicate IsBuiltin(cmd: string) {
    cmd == "|" || cmd == "||" || cmd == "|||" || cmd == "," || cmd == ";" || cmd == "cd"
  }

  /** What a slot may read: nothing, standard input, or a pipe that exists. */
  predicate Known(k: Kernel, fd: Fd) {
    fd.NoFd? || fd.Stdin? || (fd.PipeRead? && fd.id < |k.pipes|)
  }

  /** The slots from `i` on are ready to run: an external command has no output yet, or the terminal. */
  ghost predicate Sane(cs: seq<Command>, k: Kernel, i: nat) {
    forall j :: i <= j < |cs| ==>
      && Known(k, cs[j].read.rd)
      && (!IsBuiltin(cs[j].cmd) && cs[j].cmd != "" ==> cs[j].write == UNSET || cs[j].write == Ends(NoFd, Out))
  }

  /** Every pipe's writing end is closed: no read can block. */
  ghost predicate Quiet(k: Kernel) {
    forall j :: 0 <= j < |k.pipes| ==> !k.pipes[j].writable
  }

  // ---------------------------------------------------------------------------------------------
  // What a slot does
  // ---------------------------------------------------------------------------------------------

  datatype Outcome = Outcome(cmds: seq<Command>, kernel: Kernel, stop: bool)

  function Ended(k: Kernel, fd: Fd): Kernel {
    Close(Drop(k, fd, |Content(k, fd)|), fd)
  }

  /** After `|`, `||` or `|||`: each of the m readers at i+1, i+3, .. has a pipe of its own that holds a copy of the
      input stream and has no writer; with more than one reader, each writes to the terminal. */
  function FanOut(cs: seq<Command>, k: Kernel, i: nat, m: nat): Outcome
    requires i < |cs|
  {
    Outcome(FanSlots(cs, |k.pipes|, i, m),
            Ended(k, cs[i].read.rd).(pipes := Ended(k, cs[i].read.rd).pipes
                                              + seq(m, _ => Pipe(Content(k, cs[i].read.rd), true, false))),
            false)
  }

  function FanSlots(cs: seq<Command>, p: nat, i: nat, m: nat): (r: seq<Command>)
    ensures |r| == |cs|
  {
    seq(|cs|, j requires 0 <= j < |cs| =>
      if i < j < i + 2 * m && (j - i) % 2 == 1 then
        cs[j].(read := Ends(PipeRead(p + (j - i) / 2), PipeWrite(p + (j - i) / 2)),
               write := if m > 1 then Ends(cs[j].write.rd, Out) else cs[j].write)
      else cs[j])
  }

  /** After an external command: its output is on the terminal, if it was sent there or nothing follows, and
      otherwise in the pipe that the next slot reads. */
  function RunCommand(cs: seq<Command>, k: Kernel, i: nat, run: Programs): Outcome
    requires i + 1 < |cs|
  {
    var c, next := cs[i], cs[i + 1];
    var output := run(c.cmd, c.args, ChildInput(k, c.read.rd));
    var k1 := Close(Consumed(k, c.read.rd), c.read.rd);
    var p := |k.pipes|;
    var spent := Pipe([], false, false);
    if c.write.wr == Out then
      var k2 := k1.(terminal := k.terminal + output, outOpen := false);
      if next.cmd == "" then Outcome(cs[i + 1 := next.(read := Ends(next.read.rd, Out))], k2, false)
      else Outcome(cs[i + 1 := next.(read := Ends(PipeRead(p), PipeWrite(p)))],
                   k2.(pipes := k2.pipes + [Pipe([], true, false)]), false)
    else
      var cs1 := cs[i := c.(write := Ends(PipeRead(p), PipeWrite(p)))];
      if next.cmd == "" then
        Outcome(cs1[i + 1 := next.(read := Ends(next.read.rd, Out))],
                k1.(pipes := k1.pipes + [spent], outOpen := false,
                    terminal := if k.outOpen then k.terminal + output else k.terminal), false)
      else
        Outcome(cs1[i + 1 := next.(read := Ends(PipeRead(p + 1), PipeWrite(p + 1)))],
                k1.(pipes := k1.pipes + [spent, Pipe(output, true, false)]), false)
  }

  /** One slot. A malformed operator stops the executor. */
  function Step(cs: seq<Command>, k: Kernel, i: nat, n: nat, run: Programs): Outcome
    requires Bounded(cs, n) && i < n
  {
    var cmd := cs[i].cmd;
    var stop := Outcome(cs, k, true);
    if cmd == "|" then
      if i == 0 || cs[i + 1].cmd == "" then stop else FanOut(cs, k, i, 1)
    else if cmd == "||" then
      if i == 0 || cs[i + 1].cmd == "" || cs[i + 2].cmd == "" || cs[i + 3].cmd == "" || cs[i + 2].cmd != ","
      then stop else FanOut(cs, k, i, 2)
    else if cmd == "|||" then
      if i == 0 || cs[i + 1].cmd == "" || cs[i + 2].cmd == "" || cs[i + 3].cmd == "" || cs[i + 4].cmd == ""
         || cs[i + 5].cmd == "" || cs[i + 2].cmd != "," || cs[i + 4].cmd != ","
      then stop else FanOut(cs, k, i, 3)
    else if cmd == "," then Outcome(cs, k, false)
    else if cmd == ";" then Outcome(cs, Drained(k, cs[i].read.rd, {Out}), true)
    else if cmd == "cd" then Outcome(cs, k, false)
    else RunCommand(cs, k, i, run)
  }

  /** The loop over the slots. */
  function Exec(cs: seq<Command>, k: Kernel, i: nat, n: nat, run: Programs): Kernel
    requires Bounded(cs, n) && i <= n && Quiet(k) && Sane(cs, k, i)
    decreases n - i
  {
    if i >= BUFFER_SIZE || i == n then k
    else
      StepKeeps(cs, k, i, n, run);
      var o := Step(cs, k, i, n, run);
      if o.stop then o.kernel else Exec(o.cmds, o.kernel, i + 1, n, run)
  }

  lemma EndedKeeps(k: Kernel, fd: Fd)
    requires Quiet(k)
    ensures Quiet(Ended(k, fd)) && |Ended(k, fd).pipes| == |k.pipes|
    ensures Quiet(Close(k, fd)) && |Close(k, fd).pipes| == |k.pipes|
  {
  }

  ghost predicate Kept(o: Outcome, n: nat, i: nat) {
    Quiet(o.kernel) && Bounded(o.cmds, n) && Sane(o.cmds, o.kernel, i)
  }

  lemma FanOutKeeps(cs: seq<Command>, k: Kernel, i: nat, n: nat, m: nat)
    requires Bounded(cs, n) && i < n && Quiet(k) && Sane(cs, k, i)
    ensures Kept(FanOut(cs, k, i, m), n, i + 1)
  {
    EndedKeeps(k, cs[i].read.rd);
    var o := FanOut(cs, k, i, m);
    assert forall j :: 0 <= j < |cs| ==> o.cmds[j].cmd == cs[j].cmd;
  }

  lemma RunCommandKeeps(cs: seq<Command>, k: Kernel, i: nat, n: nat, run: Programs)
    requires Bounded(cs, n) && i < n && Quiet(k) && Sane(cs, k, i)
    ensures Kept(RunCommand(cs, k, i, run), n, i + 1)
  {
    var o := RunCommand(cs, k, i, run);
    RunCommandQuiet(cs, k, i, run);
    RunCommandSlots(cs, k, i, run);
    hide RunCommand;
    forall j | i + 1 <= j < |cs| ensures Known(o.kernel, o.cmds[j].read.rd) {
      if j > i + 1 {
        assert o.cmds[j] == cs[j] && Known(k, cs[j].read.rd);
      } else {
        assert Known(k, cs[i + 1].read.rd);
      }
    }
  }

  lemma RunCommandQuiet(cs: seq<Command>, k: Kernel, i: nat, run: Programs)
    requires i + 1 < |cs| && Quiet(k)
    ensures Quiet(RunCommand(cs, k, i, run).kernel) && |k.pipes| <= |RunCommand(cs, k, i, run).kernel.pipes|
  {
    assert Quiet(Consumed(k, cs[i].read.rd)) && |Consumed(k, cs[i].read.rd).pipes| == |k.pipes|;
    EndedKeeps(Consumed(k, cs[i].read.rd), cs[i].read.rd);
    hide Consumed;
    hide Close;
  }

  lemma RunCommandSlots(cs: seq<Command>, k: Kernel, i: nat, run: Programs)
    requires i + 1 < |cs|
    ensures var o := RunCommand(cs, k, i, run);
            && |o.cmds| == |cs|
            && (forall j :: 0 <= j < |cs| ==> o.cmds[j].cmd == cs[j].cmd)
            && (forall j :: i + 1 < j < |cs| ==> o.cmds[j] == cs[j])
            && o.cmds[i + 1].write == cs[i + 1].write
            && (Known(o.kernel, o.cmds[i + 1].read.rd) || o.cmds[i + 1].read.rd == cs[i + 1].read.rd)
  {
    assert |Close(Consumed(k, cs[i].read.rd), cs[i].read.rd).pipes| == |k.pipes|;
    hide Close, Consumed;
  }

  /** After every slot, of any array, all writing ends are closed again. */
  lemma StepKeeps(cs: seq<Command>, k: Kernel, i: nat, n: nat, run: Programs)
    requires Bounded(cs, n) && i < n && Quiet(k) && Sane(cs, k, i)
    ensures Kept(Step(cs, k, i, n, run), n, i + 1)
  {
    var cmd := cs[i].cmd;
    if cmd == "|" {
      FanOutKeeps(cs, k, i, n, 1);
    } else if cmd == "||" {
      FanOutKeeps(cs, k, i, n, 2);
    } else if cmd == "|||" {
      FanOutKeeps(cs, k, i, n, 3);
    } else if !IsBuiltin(cmd) {
      RunCommandKeeps(cs, k, i, n, run);
    }
  }

  // ---------------------------------------------------------------------------------------------
  // The executor
  // ---------------------------------------------------------------------------------------------

  /** Fresh pipes that have been filled and whose writing ends have been closed. */
  function Filled(k: Kernel, src: Fd, m: nat): Kernel {
    Ended(k, src).(pipes := Ended(k, src).pipes + seq(m, _ => Pipe(Content(k, src), true, false)))
  }

  lemma Opened(k: Kernel, src: Fd)
    requires Known(k, src)
    ensures Content(OpenPipe(k).0, src) == Content(k, src)
    ensures CanRead(OpenPipe(k).0, src) == CanRead(k, src)
  {
  }

  lemma TeeKernel1(k: Kernel, src: Fd)
    requires Quiet(k) && Known(k, src)
    ensures var p := PipeWrite(|k.pipes|);
            Close(Close(Drained(OpenPipe(k).0, src, {p}), src), p) == Filled(k, src, 1)
  {
    Opened(k, src);
    var p := PipeWrite(|k.pipes|);
    var data := Content(k, src);
    assert [] + data == data;
    assert Close(Close(Drained(OpenPipe(k).0, src, {p}), src), p).pipes == Filled(k, src, 1).pipes;
  }

  /** The `|` slot: one pipe, one copy. */
  method Tee1(cmds: array<Command>, k0: Kernel, i: nat) returns (k: Kernel)
    requires i + 1 < cmds.Length && Quiet(k0) && Known(k0, cmds[i].read.rd)
    modifies cmds
    ensures Outcome(cmds[..], k, false) == FanOut(old(cmds[..]), k0, i, 1)
  {
    var src := cmds[i].read.rd;
    TeeKernel1(k0, src);
    var (k1, e) := OpenPipe(k0);
    cmds[i + 1] := cmds[i + 1].(read := e);
    k := Drain(k1, cmds[i].read.rd, {cmds[i + 1].read.wr});
    k := Close(k, cmds[i].read.rd);
    k := Close(k, cmds[i + 1].read.wr);
    assert cmds[..] == FanSlots(old(cmds[..]), |k0.pipes|, i, 1);
  }

  /** The kernel after `m` pipes have been opened, filled with the stream and its source has been closed. */
  function Poured(k: Kernel, src: Fd, m: nat): Kernel {
    Ended(k, src).(pipes := Ended(k, src).pipes + seq(m, _ => Pipe(Content(k, src), true, true)))
  }

  lemma PouredInto(k: Kernel, src: Fd, piped: Kernel, fds: set<Fd>, m: nat)
    requires Quiet(k) && Known(k, src)
    requires piped == OpenPipes(k, m)
    requires forall j: nat :: PipeWrite(j) in fds <==> |k.pipes| <= j < |k.pipes| + m
    requires Out !in fds
    ensures Close(Drained(piped, src, fds), src) == Poured(k, src, m)
  {
    var data := Content(k, src);
    assert [] + data == data;
    assert Content(piped, src) == data;
    var all := Close(Drained(piped, src, fds), src);
    forall j | 0 <= j < |all.pipes| ensures all.pipes[j] == Poured(k, src, m).pipes[j] {
      if j < |k.pipes| {
        assert piped.pipes[j] == k.pipes[j];
      } else {
        assert piped.pipes[j] == Pipe([], true, true);
      }
    }
    assert all.pipes == Poured(k, src, m).pipes;
  }

  function OpenPipes(k: Kernel, m: nat): Kernel {
    k.(pipes := k.pipes + seq(m, _ => Pipe([], true, true)))
  }

  lemma OpenOneMore(k: Kernel, m: nat)
    ensures OpenPipe(OpenPipes(k, m)).0 == OpenPipes(k, m + 1)
    ensures OpenPipes(k, 0) == k
  {
    assert OpenPipe(OpenPipes(k, m)).0.pipes == OpenPipes(k, m + 1).pipes;
    assert OpenPipes(k, 0).pipes == k.pipes;
  }

  /** The first `closed` of the m new writing ends are closed. */
  function Closing(k: Kernel, src: Fd, m: nat, closed: nat): Kernel {
    Ended(k, src).(pipes := Ended(k, src).pipes + seq(m, j => Pipe(Content(k, src), true, j >= closed)))
  }

  lemma CloseOneMore(k: Kernel, src: Fd, m: nat, closed: nat)
    requires closed < m
    ensures Close(Closing(k, src, m, closed), PipeWrite(|k.pipes| + closed)) == Closing(k, src, m, closed + 1)
  {
    var one, two := Close(Closing(k, src, m, closed), PipeWrite(|k.pipes| + closed)),
                    Closing(k, src, m, closed + 1);
    assert one.pipes == two.pipes;
  }

  lemma ClosingEnds(k: Kernel, src: Fd, m: nat)
    ensures Closing(k, src, m, 0) == Poured(k, src, m)
    ensures Closing(k, src, m, m) == Filled(k, src, m)
  {
    assert Closing(k, src, m, 0).pipes == Poured(k, src, m).pipes;
    assert Closing(k, src, m, m).pipes == Filled(k, src, m).pipes;
  }

  lemma TeeKernel2(k: Kernel, src: Fd)
    requires Quiet(k) && Known(k, src)
    ensures var p := |k.pipes|;
            var piped := OpenPipe(OpenPipe(k).0).0;
            var poured := Close(Drained(piped, src, {PipeWrite(p), PipeWrite(p + 1)}), src);
            Close(Close(poured, PipeWrite(p)), PipeWrite(p + 1)) == Filled(k, src, 2)
  {
    hide *;
    var p := |k.pipes|;
    var fds := {PipeWrite(p), PipeWrite(p + 1)};
    calc {
      OpenPipe(OpenPipe(k).0).0;
      { OpenOneMore(k, 0); }
      OpenPipe(OpenPipes(k, 1)).0;
      { OpenOneMore(k, 1); }
      OpenPipes(k, 2);
    }
    PouredInto(k, src, OpenPipes(k, 2), fds, 2);
    calc {
      Close(Close(Poured(k, src, 2), PipeWrite(p)), PipeWrite(p + 1));
      { ClosingEnds(k, src, 2); CloseOneMore(k, src, 2, 0); }
      Close(Closing(k, src, 2, 1), PipeWrite(p + 1));
      { CloseOneMore(k, src, 2, 1); }
      Closing(k, src, 2, 2);
      { ClosingEnds(k, src, 2); }
      Filled(k, src, 2);
    }
  }

  lemma TeeKernel3(k: Kernel, src: Fd)
    requires Quiet(k) && Known(k, src)
    ensures var p := |k.pipes|;
            var piped := OpenPipe(OpenPipe(OpenPipe(k).0).0).0;
            var poured := Close(Drained(piped, src, {PipeWrite(p), PipeWrite(p + 1), PipeWrite(p + 2)}), src);
            Close(Close(Close(poured, PipeWrite(p)), PipeWrite(p + 1)), PipeWrite(p + 2)) == Filled(k, src, 3)
  {
    hide *;
    var p := |k.pipes|;
    var fds := {PipeWrite(p), PipeWrite(p + 1), PipeWrite(p + 2)};
    calc {
      OpenPipe(OpenPipe(OpenPipe(k).0).0).0;
      { OpenOneMore(k, 0); }
      OpenPipe(OpenPipe(OpenPipes(k, 1)).0).0;
      { OpenOneMore(k, 1); }
      OpenPipe(OpenPipes(k, 2)).0;
      { OpenOneMore(k, 2); }
      OpenPipes(k, 3);
    }
    PouredInto(k, src, OpenPipes(k, 3), fds, 3);
    calc {
      Close(Close(Close(Poured(k, src, 3), PipeWrite(p)), PipeWrite(p + 1)), PipeWrite(p + 2));
      { ClosingEnds(k, src, 3); CloseOneMore(k, src, 3, 0); }
      Close(Close(Closing(k, src, 3, 1), PipeWrite(p + 1)), PipeWrite(p + 2));
      { CloseOneMore(k, src, 3, 1); }
      Close(Closing(k, src, 3, 2), PipeWrite(p + 2));
      { CloseOneMore(k, src, 3, 2); }
      Closing(k, src, 3, 3);
      { ClosingEnds(k, src, 3); }
      Filled(k, src, 3);
    }
  }

  /** A reader of a fan-out: its own pipe in, the terminal out. */
  function Branch(c: Command, p: nat): Command {
    c.(read := Ends(PipeRead(p), PipeWrite(p)), write := Ends(c.write.rd, Out))
  }

  lemma FanSlots23(cs: seq<Command>, p: nat, i: nat)
    requires i + 3 < |cs|
    ensures var two := cs[i + 1 := Branch(cs[i + 1], p)][i + 3 := Branch(cs[i + 3], p + 1)];
            && FanSlots(cs, p, i, 2) == two
            && (i + 5 < |cs| ==> FanSlots(cs, p, i, 3) == two[i + 5 := Branch(cs[i + 5], p + 2)])
  {
  }

  lemma FanOutIs(cs: seq<Command>, k: Kernel, i: nat, m: nat)
    requires i < |cs|
    ensures FanOut(cs, k, i, m) == Outcome(FanSlots(cs, |k.pipes|, i, m), Filled(k, cs[i].read.rd, m), false)
  {
  }

  lemma OpenedIs(k: Kernel)
    ensures OpenPipe(k).1 == Ends(PipeRead(|k.pipes|), PipeWrite(|k.pipes|))
    ensures |OpenPipe(k).0.pipes| == |k.pipes| + 1
  {
  }

  lemma KnownIsOld(k: Kernel, src: Fd)
    requires Known(k, src)
    ensures src.PipeRead? ==> src.id < |k.pipes|
  {
  }

  lemma OpenedFinished(k: Kernel, src: Fd)
    requires Known(k, src) && Finished(k, src)
    ensures Known(OpenPipe(k).0, src) && Finished(OpenPipe(k).0, src)
  {
  }

  /** The `||` slot: two pipes, two copies, both readers write to the terminal. */
  method Tee2(cmds: array<Command>, k0: Kernel, i: nat) returns (k: Kernel)
    requires i + 3 < cmds.Length && Quiet(k0) && Known(k0, cmds[i].read.rd)
    modifies cmds
    ensures Outcome(cmds[..], k, false) == FanOut(old(cmds[..]), k0, i, 2)
  {
    hide Drained, Close, Filled, FanOut, FanSlots, OpenPipe, Finished, Known, Quiet;
    var src := cmds[i].read.rd;
    TeeKernel2(k0, src);
    FanSlots23(cmds[..], |k0.pipes|, i);
    FanOutIs(cmds[..], k0, i, 2);
    QuietIsFinished(k0, src);
    var (k1, e1) := OpenPipe(k0);
    OpenedIs(k0);
    OpenedFinished(k0, src);
    cmds[i + 1] := cmds[i + 1].(read := e1);
    var (k2, e2) := OpenPipe(k1);
    OpenedIs(k1);
    OpenedFinished(k1, src);
    KnownIsOld(k0, src);
    cmds[i + 3] := cmds[i + 3].(read := e2);
    k := Drain(k2, src, {e1.wr, e2.wr});
    k := Close(k, src);
    k := Close(k, e1.wr);
    k := Close(k, e2.wr);
    cmds[i + 1] := cmds[i + 1].(write := Ends(cmds[i + 1].write.rd, Out));
    cmds[i + 3] := cmds[i + 3].(write := Ends(cmds[i + 3].write.rd, Out));
  }

  /** The `|||` slot: three pipes, three copies, all readers write to the terminal. */
  method Tee3(cmds: array<Command>, k0: Kernel, i: nat) returns (k: Kernel)
    requires i + 5 < cmds.Length && Quiet(k0) && Known(k0, cmds[i].read.rd)
    modifies cmds
    ensures Outcome(cmds[..], k, false) == FanOut(old(cmds[..]), k0, i, 3)
  {
    hide Drained, Close, Filled, FanOut, FanSlots, OpenPipe, Finished, Known, Quiet;
    var src := cmds[i].read.rd;
    TeeKernel3(k0, src);
    FanSlots23(cmds[..], |k0.pipes|, i);
    FanOutIs(cmds[..], k0, i, 3);
    QuietIsFinished(k0, src);
    var (k1, e1) := OpenPipe(k0);
    OpenedIs(k0);
    OpenedFinished(k0, src);
    cmds[i + 1] := cmds[i + 1].(read := e1);
    var (k2, e2) := OpenPipe(k1);
    OpenedIs(k1);
    OpenedFinished(k1, src);
    cmds[i + 3] := cmds[i + 3].(read := e2);
    var (k3, e3) := OpenPipe(k2);
    OpenedIs(k2);
    OpenedFinished(k2, src);
    KnownIsOld(k0, src);
    cmds[i + 5] := cmds[i + 5].(read := e3);
    k := Drain(k3, src, {e1.wr, e2.wr, e3.wr});
    k := Close(k, src);
    k := Close(k, e1.wr);
    k := Close(k, e2.wr);
    k := Close(k, e3.wr);
    cmds[i + 1] := cmds[i + 1].(write := Ends(cmds[i + 1].write.rd, Out));
    cmds[i + 3] := cmds[i + 3].(write := Ends(cmds[i + 3].write.rd, Out));
    cmds[i + 5] := cmds[i + 5].(write := Ends(cmds[i + 5].write.rd, Out));
  }

  /** The child has run: its output is in its own pipe or on the terminal. */
  function Forked(k: Kernel, src: Fd, toOut: bool, output: Bytes): Kernel {
    if toOut then ChildOutput(k, Out, output)
    else ChildOutput(OpenPipe(k).0, PipeWrite(|k.pipes|), output)
  }

  /** An external command: fork, wait, and copy what it wrote to the next slot or to the terminal. */
  method RunExternal(cmds: array<Command>, k0: Kernel, i: nat, run: Programs) returns (k: Kernel)
    requires i + 1 < cmds.Length && Quiet(k0) && Known(k0, cmds[i].read.rd)
    requires cmds[i].write == UNSET || cmds[i].write == Ends(NoFd, Out)
    modifies cmds
    ensures Outcome(cmds[..], k, false) == RunCommand(old(cmds[..]), k0, i, run)
  {
    ghost var toOut, last := cmds[i].write.wr == Out, cmds[i + 1].cmd == "";
    k := k0;
    if cmds[i].write.wr == NoFd {
      var (k1, e) := OpenPipe(k);
      k := k1;
      cmds[i] := cmds[i].(write := e);
    }
    var c := cmds[i];
    var output := run(c.cmd, c.args, ChildInput(k, c.read.rd));
    ghost var fed := Consumed(k0, c.read.rd);
    ConsumedKeeps(k0, c.read.rd);
    ConsumedOpened(k0, c.read.rd);
    k := ChildOutput(Consumed(k, c.read.rd), c.write.wr, output);
    hide Consumed;
    assert k == Forked(fed, c.read.rd, toOut, output);
    k := PassOn(cmds, fed, k, i, output, toOut);
  }

  lemma ConsumedKeeps(k: Kernel, fd: Fd)
    requires Quiet(k) && Known(k, fd)
    ensures var fed := Consumed(k, fd);
            && Quiet(fed) && Known(fed, fd) && |fed.pipes| == |k.pipes|
            && fed.terminal == k.terminal && fed.outOpen == k.outOpen
  {
  }

  /** Opening a pipe first makes no difference to the child's input. */
  lemma ConsumedOpened(k: Kernel, fd: Fd)
    requires Known(k, fd)
    ensures ChildInput(OpenPipe(k).0, fd) == ChildInput(k, fd)
    ensures Consumed(OpenPipe(k).0, fd) == OpenPipe(Consumed(k, fd)).0
  {
    Opened(k, fd);
    Opened(k, Stdin);
    assert Consumed(OpenPipe(k).0, fd).pipes == OpenPipe(Consumed(k, fd)).0.pipes;
  }

  /** The shell's part after wait(): hand the child's output on. */
  method PassOn(cmds: array<Command>, ghost k0: Kernel, k1: Kernel, i: nat, ghost output: Bytes, ghost toOut: bool)
    returns (k: Kernel)
    requires i + 1 < cmds.Length && Quiet(k0) && Known(k0, cmds[i].read.rd)
    requires k1 == Forked(k0, cmds[i].read.rd, toOut, output)
    requires cmds[i].write == if toOut then Ends(NoFd, Out) else Ends(PipeRead(|k0.pipes|), PipeWrite(|k0.pipes|))
    modifies cmds
    ensures k == Handed(k0, cmds[i].read.rd, toOut, old(cmds[i + 1]).cmd == "", output)
    ensures cmds[..] == old(cmds[..])[i + 1 := old(cmds[i + 1]).(read :=
                          if old(cmds[i + 1]).cmd == "" then Ends(old(cmds[i + 1]).read.rd, Out)
                          else Ends(PipeRead(|k1.pipes|), PipeWrite(|k1.pipes|)))]
  {
    var c := cmds[i];
    ghost var last := cmds[i + 1].cmd == "";
    k := k1;
    if cmds[i + 1].cmd == "" {
      cmds[i + 1] := cmds[i + 1].(read := Ends(cmds[i + 1].read.rd, Out));
    } else {
      var (k2, e) := OpenPipe(k);
      k := k2;
      cmds[i + 1] := cmds[i + 1].(read := e);
    }
    var dst := cmds[i + 1].read.wr;
    k := Close(k, c.read.rd);
    k := Close(k, c.write.wr);
    HandOver(k0, c.read.rd, toOut, last, output);
    k := Drain(k, c.write.rd, {dst});
    k := Close(k, c.write.rd);
    k := Close(k, dst);
  }

  /** The kernel after an external command, in closed form. */
  function Handed(k: Kernel, src: Fd, toOut: bool, last: bool, output: Bytes): Kernel {
    var k1 := Close(k, src);
    if toOut then
      k1.(terminal := k.terminal + output, outOpen := false,
          pipes := if last then k1.pipes else k1.pipes + [Pipe([], true, false)])
    else if last then
      k1.(terminal := if k.outOpen then k.terminal + output else k.terminal, outOpen := false,
          pipes := k1.pipes + [Pipe([], false, false)])
    else k1.(pipes := k1.pipes + [Pipe([], false, false), Pipe(output, true, false)])
  }

  function BeforeDrain(k: Kernel, src: Fd, toOut: bool, last: bool, output: Bytes): Kernel {
    var k1 := Forked(k, src, toOut, output);
    var k2 := if last then k1 else OpenPipe(k1).0;
    Close(Close(k2, src), if toOut then Out else PipeWrite(|k.pipes|))
  }

  lemma HandOver(k: Kernel, src: Fd, toOut: bool, last: bool, output: Bytes)
    requires Quiet(k) && Known(k, src)
    ensures var b := BeforeDrain(k, src, toOut, last, output);
            var mine := if toOut then NoFd else PipeRead(|k.pipes|);
            var dst := if last then Out else PipeWrite(|Forked(k, src, toOut, output).pipes|);
            && Finished(b, mine)
            && Close(Close(Drained(b, mine, {dst}), mine), dst) == Handed(k, src, toOut, last, output)
  {
    var b := BeforeDrain(k, src, toOut, last, output);
    if toOut {
      DrainedEmpty(b, NoFd, {if last then Out else PipeWrite(|k.pipes|)});
      HandOverToOut(k, src, last, output);
    } else if last {
      HandOverLast(k, src, output);
    } else {
      HandOverNext(k, src, output);
    }
  }

  lemma HandOverToOut(k: Kernel, src: Fd, last: bool, output: Bytes)
    requires Quiet(k) && Known(k, src)
    ensures var b := BeforeDrain(k, src, true, last, output);
            Close(b, if last then Out else PipeWrite(|k.pipes|)) == Handed(k, src, true, last, output)
  {
    var b := BeforeDrain(k, src, true, last, output);
    var dst := if last then Out else PipeWrite(|k.pipes|);
    assert Close(b, dst).pipes == Handed(k, src, true, last, output).pipes;
  }

  /** The command's own pipe when it has ended and the shell has closed its copies. */
  lemma OwnPipe(k: Kernel, src: Fd, last: bool, output: Bytes)
    requires Quiet(k) && Known(k, src)
    ensures var b := BeforeDrain(k, src, false, last, output);
            && b == Close(k, src).(pipes := Close(k, src).pipes + [Pipe(output, true, false)]
                                            + if last then [] else [Pipe([], true, true)])
            && Content(b, PipeRead(|k.pipes|)) == output
  {
    var b := BeforeDrain(k, src, false, last, output);
    assert [] + output == output;
    assert b.pipes == Close(k, src).pipes + [Pipe(output, true, false)]
                      + if last then [] else [Pipe([], true, true)];
  }

  lemma HandOverLast(k: Kernel, src: Fd, output: Bytes)
    requires Quiet(k) && Known(k, src)
    ensures var b := BeforeDrain(k, src, false, true, output);
            var mine := PipeRead(|k.pipes|);
            && Finished(b, mine)
            && Close(Close(Drained(b, mine, {Out}), mine), Out) == Handed(k, src, false, true, output)
  {
    OwnPipe(k, src, true, output);
    var b := BeforeDrain(k, src, false, true, output);
    var mine := PipeRead(|k.pipes|);
    assert output[|output|..] == [];
    assert Close(Close(Drained(b, mine, {Out}), mine), Out).pipes == Handed(k, src, false, true, output).pipes;
  }

  lemma HandOverNext(k: Kernel, src: Fd, output: Bytes)
    requires Quiet(k) && Known(k, src)
    ensures var b := BeforeDrain(k, src, false, false, output);
            var mine, dst := PipeRead(|k.pipes|), PipeWrite(|k.pipes| + 1);
            && Finished(b, mine)
            && Close(Close(Drained(b, mine, {dst}), mine), dst) == Handed(k, src, false, false, output)
  {
    OwnPipe(k, src, false, output);
    var b := BeforeDrain(k, src, false, false, output);
    var mine, dst := PipeRead(|k.pipes|), PipeWrite(|k.pipes| + 1);
    assert output[|output|..] == [] && [] + output == output;
    assert Close(Close(Drained(b, mine, {dst}), mine), dst).pipes
           == Handed(k, src, false, false, output).pipes;
  }

  /** The body of the executor's loop. */
  method ExecuteSlot(cmds: array<Command>, k0: Kernel, i: nat, run: Programs, ghost n: nat)
    returns (k: Kernel, stop: bool)
    requires Bounded(cmds[..], n) && i < n && Quiet(k0) && Sane(cmds[..], k0, i)
    modifies cmds
    ensures Outcome(cmds[..], k, stop) == Step(old(cmds[..]), k0, i, n, run)
  {
    hide Drained, FanOut, RunCommand, Quiet;
    k, stop := k0, false;
    if cmds[i].cmd == "|" {
      if i == 0 || cmds[i + 1].cmd == "" {
        stop := true;
        return;
      }
      k := Tee1(cmds, k, i);
    } else if cmds[i].cmd == "||" {
      if i == 0 || cmds[i + 1].cmd == "" || cmds[i + 2].cmd == "" || cmds[i + 3].cmd == ""
         || cmds[i + 2].cmd != "," {
        stop := true;
        return;
      }
      k := Tee2(cmds, k, i);
    } else if cmds[i].cmd == "|||" {
      if i == 0 || cmds[i + 1].cmd == "" || cmds[i + 2].cmd == "" || cmds[i + 3].cmd == ""
         || cmds[i + 4].cmd == "" || cmds[i + 5].cmd == "" || cmds[i + 2].cmd != "," || cmds[i + 4].cmd != "," {
        stop := true;
        return;
      }
      k := Tee3(cmds, k, i);
    } else if cmds[i].cmd == "," {
    } else if cmds[i].cmd == ";" {
      QuietIsFinished(k, cmds[i].read.rd);
      k := Drain(k, cmds[i].read.rd, {Out});
      stop := true;
    } else if cmds[i].cmd == "cd" {
    } else {
      k := RunExternal(cmds, k, i, run);
    }
  }

  lemma QuietIsFinished(k: Kernel, fd: Fd)
    requires Quiet(k)
    ensures Finished(k, fd)
  {
  }

  /** The first command reads the shell's standard input. */
  function FromStdin(cs: seq<Command>): seq<Command>
    requires cs != []
  {
    cs[0 := cs[0].(read := Ends(Stdin, cs[0].read.wr))]
  }

  /** The descriptors that dup makes when the executor starts: `out` is open again. */
  function Entered(k: Kernel): Kernel {
    k.(outOpen := true)
  }

  /** dup2 at the end: standard input is what it was, as far as it has been read. */
  function Restored(k0: Kernel, k: Kernel): Kernel {
    k.(stdinOpen := k0.stdinOpen)
  }

  /** The executor on any command array: it ends, no read of a pipe finds a writer left, and the result is the
      slot-by-slot evaluation. */
  method Execute(cmds: array<Command>, k0: Kernel, run: Programs, ghost n: nat) returns (k: Kernel)
    requires Bounded(cmds[..], n) && Quiet(k0) && Sane(FromStdin(cmds[..]), Entered(k0), 0)
    modifies cmds
    ensures Bounded(FromStdin(old(cmds[..])), n) && Quiet(Entered(k0))
    ensures k == Restored(k0, Exec(FromStdin(old(cmds[..])), Entered(k0), 0, n, run))
  {
    ghost var k1 := Entered(k0);
    assert Quiet(k1);
    hide Step, Quiet, Sane;
    cmds[0] := cmds[0].(read := Ends(Stdin, cmds[0].read.wr));
    assert cmds[..] == FromStdin(old(cmds[..]));
    ghost var start := cmds[..];
    k := Entered(k0);
    var i := 0;
    var stop := false;
    while !stop && i < BUFFER_SIZE && cmds[i].cmd != ""
      invariant Bounded(start, n) && Bounded(cmds[..], n) && Quiet(k1) && Sane(start, k1, 0)
      invariant if stop then k == Exec(start, k1, 0, n, run)
                else
                  && i <= n && i <= BUFFER_SIZE && Quiet(k) && Sane(cmds[..], k, i)
                  && Exec(cmds[..], k, i, n, run) == Exec(start, k1, 0, n, run)
      decreases !stop, BUFFER_SIZE - i
    {
      assert i < n;
      StepKeeps(cmds[..], k, i, n, run);
      k, stop := ExecuteSlot(cmds, k, i, run, n);
      i := i + 1;
    }
    k := Restored(k0, k);
  }
}
