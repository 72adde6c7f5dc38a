/** The system calls the pipeline executor makes, as functions on a kernel value. Pipes are unbounded and
    descriptor numbers are never reused; a pipe keeps one reading and one writing end. */
module ShellKernel {
  import opened Octets
  import opened ShellParser

  /** A program as a function of its file name, its arguments and all of its standard input. */
  type Programs = (string, seq<string>, Bytes) -> Bytes

  datatype Pipe = Pipe(data: Bytes, readable: bool, writable: bool)

  datatype Kernel = Kernel(pipes: seq<Pipe>, stdin: Bytes, stdinOpen: bool, outOpen: bool, terminal: Bytes)

  const READ_SIZE: nat := 128

  function OpenPipe(k: Kernel): (Kernel, Ends) {
    (k.(pipes := k.pipes + [Pipe([], true, true)]), Ends(PipeRead(|k.pipes|), PipeWrite(|k.pipes|)))
  }

  function Close(k: Kernel, fd: Fd): Kernel {
    match fd
    case NoFd => k
    case Stdin => k.(stdinOpen := false)
    case Out => k.(outOpen := false)
    case PipeRead(id) =>
      if id < |k.pipes| then k.(pipes := k.pipes[id := k.pipes[id].(readable := false)]) else k
    case PipeWrite(id) =>
      if id < |k.pipes| then k.(pipes := k.pipes[id := k.pipes[id].(writable := false)]) else k
  }

  predicate CanRead(k: Kernel, fd: Fd) {
    match fd
    case Stdin => k.stdinOpen
    case PipeRead(id) => id < |k.pipes| && k.pipes[id].readable
    case _ => false
  }

  /** The bytes that can be read from a descriptor. */
  function Content(k: Kernel, fd: Fd): Bytes {
    if !CanRead(k, fd) then []
    else if fd.Stdin? then k.stdin
    else k.pipes[fd.id].data
  }

  function Drop(k: Kernel, fd: Fd, n: nat): Kernel
    requires n <= |Content(k, fd)|
  {
    if !CanRead(k, fd) then k
    else if fd.Stdin? then k.(stdin := k.stdin[n..])
    else k.(pipes := k.pipes[fd.id := k.pipes[fd.id].(data := k.pipes[fd.id].data[n..])])
  }

  function Fed(p: Pipe, addressed: bool, data: Bytes): Pipe {
    if addressed && p.writable then p.(data := p.data + data) else p
  }

  /** The same data written to each of several descriptors. */
  function Write(k: Kernel, fds: set<Fd>, data: Bytes): Kernel {
    k.(pipes := seq(|k.pipes|, j requires 0 <= j < |k.pipes| =>
                  Fed(k.pipes[j], PipeWrite(j) in fds, data)),
       terminal := if Out in fds && k.outOpen then k.terminal + data else k.terminal)
  }

  /** Reading `fd` to end of file cannot block: nobody can write to it any more. */
  predicate Finished(k: Kernel, fd: Fd) {
    fd.PipeRead? && fd.id < |k.pipes| ==> !k.pipes[fd.id].writable
  }

  /** What a read of `fd` finds there; a read of an unfinished pipe might block. */
  function Available(k: Kernel, fd: Fd): Bytes
    requires Finished(k, fd)
  {
    Content(k, fd)
  }

  function Drained(k: Kernel, src: Fd, dsts: set<Fd>): Kernel {
    Write(Drop(k, src, |Content(k, src)|), dsts, Content(k, src))
  }

  lemma FedTwice(p: Pipe, addressed: bool, a: Bytes, b: Bytes)
    ensures Fed(Fed(p, addressed, a), addressed, b) == Fed(p, addressed, a + b)
  {
    assert p.data + a + b == p.data + (a + b);
  }

  lemma WriteTwice(k: Kernel, fds: set<Fd>, a: Bytes, b: Bytes)
    ensures Write(Write(k, fds, a), fds, b) == Write(k, fds, a + b)
  {
    forall j | 0 <= j < |k.pipes|
      ensures Write(Write(k, fds, a), fds, b).pipes[j] == Write(k, fds, a + b).pipes[j]
    {
      FedTwice(k.pipes[j], PipeWrite(j) in fds, a, b);
    }
    assert Write(Write(k, fds, a), fds, b).pipes == Write(k, fds, a + b).pipes;
    assert k.terminal + a + b == k.terminal + (a + b);
  }

  lemma WriteElsewhere(k: Kernel, src: Fd, n: nat, fds: set<Fd>, data: Bytes)
    requires src.PipeRead? ==> PipeWrite(src.id) !in fds
    ensures Content(Write(k, fds, data), src) == Content(k, src)
    ensures n <= |Content(k, src)| ==> Drop(Write(k, fds, data), src, n) == Write(Drop(k, src, n), fds, data)
  {
    if n <= |Content(k, src)| {
      assert Drop(Write(k, fds, data), src, n).pipes == Write(Drop(k, src, n), fds, data).pipes;
    }
  }

  lemma DropTwice(k: Kernel, src: Fd, m: nat, n: nat)
    requires m + n <= |Content(k, src)|
    ensures Content(Drop(k, src, m), src) == Content(k, src)[m..]
    ensures Drop(Drop(k, src, m), src, n) == Drop(k, src, m + n)
  {
    if CanRead(k, src) {
      assert Content(k, src)[m..][n..] == Content(k, src)[m + n..];
    }
  }

  /** Moving a first part and then the rest is moving everything. */
  lemma DrainStep(k: Kernel, src: Fd, dsts: set<Fd>, n: nat)
    requires src.PipeRead? ==> PipeWrite(src.id) !in dsts
    requires n <= |Content(k, src)|
    ensures var next := Write(Drop(k, src, n), dsts, Content(k, src)[..n]);
            && Content(next, src) == Content(k, src)[n..]
            && Drained(next, src, dsts) == Drained(k, src, dsts)
  {
    var all := Content(k, src);
    hide *;
    var a, b, rest := all[..n], all[n..], |all| - n;
    var dropped, gone := Drop(k, src, n), Drop(k, src, |all|);
    var next := Write(dropped, dsts, a);
    DropTwice(k, src, n, rest);
    WriteElsewhere(dropped, src, rest, dsts, a);
    DrainedIs(next, src, dsts, b);
    DrainedIs(k, src, dsts, all);
    WriteTwice(gone, dsts, a, b);
    assert a + b == all;
  }

  lemma DrainedIs(k: Kernel, src: Fd, dsts: set<Fd>, data: Bytes)
    requires Content(k, src) == data
    ensures Drained(k, src, dsts) == Write(Drop(k, src, |data|), dsts, data)
  {
  }

  lemma DrainedEmpty(k: Kernel, src: Fd, dsts: set<Fd>)
    requires Content(k, src) == []
    ensures Drained(k, src, dsts) == k
  {
    assert forall j :: 0 <= j < |k.pipes| ==> k.pipes[j].data + [] == k.pipes[j].data;
    assert Drained(k, src, dsts).pipes == k.pipes;
    assert k.terminal + [] == k.terminal;
  }

  /** The executor's copying loops: read up to 128 bytes, write them to every destination, until end of file. */
  method Drain(k0: Kernel, src: Fd, dsts: set<Fd>) returns (k: Kernel)
    requires Finished(k0, src)
    requires src.PipeRead? ==> PipeWrite(src.id) !in dsts
    ensures k == Drained(k0, src, dsts)
  {
    k := k0;
    while true
      invariant Finished(k, src)
      invariant Drained(k, src, dsts) == Drained(k0, src, dsts)
      decreases |Content(k, src)|
    {
      var available := Available(k, src);
      var size := if |available| < READ_SIZE then |available| else READ_SIZE;
      if size == 0 {
        break;
      }
      var buffer := available[..size];
      DrainStep(k, src, dsts, size);
      k := Write(Drop(k, src, size), dsts, buffer);
    }
    DrainedEmpty(k, src, dsts);
  }

  // ---------------------------------------------------------------------------------------------
  // A forked child
  // ---------------------------------------------------------------------------------------------

  /** dup2 onto standard input fails on a closed descriptor; the child then keeps the shell's own input. */
  function ChildInput(k: Kernel, fd: Fd): Bytes {
    if CanRead(k, fd) then Content(k, fd) else Content(k, Stdin)
  }

  /** Where the child reads. */
  function InputFd(k: Kernel, fd: Fd): Fd {
    if CanRead(k, fd) then fd else Stdin
  }

  /** The child has read all of its input. */
  function Consumed(k: Kernel, fd: Fd): Kernel {
    Drop(k, InputFd(k, fd), |Content(k, InputFd(k, fd))|)
  }

  /** dup2 onto standard output fails on a closed descriptor; the child then keeps the terminal, which is
      also what `out` refers to. */
  function ChildOutput(k: Kernel, fd: Fd, data: Bytes): Kernel {
    if fd.PipeWrite? && fd.id < |k.pipes| && k.pipes[fd.id].writable then Write(k, {fd}, data)
    else k.(terminal := k.terminal + data)
  }
}
