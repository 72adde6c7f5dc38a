/** What the one cursor of strtok does to the threads of Assignment-2/multiplethreads.c (lines 53 and 55), which call it
    outside the mutex: when a run can fail, and when one that does not fail can still go wrong. */
module SharedCursor {
  import opened Options
  import opened CStrings
  import opened Buffers
  import opened Reassembly
  import opened Sender
  import opened Transfer
  import opened TidyRuns

  // ---------------------------------------------------------------------------------------------
  // When a run can fail
  // ---------------------------------------------------------------------------------------------

  /** With one connection, or one chunk, no two threads are ever in their turns' strtok calls. */
  lemma EveryStepTidy(w: seq<string>, src: string, n: nat, st: State, q: nat)
    requires Inv(w, src, n, st) && Enabled(st, q) && (n == 1 || ChunkCount(src) <= 1)
    ensures TidyStep(st, q)
  {
    hide StageOk, LogOk, Replay, Total;
    if n > 1 && st.threads[q].Received? {
      forall p | 0 <= p < n ensures !st.threads[p].Halved? {
        if st.threads[p].Halved? {
          assert ThreadOk(w, src, n, st, p) && ThreadOk(w, src, n, st, q);
          OnlyThreadZero(src, n, p, Got(src, n, st, p));
          OnlyThreadZero(src, n, q, Got(src, n, st, q));
        }
      }
    }
  }

  lemma OnlyThreadZero(src: string, n: nat, q: nat, got: int)
    requires q < n && ChunkCount(src) <= 1 && 1 <= got <= |StreamOf(src, n, q)|
    ensures q == 0
  {
    StreamLength(src, n, q);
    ShareBound(ChunkCount(src), n, q, 0);
  }

  lemma {:induction false} EveryRunTidy(w: seq<string>, src: string, n: nat, st: State, steps: seq<nat>)
    requires Clean(src) && Inv(w, src, n, st) && CanRun(st, steps) && (n == 1 || ChunkCount(src) <= 1)
    ensures TidyRun(st, steps) && Inv(w, src, n, Run(st, steps))
    decreases |steps|
  {
    hide Inv, Next, Enabled, ChunkCount;
    if steps != [] {
      EveryStepTidy(w, src, n, st, steps[0]);
      StepKeepsInv(w, src, n, st, steps[0]);
      EveryRunTidy(w, src, n, Next(st, steps[0]), steps[1..]);
    }
  }

  lemma InvIsAlive(w: seq<string>, src: string, n: nat, st: State)
    requires Inv(w, src, n, st)
    ensures Alive(st)
  {
    hide LogOk, StageOk, Replay, Total;
    forall q | 0 <= q < |st.threads| ensures !st.threads[q].Failed? {
      assert ThreadOk(w, src, n, st, q);
    }
  }

  lemma InvThread(w: seq<string>, src: string, n: nat, st: State, q: nat)
    requires Inv(w, src, n, st) && q < n
    ensures n == |st.inbox| == |st.threads| == |st.temps| && ThreadOk(w, src, n, st, q)
  {
  }

  /** A connection that has a first frame. */
  lemma FirstFrame(src: string, n: nat, q: nat)
    requires q < n && q < ChunkCount(src)
    ensures |StreamOf(src, n, q)| >= 1 && StreamOf(src, n, q)[0] == FrameOf(src, q)
  {
    StreamLength(src, n, q);
    ShareBound(ChunkCount(src), n, q, 0);
    assert Idx(q, 0, n) == q;
    hide *;
    StreamAt(src, n, q, 0);
  }

  /** Thread q has received its first frame. */
  function FirstReceived(src: string, st: State, q: nat): State
    requires Sized(st) && q < |st.threads| && st.inbox[q] != []
  {
    st.(threads := st.threads[q := Received], inbox := st.inbox[q := st.inbox[q][1..]],
        temps := st.temps[q := Filled(st.temps[q], FrameOf(src, q))])
  }

  lemma ReceiveFirst(src: string, n: nat, st: State, q: nat)
    requires Clean(src) && Inv(Loads(src), src, n, st) && q < n && q < ChunkCount(src)
    requires st.threads[q].Receiving? && st.inbox[q] == StreamOf(src, n, q)
    ensures Sized(st) && |st.threads| == n && st.inbox[q] != [] && TidyStep(st, q)
    ensures Next(st, q) == FirstReceived(src, st, q)
    ensures Inv(Loads(src), src, n, FirstReceived(src, st, q))
    ensures FullRead(Filled(st.temps[q], FrameOf(src, q)), src, q)
  {
    FirstFrame(src, n, q);
    InvIsAlive(Loads(src), src, n, st);
    InvThread(Loads(src), src, n, st, q);
    StepKeepsInv(Loads(src), src, n, st, q);
    hide Inv, FullRead, Filled, Load, Loads, FrameOf, ChunkCount, StreamOf;
    var st' := FirstReceived(src, st, q);
    InvThread(Loads(src), src, n, st', q);
    assert Got(src, n, st', q) == 1 && Idx(q, 0, n) == q;
  }

  /** Two threads make their first calls, then both their second: the one that called first gets the other's chunk, and
      the other one fails. */
  lemma FailingRun(src: string, n: nat) returns (steps: seq<nat>)
    requires Clean(src) && 1 < n && 1 < ChunkCount(src)
    ensures CanRun(Start(src, n), steps) && !Alive(Run(Start(src, n), steps))
  {
    hide Inv, FullRead, Load, Loads, FrameOf, ChunkCount, StreamOf;
    var st := Start(src, n);
    StartInv(src, n);
    ReceiveFirst(src, n, st, 0);
    var st1 := Next(st, 0);
    ReceiveFirst(src, n, st1, 1);
    var st2 := Next(st1, 1);
    InvIsAlive(Loads(src), src, n, st2);
    var rest := TwoCalls(src, st2);
    RunFront(st1, 1, rest);
    RunFront(st, 0, [1] + rest);
    steps := [0] + ([1] + rest);
  }

  lemma TwoCalls(src: string, st: State) returns (steps: seq<nat>)
    requires Sized(st) && Alive(st) && 1 < |st.threads| && st.threads[0].Received? && st.threads[1].Received?
    requires FullRead(st.temps[0], src, 0) && FullRead(st.temps[1], src, 1)
    ensures CanRun(st, steps) && !Alive(Run(st, steps))
  {
    hide Tok, StringAt, Stands, Atoi, CanRun, Run;
    var c := Tok(st.temps[1], 0).value;
    var st1 := Next(st, 0);
    var st2 := Next(st1, 1);
    assert st2.temps[1] == c.buf && st2.cursor == Some(Cursor(1, c.next));
    var d := Tok(c.buf, c.next).value;
    var st3 := Next(st2, 0);
    assert st3.temps[1] == d.buf && st3.cursor == Some(Cursor(1, d.next));
    var st4 := Next(st3, 1);
    assert st4.threads[1].Failed?;
    RunCons(st4, []);
    RunFront(st3, 1, []);
    RunFront(st2, 0, [1] + []);
    RunFront(st1, 1, [0] + ([1] + []));
    RunFront(st, 0, [1] + ([0] + ([1] + [])));
    steps := [0] + ([1] + ([0] + ([1] + [])));
  }

  /** No run fails exactly when there is one connection or at most one chunk. */
  lemma NeverFailsIff(src: string, n: nat)
    requires Clean(src) && 0 < n
    ensures (forall st :: Reachable(src, n, st) ==> Alive(st)) <==> n == 1 || ChunkCount(src) <= 1
  {
    hide Inv, Alive, CanRun, Run, ChunkCount, TidyRun;
    if n == 1 || ChunkCount(src) <= 1 {
      forall st | Reachable(src, n, st) ensures Alive(st) {
        var steps :| CanRun(Start(src, n), steps) && Run(Start(src, n), steps) == st;
        StartInv(src, n);
        EveryRunTidy(Loads(src), src, n, Start(src, n), steps);
        InvIsAlive(Loads(src), src, n, st);
      }
    } else {
      var steps := FailingRun(src, n);
      assert Reachable(src, n, Run(Start(src, n), steps));
    }
  }
}
