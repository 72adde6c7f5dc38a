/** What the tidy runs of the receiving threads produce (Assignment-2/multiplethreads.c, getdata). */
module TidyResults {
  import opened Options
  import opened Reassembly
  import opened Sender
  import opened Transfer
  import opened TransferProgress
  import opened TidyRuns

  /** A state that some tidy run reaches on the sender's output. */
  ghost predicate TidyReachable(src: string, n: nat, st: State) {
    exists steps :: TidyRun(Start(src, n), steps) && CanRun(Start(src, n), steps) && Run(Start(src, n), steps) == st
  }

  lemma TidyInv(src: string, n: nat, st: State)
    requires Clean(src) && 0 < n && TidyReachable(src, n, st)
    ensures Inv(Loads(src), src, n, st)
  {
    hide Inv, Start, CanRun, Run, TidyRun;
    var steps :| TidyRun(Start(src, n), steps) && CanRun(Start(src, n), steps) && Run(Start(src, n), steps) == st;
    StartInv(src, n);
    RunKeepsInv(Loads(src), src, n, Start(src, n), steps);
  }

  // ---------------------------------------------------------------------------------------------
  // Going on
  // ---------------------------------------------------------------------------------------------

  /** A thread between its two calls can make the second one; otherwise whoever holds the mutex can go on; otherwise
      every thread that has not finished can. */
  lemma TidyProgress(w: seq<string>, src: string, n: nat, st: State)
    requires Inv(w, src, n, st) && !AllFinished(st)
    ensures exists q :: TidyStep(st, q)
  {
    hide LogOk, StageOk, Replay, Total;
    forall q | 0 <= q < n ensures !st.threads[q].Failed? && (st.holder == Some(q) ==> InCritical(st.threads[q])) {
      assert ThreadOk(w, src, n, st, q);
    }
    var q :| 0 <= q < |st.threads| && !st.threads[q].Finished?;
    if !NobodyHalved(st) {
      var p :| 0 <= p < |st.threads| && st.threads[p].Halved?;
      assert TidyStep(st, p);
    } else {
      var r := if st.holder.Some? then st.holder.value else q;
      assert TidyStep(st, r);
    }
  }

  /** From every state of a tidy run the end can be reached without a failure. */
  lemma {:induction false} CanFinish(w: seq<string>, src: string, n: nat, st: State) returns (steps: seq<nat>)
    requires Clean(src) && Inv(w, src, n, st)
    ensures TidyRun(st, steps) && CanRun(st, steps) && AllFinished(Run(st, steps))
    decreases Work(st, |st.threads|)
  {
    hide Inv, Enabled, Next, Work, AllFinished, CanRun, Run;
    if AllFinished(st) {
      steps := [];
      RunCons(st, []);
    } else {
      TidyProgress(w, src, n, st);
      var q: nat :| TidyStep(st, q);
      StepKeepsInv(w, src, n, st, q);
      EnabledIsThread(st, q);
      StepWork(st, q, |st.threads|);
      var rest := CanFinish(w, src, n, Next(st, q));
      steps := [q] + rest;
      assert steps[0] == q && steps[1..] == rest;
      RunCons(st, steps);
    }
  }

  lemma {:induction false} TidyConcat(st: State, a: seq<nat>, b: seq<nat>)
    requires TidyRun(st, a) && CanRun(st, a) && TidyRun(Run(st, a), b)
    ensures TidyRun(st, a + b)
    decreases |a|
  {
    hide Enabled, Next;
    if a == [] {
      assert a + b == b;
    } else {
      TidyConcat(Next(st, a[0]), a[1..], b);
      assert (a + b)[1..] == a[1..] + b;
    }
  }

  // ---------------------------------------------------------------------------------------------
  // The byte counter
  // ---------------------------------------------------------------------------------------------

  /** The length of the texts of those of the first m chunks that the log lists. */
  function Listed(w: seq<string>, log: seq<nat>, m: nat): nat {
    if m == 0 then 0 else Listed(w, log, m - 1) + if m - 1 in log then |Part(w, m - 1)| else 0
  }

  lemma {:induction false} ListedAppend(w: seq<string>, log: seq<nat>, k: nat, m: nat)
    requires k !in log
    ensures Listed(w, log + [k], m) == Listed(w, log, m) + if k < m then |Part(w, k)| else 0
  {
    hide Part;
    if m > 0 {
      ListedAppend(w, log, k, m - 1);
      assert m - 1 in log + [k] <==> m - 1 in log || m - 1 == k;
    }
  }

  lemma {:induction false} ListedNothing(w: seq<string>, m: nat)
    ensures Listed(w, [], m) == 0
  {
    if m > 0 {
      ListedNothing(w, m - 1);
    }
  }

  lemma {:induction false} TotalListed(w: seq<string>, log: seq<nat>, m: nat)
    requires Distinct(log) && forall k :: k in log ==> k < m
    ensures Total(w, log) == Listed(w, log, m)
  {
    hide Part;
    if log == [] {
      ListedNothing(w, m);
    } else {
      var before, k := log[..|log| - 1], log[|log| - 1];
      Reassembly.DropLast(log);
      TotalListed(w, before, m);
      ListedAppend(w, before, k, m);
      AppendParts(w, before, k);
    }
  }

  /** The length of the texts of the first m chunks. */
  function PartTotal(w: seq<string>, m: nat): nat {
    if m == 0 then 0 else PartTotal(w, m - 1) + |Part(w, m - 1)|
  }

  lemma {:induction false} ListedAll(w: seq<string>, log: seq<nat>, m: nat)
    ensures Listed(w, log, m) <= PartTotal(w, m)
    ensures (forall k: nat :: k < m ==> k in log) ==> Listed(w, log, m) == PartTotal(w, m)
  {
    hide Part;
    if m > 0 {
      ListedAll(w, log, m - 1);
    }
  }

  /** The counter is what the chunks written so far add up to, less what has been written and not yet counted. */
  lemma CounterIs(w: seq<string>, src: string, n: nat, st: State)
    requires Inv(w, src, n, st)
    ensures st.received + Uncounted(st) == Listed(w, st.log, ChunkCount(src)) <= PartTotal(w, ChunkCount(src))
  {
    assert Distinct(st.log) && forall k :: k in st.log ==> k < ChunkCount(src);
    assert st.received + Uncounted(st) == Total(w, st.log);
    hide *;
    TotalListed(w, st.log, ChunkCount(src));
    ListedAll(w, st.log, ChunkCount(src));
  }

  // ---------------------------------------------------------------------------------------------
  // The end
  // ---------------------------------------------------------------------------------------------

  lemma FinishedThread(w: seq<string>, src: string, n: nat, st: State, q: nat)
    requires ThreadsOk(w, src, n, st) && q < n && st.threads[q].Finished?
    ensures Written(src, n, st, q) == |StreamOf(src, n, q)|
    ensures st.holder != Some(q)
  {
    assert ThreadOk(w, src, n, st, q);
  }

  /** When all threads have seen the end of their connections, every chunk has been written once, and all that was
      written has been counted. */
  lemma FinishedIsComplete(w: seq<string>, src: string, n: nat, st: State)
    requires Inv(w, src, n, st) && AllFinished(st)
    ensures forall k: nat :: k in st.log <==> k < ChunkCount(src)
    ensures st.received == PartTotal(w, ChunkCount(src)) && st.holder.None?
    ensures st.file == Replay(w, st.log)
  {
    hide Chunk, Idx, StreamOf, Share, ThreadOk, Total, Listed, PartTotal, Part, Replay, Written;
    forall k: nat | k < ChunkCount(src) ensures k in st.log {
      IdxOfQuotient(k, n);
      ShareBound(ChunkCount(src), n, k % n, k / n);
      StreamLength(src, n, k % n);
      FinishedThread(w, src, n, st, k % n);
      assert Idx(k % n, k / n, n) in st.log;
    }
    if st.holder.Some? {
      FinishedThread(w, src, n, st, st.holder.value);
    }
    CounterIs(w, src, n, st);
    ListedAll(w, st.log, ChunkCount(src));
  }
}
