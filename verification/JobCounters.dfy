/** How far the fast counters of a job whose batches have ended can still run away from its rows. */
module JobCounters {
  import opened Prelude
  import opened JobModel
  import opened JobProtocol
  import opened JobInvariant
  import opened JobTheorems
  import opened JobOutcomes

  // ---------------------------------------------------------------- the condition

  /** Some message leads to batch `b`. */
  predicate Reached(s: State, b: nat) {
    exists t :: t in s.msgs && s.msgs[t].batch == b
  }

  /** How many running items no call of `mark_failed` can end, among the first `n` batches. */
  ghost function Beyond(s: State, n: nat): nat
    requires n <= |s.batches|
  {
    if n == 0 then 0
    else Beyond(s, n - 1) + if Reached(s, n - 1) then 0 else Tally(s.batches[n - 1].items, ItemRunning)
  }

  /** The job can be refreshed without ending or losing an execution. */
  ghost predicate FreeRefresh(s: State) {
    || s.cancels > 0 || !TerminalJob(s.job.status)
    || exists t :: t in s.msgs && !s.msgs[t].phase.Executing?
  }

  /**
   Even if every execution ends now, `processed_items` stays within `total_items`; and there are no more executions
   than items that stay running after everything that can be failed was failed and recounted. A refresh that has to
   wait for the end of an execution leaves one execution fewer.
   */
  ghost predicate Fits(s: State) {
    && s.job.processed + |Executors(s)| <= s.job.totalItems
    && |Executors(s)| <= Beyond(s, |s.batches|) + Bit(!FreeRefresh(s))
  }

  /** All batches have ended, and no dispatch call is under way. */
  ghost predicate Resting(s: State) {
    Inv(s) && AllFinished(s.batches) && DispatchIdle(s)
  }

  // ---------------------------------------------------------------- counting

  lemma {:induction false} BeyondGrows(s: State, r: State, n: nat)
    requires n <= |s.batches| && n <= |r.batches|
    requires forall b :: 0 <= b < n && Reached(r, b) ==> Reached(s, b)
    requires forall b :: 0 <= b < n && !Reached(s, b) ==>
      Tally(r.batches[b].items, ItemRunning) == Tally(s.batches[b].items, ItemRunning)
    ensures Beyond(s, n) <= Beyond(r, n)
  {
    if n > 0 {
      BeyondGrows(s, r, n - 1);
      assert Reached(r, n - 1) ==> Reached(s, n - 1);
    }
  }

  lemma {:induction false} BeyondIsRunning(s: State, n: nat)
    requires n <= |s.batches|
    ensures Beyond(s, n) <= Total(s.batches[..n], ItemRunning)
    ensures (forall t :: t in s.msgs ==> Left(s, t) == 0) ==> Beyond(s, n) == Total(s.batches[..n], ItemRunning)
  {
    if n > 0 {
      BeyondIsRunning(s, n - 1);
      assert s.batches[..n][..n - 1] == s.batches[..n - 1] && s.batches[..n][n - 1] == s.batches[n - 1];
    }
  }

  /** What is neither closed nor pending is running. */
  lemma RestingTotals(s: State)
    requires Resting(s)
    ensures ClosedCount(s.batches) + Total(s.batches, ItemRunning) == s.job.totalItems
    ensures Beyond(s, |s.batches|) <= Total(s.batches, ItemRunning)
    ensures (forall t :: t in s.msgs ==> Left(s, t) == 0) ==> Beyond(s, |s.batches|) == Total(s.batches, ItemRunning)
  {
    TotalPartition(s.batches);
    BeyondIsRunning(s, |s.batches|);
    assert s.batches[..|s.batches|] == s.batches;
    forall b | 0 <= b < |s.batches| ensures Tally(s.batches[b].items, ItemPending) == 0 { assert RowsOk(s.batches[b]); }
    NoneLeft(s.batches, ItemPending);
  }

  // ---------------------------------------------------------------- it is kept

  /** The rows keep their running items, except in batches that a message leads to, and no message is new. */
  ghost predicate Keeps(s: State, r: State) {
    && |r.batches| == |s.batches| && r.job.totalItems == s.job.totalItems
    && (forall b :: 0 <= b < |s.batches| && Reached(r, b) ==> Reached(s, b))
    && (forall b :: 0 <= b < |s.batches| && !Reached(s, b) ==>
          Tally(r.batches[b].items, ItemRunning) == Tally(s.batches[b].items, ItemRunning))
  }

  lemma FitsAfter(s: State, r: State)
    requires Fits(s) && Keeps(s, r)
    requires r.job.processed + |Executors(r)| <= s.job.totalItems
    requires |Executors(r)| + Bit(FreeRefresh(r) && !FreeRefresh(s)) <= |Executors(s)|
    ensures Fits(r)
  {
    BeyondGrows(s, r, |s.batches|);
  }

  lemma ReachedStays(s: State, r: State)
    requires forall t :: t in r.msgs ==> t in s.msgs && r.msgs[t].batch == s.msgs[t].batch
    ensures forall b: nat :: Reached(r, b) ==> Reached(s, b)
  {
    forall b: nat | Reached(r, b) ensures Reached(s, b) {
      var t :| t in r.msgs && r.msgs[t].batch == b;
      assert t in s.msgs && s.msgs[t].batch == b;
    }
  }

  lemma RestingStep(s: State, l: Label)
    requires Resting(s) && Enabled(s, l)
    ensures Resting(Apply(s, l))
    ensures l.Cancel? || l.RefreshNow? || (MessageOf(l).Some? && !l.EarlyCancel? && !l.Claim? && !l.StartItem?)
  {
    StepInv(s, l);
    SettledMessage(s, l);
    assert l.Resume? ==> HasPending(s);
    if l.MarkFailed? { assert MessageOk(s, l.t); }
    var r := Apply(s, l);
    forall b | 0 <= b < |r.batches| ensures FinishedBatch(r.batches[b].status) {
      assert FinishedBatch(s.batches[b].status);
    }
  }

  /** A message step that ends an execution, or none. */
  lemma WorkerKeeps(s: State, l: Label)
    requires Resting(s) && Enabled(s, l) && MessageOf(l).Some?
    ensures Keeps(s, Apply(s, l))
    ensures Executors(Apply(s, l)) == Executors(s) - {l.t}
    ensures l.t in Executors(s) ==> FreeRefresh(Apply(s, l))
    ensures l.t in s.msgs && (l.t !in Executors(s) ==> FreeRefresh(s))
  {
    RestingStep(s, l);
    assert MessageOk(s, l.t);
    MessagesStay(s, l);
    OtherRows(s, l);
    WorkerKeepsRows(s, Apply(s, l), l.t);
  }

  lemma WorkerKeepsRows(s: State, r: State, t: TaskId)
    requires t in s.msgs && |r.batches| == |s.batches| && r.job.totalItems == s.job.totalItems
    requires forall u :: u in r.msgs ==> u in s.msgs && r.msgs[u].batch == s.msgs[u].batch
    requires forall u :: u in s.msgs && u != t ==> u in r.msgs && r.msgs[u] == s.msgs[u]
    requires (t in r.msgs ==> !r.msgs[t].phase.Executing?) && (s.msgs[t].phase.Executing? ==> t in r.msgs)
    requires forall b :: 0 <= b < |s.batches| && b != s.msgs[t].batch ==> r.batches[b] == s.batches[b]
    ensures Keeps(s, r) && Executors(r) == Executors(s) - {t}
    ensures t in Executors(s) ==> FreeRefresh(r)
    ensures t !in Executors(s) ==> FreeRefresh(s)
  {
    ReachedStays(s, r);
    assert Reached(s, s.msgs[t].batch);
  }

  lemma MessagesStay(s: State, l: Label)
    requires Enabled(s, l) && MessageOf(l).Some? && l.t in s.msgs && !l.StartItem?
    ensures var r := Apply(s, l);
      && (forall t :: t in r.msgs ==> t in s.msgs && r.msgs[t].batch == s.msgs[t].batch)
      && (forall t :: t in s.msgs && t != l.t ==> t in r.msgs && r.msgs[t] == s.msgs[t])
      && (l.t in r.msgs ==> !r.msgs[l.t].phase.Executing?)
      && (s.msgs[l.t].phase.Executing? ==> l.t in r.msgs)
  {
  }

  lemma OtherRows(s: State, l: Label)
    requires Enabled(s, l) && MessageOf(l).Some? && l.t in s.msgs
    ensures var r := Apply(s, l);
      && |r.batches| == |s.batches| && r.job.totalItems == s.job.totalItems
      && forall b :: 0 <= b < |s.batches| && b != s.msgs[l.t].batch ==> r.batches[b] == s.batches[b]
  {
  }

  lemma FitsStep(s: State, l: Label)
    requires Resting(s) && Fits(s) && Enabled(s, l)
    ensures Resting(Apply(s, l)) && Fits(Apply(s, l))
  {
    RestingStep(s, l);
    var r := Apply(s, l);
    RestingTotals(s);
    if MessageOf(l).Some? {
      FitsWorkerStep(s, l);
    } else {
      assert FreeRefresh(s) && Executors(r) == Executors(s);
      if l.Cancel? { NothingIdle(s); }
      ReachedStays(s, r);
      FitsAfter(s, r);
    }
  }

  lemma FitsWorkerStep(s: State, l: Label)
    requires Resting(s) && Fits(s) && Enabled(s, l) && MessageOf(l).Some?
    requires ClosedCount(s.batches) + Total(s.batches, ItemRunning) == s.job.totalItems
    requires Beyond(s, |s.batches|) <= Total(s.batches, ItemRunning)
    ensures Fits(Apply(s, l))
  {
    var r := Apply(s, l);
    WorkerKeeps(s, l);
    if l.t !in Executors(s) { assert Executors(r) == Executors(s); }
    if l.EndItem? {
      EndItemAhead(s, l);
    } else if l.Refresh? {
      RefreshCounts(s, l);
    } else {
      OthersKeepProcessed(s, l);
    }
    FitsAfter(s, r);
  }

  lemma RefreshCounts(s: State, l: Label)
    requires Enabled(s, l) && l.Refresh?
    ensures Apply(s, l).job.processed == ClosedCount(s.batches) && l.t !in Executors(s)
  {
  }

  /** A cancellation finds no batch to cancel any more. */
  lemma NothingIdle(s: State)
    requires AllFinished(s.batches)
    ensures ApplyCancel(s).batches == s.batches
  {
  }

  lemma {:induction false} FitsRun(s: State, run: seq<Label>)
    requires Resting(s) && Fits(s) && Valid(s, run)
    ensures Fits(Exec(s, run))
    decreases |run|
  {
    if run != [] {
      FitsStep(s, run[0]);
      FitsRun(Apply(s, run[0]), run[1..]);
    }
  }

  // ---------------------------------------------------------------- it is needed

  ghost predicate Exceeds(s: State) {
    s.job.processed > s.job.totalItems
  }

  ghost predicate CanExceed(s: State) {
    exists run :: Valid(s, run) && Exceeds(Exec(s, run))
  }

  lemma StepCanExceed(s: State, l: Label, r: State)
    requires Enabled(s, l) && r == Apply(s, l) && CanExceed(r)
    ensures CanExceed(s)
  {
    var run :| Valid(r, run) && Exceeds(Exec(r, run));
    StepThen(s, l, r, run);
  }

  lemma RunCanExceed(s: State, run: seq<Label>)
    requires Valid(s, run) && CanExceed(Exec(s, run))
    ensures CanExceed(s)
  {
    var rest :| Valid(Exec(s, run), rest) && Exceeds(Exec(Exec(s, run), rest));
    ExecAppend(s, run, rest);
  }

  /** Every execution can end, and each end is counted. */
  lemma {:induction false} EndsExceed(s: State)
    requires Reachable(s) && AllFinished(s.batches) && s.job.processed + |Executors(s)| > s.job.totalItems
    ensures CanExceed(s)
    decreases |Executors(s)|
  {
    if Executors(s) == {} {
      assert Valid(s, []) && Exceeds(Exec(s, []));
    } else {
      var t :| t in Executors(s);
      var r := EndCounted(s, t);
      EndsExceed(r);
      StepCanExceed(s, EndItem(t, true, ""), r);
    }
  }

  lemma EndCounted(s: State, t: TaskId) returns (r: State)
    requires Reachable(s) && AllFinished(s.batches) && t in Executors(s)
    ensures Enabled(s, EndItem(t, true, "")) && r == Apply(s, EndItem(t, true, "")) && Reachable(r)
    ensures AllFinished(r.batches)
    ensures |Executors(r)| == |Executors(s)| - 1 && SameDispatch(s, r)
    ensures r.job.processed == s.job.processed + 1 && r.job.totalItems == s.job.totalItems
    ensures Beyond(r, |r.batches|) <= Beyond(s, |s.batches|) && |r.batches| == |s.batches|
    ensures FreeRefresh(r)
  {
    ReachableInv(s);
    BusyBatch(s, t);
    r := Apply(s, EndItem(t, true, ""));
    EndsFailedItem(s, t, true, "");
    EndKeeps(s, t, EndItem(t, true, ""));
    EndStaysReachable(s, t);
  }

  lemma EndStaysReachable(s: State, t: TaskId)
    requires Reachable(s) && AllFinished(s.batches) && Enabled(s, EndItem(t, true, ""))
    ensures var r := Apply(s, EndItem(t, true, "")); Reachable(r) && AllFinished(r.batches)
  {
    ReachableStep(s, EndItem(t, true, ""));
    SameStatusFinished(s.batches, s.msgs[t].batch, Apply(s, EndItem(t, true, "")).batches[s.msgs[t].batch]);
  }

  lemma EndKeeps(s: State, t: TaskId, l: Label)
    requires Inv(s) && AllFinished(s.batches) && t in Executors(s) && l == EndItem(t, true, "") && Enabled(s, l)
    ensures var r := Apply(s, l);
      && r.job.processed == s.job.processed + 1 && r.job.totalItems == s.job.totalItems && SameDispatch(s, r)
      && |r.batches| == |s.batches| && Beyond(r, |r.batches|) <= Beyond(s, |s.batches|) && FreeRefresh(r)
  {
    var r := Apply(s, l);
    BusyBatch(s, t);
    EndItemAhead(s, l);
    EndsFailedTotals(s, t, true, "");
    ReachedStays(r, s);
    assert Reached(s, s.msgs[t].batch);
    assert t in r.msgs && !r.msgs[t].phase.Executing?;
    BeyondGrows(r, s, |s.batches|);
  }

  /** No message leads to a running item. */
  ghost predicate AllMarked(s: State) {
    forall t :: t in s.msgs ==> Left(s, t) == 0
  }

  /** After a recount, the executions can take the counter beyond the total. */
  lemma RecountExceeds(s: State, run: seq<Label>)
    requires Reachable(s) && AllFinished(s.batches) && DispatchIdle(s) && AllMarked(s) && Valid(s, run)
    requires var r := Exec(s, run);
      && AllFinished(r.batches) && Executors(r) == Executors(s) && r.job.totalItems == s.job.totalItems
      && r.job.processed == ClosedCount(s.batches)
    requires |Executors(s)| > Beyond(s, |s.batches|)
    ensures CanExceed(s)
  {
    ReachableInv(s);
    RestingTotals(s);
    ReachableRun(s, run);
    EndsExceed(Exec(s, run));
    RunCanExceed(s, run);
  }

  lemma MarkedExceeds(s: State)
    requires Reachable(s) && AllFinished(s.batches) && DispatchIdle(s) && AllMarked(s) && FreeRefresh(s)
    requires |Executors(s)| > Beyond(s, |s.batches|)
    ensures CanExceed(s)
  {
    var run := RecountRun(s);
    RecountExceeds(s, run);
  }

  lemma RecountRun(s: State) returns (run: seq<Label>)
    requires Reachable(s) && AllFinished(s.batches) && AllMarked(s) && FreeRefresh(s)
    ensures Valid(s, run)
    ensures var r := Exec(s, run);
      && AllFinished(r.batches) && Executors(r) == Executors(s) && r.job.totalItems == s.job.totalItems
      && r.job.processed == ClosedCount(s.batches)
  {
    if t :| t in s.msgs && !s.msgs[t].phase.Executing? {
      run := MarkRecount(s, t);
    } else if s.cancels > 0 {
      RunOne(s, RefreshNow);
      run := [RefreshNow];
    } else {
      NothingIdle(s);
      RunOne(ApplyCancel(s), RefreshNow);
      RunCons(s, Cancel, [RefreshNow]);
      run := [Cancel] + [RefreshNow];
    }
  }

  lemma MarkRecount(s: State, t: TaskId) returns (run: seq<Label>)
    requires Reachable(s) && AllFinished(s.batches) && AllMarked(s) && t in s.msgs && !s.msgs[t].phase.Executing?
    ensures Valid(s, run)
    ensures var r := Exec(s, run);
      && AllFinished(r.batches) && Executors(r) == Executors(s) && r.job.totalItems == s.job.totalItems
      && r.job.processed == ClosedCount(s.batches)
  {
    MarkEnds(s, t);
    var m := MarkKeeps(s, t);
    run := ReachMark(s, t);
    RunSnoc(s, run, Refresh(t));
    run := run + [Refresh(t)];
  }

  lemma MarkKeeps(s: State, t: TaskId) returns (m: State)
    requires Reachable(s) && AllFinished(s.batches) && t in s.msgs && !s.msgs[t].phase.Executing?
    ensures s.msgs[t].batch < |s.batches|
    ensures m == ApplyMarkFailed(s, t) && Executors(m) == Executors(s) && m.job == s.job && SameDispatch(s, m)
    ensures InPhase(m, t, Marked) && m.cancels == s.cancels
    ensures |m.batches| == |s.batches| && Beyond(m, |m.batches|) <= Beyond(s, |s.batches|)
    ensures Total(m.batches, ItemRunning) == Total(s.batches, ItemRunning) - Left(s, t)
    ensures Left(s, t) == 0 ==> ClosedCount(m.batches) == ClosedCount(s.batches)
  {
    NoPendingLeft(s, t);
    MarkKeepsTotals(s, t);
    MarkKeepsBeyond(s, t);
    m := ApplyMarkFailed(s, t);
  }

  lemma NoPendingLeft(s: State, t: TaskId)
    requires Reachable(s) && AllFinished(s.batches) && t in s.msgs
    ensures s.msgs[t].batch < |s.batches| && Tally(s.batches[s.msgs[t].batch].items, ItemPending) == 0
  {
    ReachableInv(s);
    BusyBatch(s, t);
  }

  lemma MarkKeepsTotals(s: State, t: TaskId)
    requires t in s.msgs && s.msgs[t].batch < |s.batches| && Tally(s.batches[s.msgs[t].batch].items, ItemPending) == 0
    ensures var m := ApplyMarkFailed(s, t);
      && Total(m.batches, ItemRunning) == Total(s.batches, ItemRunning) - Left(s, t)
      && (Left(s, t) == 0 ==> ClosedCount(m.batches) == ClosedCount(s.batches))
  {
    var b := s.msgs[t].batch;
    FailItemsTally(s.batches[b].items);
    TotalUpdates(s.batches, b, FailedBatch(s.batches[b]));
  }

  lemma MarkKeepsBeyond(s: State, t: TaskId)
    requires t in s.msgs && s.msgs[t].batch < |s.batches|
    ensures var m := ApplyMarkFailed(s, t);
      |m.batches| == |s.batches| && Beyond(m, |m.batches|) <= Beyond(s, |s.batches|)
  {
    var m := ApplyMarkFailed(s, t);
    ReachedStays(m, s);
    assert t in m.msgs && m.msgs[t].batch == s.msgs[t].batch;
    assert Reached(m, s.msgs[t].batch);
    BeyondGrows(m, s, |s.batches|);
  }

  /** Everything a message leads to can be failed without disturbing an execution. */
  lemma {:induction false} FreeExceeds(s: State)
    requires Reachable(s) && AllFinished(s.batches) && DispatchIdle(s) && FreeRefresh(s)
    requires |Executors(s)| > Beyond(s, |s.batches|)
    ensures CanExceed(s)
    decreases Total(s.batches, ItemRunning)
  {
    if AllMarked(s) {
      MarkedExceeds(s);
    } else {
      var t :| t in s.msgs && Left(s, t) > 0;
      NotExecuting(s, t);
      var m := MarkKeeps(s, t);
      MarkEnds(s, t);
      var run := ReachMark(s, t);
      ReachableRun(s, run);
      assert FreeRefresh(m);
      FreeExceeds(m);
      RunCanExceed(s, run);
    }
  }

  lemma NotExecuting(s: State, t: TaskId)
    requires Reachable(s) && AllFinished(s.batches) && t in s.msgs && Left(s, t) > 0
    ensures !s.msgs[t].phase.Executing?
  {
    ReachableInv(s);
    BusyBatch(s, t);
  }

  lemma BusyExceeds(s: State)
    requires Reachable(s) && AllFinished(s.batches) && DispatchIdle(s)
    requires |Executors(s)| > Beyond(s, |s.batches|) + Bit(!FreeRefresh(s))
    ensures CanExceed(s)
  {
    if FreeRefresh(s) {
      FreeExceeds(s);
    } else {
      assert Executors(s) != {};
      var t :| t in Executors(s);
      var r := EndCounted(s, t);
      FreeExceeds(r);
      StepCanExceed(s, EndItem(t, true, ""), r);
    }
  }

  /**
   Once all batches have ended and no dispatch call is under way, `processed_items` stays within `total_items` on
   every later run exactly when `Fits` holds of the rows and messages now.
   */
  lemma ProcessedStaysExactly(s: State)
    requires Reachable(s) && AllFinished(s.batches) && DispatchIdle(s)
    ensures (forall run | Valid(s, run) :: Exec(s, run).job.processed <= Exec(s, run).job.totalItems) <==> Fits(s)
  {
    ReachableInv(s);
    if Fits(s) {
      forall run | Valid(s, run) ensures Exec(s, run).job.processed <= Exec(s, run).job.totalItems { FitsRun(s, run); }
    } else {
      if s.job.processed + |Executors(s)| > s.job.totalItems { EndsExceed(s); } else { BusyExceeds(s); }
      var run :| Valid(s, run) && Exceeds(Exec(s, run));
      assert !(Exec(s, run).job.processed <= Exec(s, run).job.totalItems);
    }
  }

  /** In a settled job with exact counters and without interrupted items that is: nobody executes an item any more. */
  lemma FitsWhenSettled(s: State)
    requires Reachable(s) && AllFinished(s.batches) && DispatchIdle(s) && !s.dirty
    requires Total(s.batches, ItemRunning) == 0
    ensures Fits(s) <==> Executors(s) == {}
  {
    ReachableInv(s);
    RestingTotals(s);
  }
}
