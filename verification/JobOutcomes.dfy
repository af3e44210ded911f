/** When the status of a settled job is final. */
module JobOutcomes {
  import opened Prelude
  import opened JobModel
  import opened JobProtocol
  import opened JobInvariant
  import opened JobTheorems

  /** The workers that are executing an item. */
  ghost function Executors(s: State): set<TaskId> {
    set t | t in s.msgs && s.msgs[t].phase.Executing?
  }

  /** How many items lost workers left running in the batch of message `t`. */
  ghost function Left(s: State, t: TaskId): nat
    requires t in s.msgs
  {
    if s.msgs[t].batch < |s.batches| then Tally(s.batches[s.msgs[t].batch].items, ItemRunning) else 0
  }

  /** Some message can bring about a refresh without failing a running item first. */
  ghost predicate RefreshInReach(s: State) {
    exists t :: t in s.msgs && (s.msgs[t].phase == Closing || Left(s, t) == 0)
  }

  ghost predicate SomeLeft(s: State) {
    exists t :: t in s.msgs && Left(s, t) > 0
  }

  /**
   For a settled job with messages: no call of `mark_failed`, no end of an execution and no refresh that is still
   possible leads to another outcome. If a refresh is in reach, the rows have the outcome of the job, a running
   item can only be failed if some item has failed already, and the items being executed, all of them failed, can
   all succeed without taking away the last failure or bringing the first success. Otherwise every refresh comes
   after some running item was failed.
   */
  ghost predicate Steady(s: State) {
    var ok, bad := Total(s.batches, ItemSucceeded), Total(s.batches, ItemFailed);
    if RefreshInReach(s) then
      && s.job.status == OutcomeStatus(false, ok, bad)
      && (SomeLeft(s) ==> bad > 0)
      && (Executors(s) != {} ==> ok > 0 && bad > |Executors(s)|)
    else
      s.job.status == OutcomeStatus(false, ok, bad + 1)
  }

  /** What makes a settled status final. */
  ghost predicate Final(s: State) {
    DispatchIdle(s) && (s.job.cancelRequested || s.msgs == map[] || Steady(s))
  }

  // ---------------------------------------------------------------- what can still happen

  /** A settled job without a dispatch call: which blocks are left. */
  lemma SettledLabels(s: State, l: Label)
    requires Inv(s) && TerminalJob(s.job.status) && DispatchIdle(s) && Enabled(s, l)
    ensures l.RefreshNow? || MessageOf(l).Some?
    ensures !l.EarlyCancel? && !l.Claim? && !l.StartItem?
    ensures l.DropRevoked? || l.CancelRest? || l.RefreshNow? ==> s.job.cancelRequested
  {
    assert l.Resume? ==> HasPending(s);
    if l.EarlyCancel? || l.Claim? || l.StartItem? { SettledMessage(s, l); }
  }

  lemma SettledMessage(s: State, l: Label)
    requires Inv(s) && AllFinished(s.batches) && Enabled(s, l)
    ensures !l.EarlyCancel? && !l.Claim? && !l.StartItem?
  {
    if l.StartItem? {
      assert MessageOk(s, l.t) && RowsOk(BatchOf(s, l.t));
      TallyZero(BatchOf(s, l.t).items, ItemPending);
    }
  }

  /** When all batches have ended, the batch of a claimed or executed message is FAILED and its item has failed. */
  lemma BusyBatch(s: State, t: TaskId)
    requires Inv(s) && AllFinished(s.batches) && t in s.msgs
    ensures s.msgs[t].batch < |s.batches|
    ensures Tally(s.batches[s.msgs[t].batch].items, ItemPending) == 0
    ensures Working(s, t) || s.msgs[t].phase == Marked ==> Left(s, t) == 0
    ensures s.msgs[t].phase.Executing? ==>
      && Current(s, t) && s.msgs[t].phase.item < |BatchOf(s, t).items|
      && BatchOf(s, t).items[s.msgs[t].phase.item].status == ItemFailed
  {
    assert MessageOk(s, t);
    var b := s.msgs[t].batch;
    assert RowsOk(s.batches[b]) && LinkOk(s, b);
  }

  /** The same dispatch calls are under way. */
  predicate SameDispatch(s: State, r: State) {
    r.scanning == s.scanning && r.stored == s.stored && r.owing == s.owing
  }

  lemma RefreshSettles(s: State, l: Label)
    requires AllFinished(s.batches) && s.job.totalBatches == |s.batches| && Enabled(s, l)
      && (l.Refresh? || l.RefreshNow?)
    ensures Apply(s, l).job.status
         == OutcomeStatus(s.job.cancelRequested, Total(s.batches, ItemSucceeded), Total(s.batches, ItemFailed))
    ensures SameDispatch(s, Apply(s, l)) && Apply(s, l).job.cancelRequested == s.job.cancelRequested
  {
    FinishedCountAll(s.batches);
  }

  lemma OthersKeepStatus(s: State, l: Label)
    requires Enabled(s, l) && !l.Refresh? && !l.Claim? && MessageOf(l).Some?
    ensures Apply(s, l).job.status == s.job.status && SameDispatch(s, Apply(s, l))
    ensures Apply(s, l).job.cancelRequested == s.job.cancelRequested
  {
  }

  lemma CancelledStaysFinal(s: State, l: Label)
    requires Inv(s) && TerminalJob(s.job.status) && DispatchIdle(s) && s.job.cancelRequested && Enabled(s, l)
    ensures Apply(s, l).job.status == s.job.status && DispatchIdle(Apply(s, l)) && Apply(s, l).job.cancelRequested
  {
    SettledLabels(s, l);
    if l.Refresh? || l.RefreshNow? {
      RefreshSettles(s, l);
    } else if MessageOf(l).Some? {
      OthersKeepStatus(s, l);
    }
  }

  // ---------------------------------------------------------------- steady stays steady

  lemma SomeMessage(s: State) returns (t: TaskId)
    requires s.msgs != map[]
    ensures t in s.msgs
  {
    assert s.msgs.Keys != {};
    t :| t in s.msgs;
  }

  /** `r` has the rows of `s`, as far as the outcome goes, and fewer messages and executions. */
  ghost predicate Shrinks(s: State, r: State) {
    && r.job.status == s.job.status
    && Total(r.batches, ItemSucceeded) == Total(s.batches, ItemSucceeded)
    && Total(r.batches, ItemFailed) == Total(s.batches, ItemFailed)
    && (forall t :: t in r.msgs ==> t in s.msgs && Left(r, t) == Left(s, t))
    && Executors(r) <= Executors(s)
    && (RefreshInReach(r) ==> RefreshInReach(s))
  }

  lemma SteadyShrinks(s: State, r: State)
    requires Steady(s) && Shrinks(s, r) && r.msgs != map[]
    ensures Steady(r)
  {
    SubsetSize(Executors(r), Executors(s));
    if !RefreshInReach(r) {
      var t := SomeMessage(r);
      assert Left(r, t) > 0 && Left(s, t) > 0;
    }
  }

  /** `r` has the rows of `s` and some of its messages, none of which has come nearer to a refresh or an execution. */
  ghost predicate Calmer(s: State, r: State) {
    && r.batches == s.batches && r.job == s.job
    && (forall t :: t in r.msgs ==> t in s.msgs && r.msgs[t].batch == s.msgs[t].batch)
    && (forall t :: t in r.msgs && r.msgs[t].phase == Closing ==> s.msgs[t].phase == Closing)
    && (forall t :: t in r.msgs && r.msgs[t].phase.Executing? ==> s.msgs[t].phase.Executing?)
  }

  lemma CalmerShrinks(s: State, r: State)
    requires Calmer(s, r)
    ensures Shrinks(s, r)
  {
    forall t | t in r.msgs ensures t in s.msgs && Left(r, t) == Left(s, t) {
      assert r.msgs[t].batch == s.msgs[t].batch;
    }
    if t :| t in r.msgs && (r.msgs[t].phase == Closing || Left(r, t) == 0) {
      assert s.msgs[t].phase == Closing || Left(s, t) == 0;
    }
  }

  /** A step that only moves a message, or takes it away. */
  lemma MovesShrink(s: State, l: Label)
    requires Enabled(s, l) && (l.Deliver? || l.Ack? || (l.Crash? && !Interrupts(s, l.t)))
    ensures Shrinks(s, Apply(s, l))
  {
    CalmerShrinks(s, Apply(s, l));
  }

  lemma EndBatchShrinks(s: State, t: TaskId)
    requires Enabled(s, EndBatch(t)) && Left(s, t) == 0
    ensures Shrinks(s, Apply(s, EndBatch(t)))
  {
    var r := Apply(s, EndBatch(t));
    SameItemsTotals(s.batches, s.msgs[t].batch, r.batches[s.msgs[t].batch]);
    EndBatchLeft(s, t);
    assert RefreshInReach(s);
  }

  lemma EndBatchLeft(s: State, t: TaskId)
    requires Enabled(s, EndBatch(t))
    ensures var r := Apply(s, EndBatch(t));
      (forall u :: u in r.msgs ==> u in s.msgs && Left(r, u) == Left(s, u)) && Executors(r) <= Executors(s)
  {
  }

  lemma RefreshShrinks(s: State, t: TaskId)
    requires Enabled(s, Refresh(t)) && (s.msgs[t].phase == Marked ==> Left(s, t) == 0)
    requires Apply(s, Refresh(t)).job.status == s.job.status
    ensures Shrinks(s, Apply(s, Refresh(t))) && RefreshInReach(s)
  {
  }

  lemma SteadyRefresh(s: State, t: TaskId)
    requires Inv(s) && AllFinished(s.batches) && Steady(s) && Enabled(s, Refresh(t)) && !s.job.cancelRequested
    ensures var r := Apply(s, Refresh(t)); r.job.status == s.job.status && SameDispatch(s, r) && Steady(r)
  {
    BusyBatch(s, t);
    RefreshSettles(s, Refresh(t));
    assert s.msgs[t].phase == Closing || Left(s, t) == 0;
    assert RefreshInReach(s);
    RefreshShrinks(s, t);
    assert t in Apply(s, Refresh(t)).msgs;
    SteadyShrinks(s, Apply(s, Refresh(t)));
  }

  /** The end of an execution turns a failed item into a success, or leaves it. */
  ghost predicate EndsFailed(s: State, r: State, t: TaskId, success: bool) {
    && Total(r.batches, ItemSucceeded) == Total(s.batches, ItemSucceeded) + Bit(success)
    && Total(r.batches, ItemFailed) == Total(s.batches, ItemFailed) - Bit(success)
    && (forall u :: u in s.msgs <==> u in r.msgs)
    && (forall u :: u in s.msgs ==> Left(r, u) == Left(s, u))
    && Executors(r) == Executors(s) - {t}
    && t in Executors(s)
    && Left(s, t) == 0
  }

  lemma EndsFailedTotals(s: State, t: TaskId, success: bool, result: string)
    requires Enabled(s, EndItem(t, success, result)) && BatchOf(s, t).items[s.msgs[t].phase.item].status == ItemFailed
    ensures var r := ApplyEndItem(s, t, success, result); var b := s.msgs[t].batch;
      && Total(r.batches, ItemSucceeded) == Total(s.batches, ItemSucceeded) + Bit(success)
      && Total(r.batches, ItemFailed) == Total(s.batches, ItemFailed) - Bit(success)
      && Tally(r.batches[b].items, ItemRunning) == Tally(s.batches[b].items, ItemRunning)
  {
    var x, i := BatchOf(s, t), s.msgs[t].phase.item;
    EndItemTotals(s, t, success, result);
    TallyUpdate(x.items, i, EndedItem(x.items[i], success, result), ItemRunning);
  }

  lemma EndsFailedItem(s: State, t: TaskId, success: bool, result: string)
    requires Inv(s) && AllFinished(s.batches) && Enabled(s, EndItem(t, success, result))
    ensures EndsFailed(s, ApplyEndItem(s, t, success, result), t, success)
  {
    BusyBatch(s, t);
    EndsFailedTotals(s, t, success, result);
    EndsFailedMessages(s, t, success, result);
  }

  lemma EndsFailedMessages(s: State, t: TaskId, success: bool, result: string)
    requires Enabled(s, EndItem(t, success, result))
    requires var b := s.msgs[t].batch;
      Tally(ApplyEndItem(s, t, success, result).batches[b].items, ItemRunning) == Tally(s.batches[b].items, ItemRunning)
    ensures var r := ApplyEndItem(s, t, success, result);
      && (forall u :: u in s.msgs <==> u in r.msgs)
      && (forall u :: u in s.msgs ==> Left(r, u) == Left(s, u))
      && Executors(r) == Executors(s) - {t} && t in Executors(s)
  {
  }

  lemma SteadyEnds(s: State, r: State, t: TaskId, success: bool)
    requires Steady(s) && EndsFailed(s, r, t, success) && r.job.status == s.job.status
    ensures Steady(r)
  {
    assert t in s.msgs && RefreshInReach(s);
    assert t in r.msgs && Left(r, t) == 0;
    assert RefreshInReach(r);
    assert |Executors(r)| == |Executors(s)| - 1;
    if SomeLeft(r) {
      var u :| u in r.msgs && Left(r, u) > 0;
      assert u in s.msgs && Left(s, u) > 0;
    }
  }

  /** `mark_failed` in a settled job fails the running items of its batch. */
  ghost predicate MarksLeft(s: State, r: State, t: TaskId)
    requires t in s.msgs
  {
    && Total(r.batches, ItemSucceeded) == Total(s.batches, ItemSucceeded)
    && Total(r.batches, ItemFailed) == Total(s.batches, ItemFailed) + Left(s, t)
    && (forall u :: u in s.msgs <==> u in r.msgs)
    && (forall u :: u in s.msgs ==> Left(r, u) <= Left(s, u))
    && Executors(r) <= Executors(s)
    && Left(r, t) == 0
  }

  lemma MarkLeaves(s: State, t: TaskId)
    requires t in s.msgs && s.msgs[t].batch < |s.batches| && Tally(s.batches[s.msgs[t].batch].items, ItemPending) == 0
    ensures MarksLeft(s, ApplyMarkFailed(s, t), t)
    ensures AllFinished(s.batches) ==> AllFinished(ApplyMarkFailed(s, t).batches)
  {
    var b := s.msgs[t].batch;
    FailItemsTally(s.batches[b].items);
    TotalUpdates(s.batches, b, FailedBatch(s.batches[b]));
  }

  lemma SteadyMarks(s: State, r: State, t: TaskId)
    requires Steady(s) && t in s.msgs && MarksLeft(s, r, t) && r.job.status == s.job.status
    requires !RefreshInReach(s) ==> Executors(s) == {}
    ensures Steady(r)
  {
    SubsetSize(Executors(r), Executors(s));
    assert t in r.msgs && RefreshInReach(r);
    if SomeLeft(r) {
      var u :| u in r.msgs && Left(r, u) > 0;
      assert u in s.msgs && Left(s, u) > 0;
      assert SomeLeft(s);
    }
    if RefreshInReach(s) && Left(s, t) > 0 { assert SomeLeft(s); }
    if !RefreshInReach(s) { assert Left(s, t) > 0; }
  }

  /** While no refresh is in reach nobody executes an item. */
  lemma NobodyExecutes(s: State)
    requires Inv(s) && AllFinished(s.batches) && !RefreshInReach(s)
    ensures Executors(s) == {}
  {
    forall t | t in s.msgs ensures !s.msgs[t].phase.Executing? { BusyBatch(s, t); }
  }

  lemma SteadyStep(s: State, l: Label)
    requires Inv(s) && TerminalJob(s.job.status) && DispatchIdle(s) && !s.job.cancelRequested
    requires Steady(s) && s.msgs != map[] && Enabled(s, l)
    ensures Apply(s, l).job.status == s.job.status && DispatchIdle(Apply(s, l))
    ensures Apply(s, l).msgs == map[] || Steady(Apply(s, l))
  {
    SettledLabels(s, l);
    if l.EndItem? {
      EndsFailedItem(s, l.t, l.success, l.result);
      SteadyEnds(s, Apply(s, l), l.t, l.success);
    } else if l.EndBatch? {
      BusyBatch(s, l.t);
      EndBatchShrinks(s, l.t);
      SteadyShrinks(s, Apply(s, l));
    } else if l.MarkFailed? {
      SteadyMarkStep(s, l.t);
    } else if l.Refresh? {
      SteadyRefresh(s, l.t);
    } else {
      if l.Crash? { BusyBatch(s, l.t); }
      MovesShrink(s, l);
      if Apply(s, l).msgs != map[] { SteadyShrinks(s, Apply(s, l)); }
    }
  }

  lemma SteadyMarkStep(s: State, t: TaskId)
    requires Inv(s) && AllFinished(s.batches) && Steady(s) && Enabled(s, MarkFailed(t))
    ensures var r := ApplyMarkFailed(s, t); r.job.status == s.job.status && SameDispatch(s, r) && Steady(r)
  {
    BusyBatch(s, t);
    MarkLeaves(s, t);
    if !RefreshInReach(s) { NobodyExecutes(s); }
    SteadyMarks(s, ApplyMarkFailed(s, t), t);
  }

  /** Without messages, nothing is left to happen to such a job. */
  lemma NothingLeft(s: State, l: Label)
    requires Inv(s) && TerminalJob(s.job.status) && DispatchIdle(s) && !s.job.cancelRequested && s.msgs == map[]
    ensures !Enabled(s, l)
  {
    if Enabled(s, l) { SettledLabels(s, l); }
  }

  lemma FinalStep(s: State, l: Label)
    requires Inv(s) && TerminalJob(s.job.status) && Final(s) && Enabled(s, l)
    ensures Apply(s, l).job.status == s.job.status && Final(Apply(s, l))
  {
    if s.job.cancelRequested {
      CancelledStaysFinal(s, l);
    } else if s.msgs == map[] {
      NothingLeft(s, l);
    } else {
      SteadyStep(s, l);
    }
  }

  lemma {:induction false} FinalRun(s: State, run: seq<Label>)
    requires Inv(s) && TerminalJob(s.job.status) && Final(s) && Valid(s, run)
    ensures Exec(s, run).job.status == s.job.status
    decreases |run|
  {
    if run != [] {
      FinalStep(s, run[0]);
      StepInv(s, run[0]);
      FinalRun(Apply(s, run[0]), run[1..]);
    }
  }

  // ---------------------------------------------------------------- undoing an outcome

  /** A state that some run of a new job leads to. */
  ghost predicate Reachable(s: State) {
    exists s0, run :: Created(s0) && Valid(s0, run) && Exec(s0, run) == s
  }

  lemma ReachableInv(s: State)
    requires Reachable(s)
    ensures Inv(s)
  {
    var s0, run :| Created(s0) && Valid(s0, run) && Exec(s0, run) == s;
    CreatedInv(s0);
    RunInv(s0, run);
  }

  lemma ReachableRun(s: State, run: seq<Label>)
    requires Reachable(s) && Valid(s, run)
    ensures Reachable(Exec(s, run))
  {
    var s0, before :| Created(s0) && Valid(s0, before) && Exec(s0, before) == s;
    ExecAppend(s0, before, run);
  }

  lemma ReachableStep(s: State, l: Label)
    requires Reachable(s) && Enabled(s, l)
    ensures Reachable(Apply(s, l))
  {
    RunOne(s, l);
    ReachableRun(s, [l]);
  }

  /** `r` has the messages and the running batches of `s`. */
  ghost predicate SameWork(s: State, r: State) {
    && r.msgs == s.msgs && r.early == s.early && |r.batches| == |s.batches|
    && forall b :: 0 <= b < |s.batches| && s.batches[b].status == BatchRunning ==> r.batches[b] == s.batches[b]
  }

  /** A dispatch call under way can fail, and its caller writes DISPATCH_FAILED whatever the status of the job is. */
  lemma DispatchCanOverwrite(s: State) returns (run: seq<Label>)
    requires Inv(s) && !DispatchIdle(s)
    ensures Valid(s, run) && HandsOff(run) && Exec(s, run).job.status == JobDispatchFailed
    ensures SameWork(s, Exec(s, run))
  {
    if s.owing > 0 {
      RunOne(s, DispatchFailed);
      run := [DispatchFailed];
    } else if s.scanning > 0 {
      run := FailTwice(s, DispatchError);
    } else {
      var t := PickStored(s);
      run := FailTwice(s, PublishFail(t, false));
    }
  }

  lemma FailTwice(s: State, l: Label) returns (run: seq<Label>)
    requires Enabled(s, l) && (l.DispatchError? || l.PublishFail?)
    ensures run == [l] + [DispatchFailed] && Valid(s, run) && HandsOff(run)
    ensures Exec(s, run) == Apply(s, l).(job := s.job.(status := JobDispatchFailed), owing := s.owing)
  {
    RunOne(Apply(s, l), DispatchFailed);
    RunCons(s, l, [DispatchFailed]);
    run := [l] + [DispatchFailed];
  }

  lemma PickStored(s: State) returns (t: TaskId)
    requires Inv(s) && s.stored != map[]
    ensures t in s.stored && s.stored[t] < |s.batches| && s.batches[s.stored[t]].status != BatchRunning
  {
    assert s.stored.Keys != {};
    t :| t in s.stored;
    assert StoredOk(s, t);
  }

  /** The run neither resumes nor cancels. */
  ghost predicate HandsOff(run: seq<Label>) {
    forall k :: 0 <= k < |run| ==> !run[k].Resume? && !run[k].Cancel?
  }

  lemma HandsOffAppend(a: seq<Label>, b: seq<Label>)
    requires HandsOff(a) && HandsOff(b)
    ensures HandsOff(a + b)
  {
  }

  /** Any message can make a worker call `mark_failed`: it is delivered, again if need be, and its handling raises. */
  lemma ReachMark(s: State, t: TaskId) returns (run: seq<Label>)
    requires t in s.msgs && s.msgs[t].batch < |s.batches|
    ensures Valid(s, run) && Exec(s, run) == ApplyMarkFailed(s, t) && HandsOff(run)
  {
    var seize := Seize(s, t);
    var held := Exec(s, seize);
    RunSnoc(s, seize, MarkFailed(t));
    assert held.msgs[t := Message(held.msgs[t].batch, Marked)] == s.msgs[t := Message(s.msgs[t].batch, Marked)];
    run := seize + [MarkFailed(t)];
  }

  /** The message comes into the hands of a worker; nothing else changes. */
  lemma Seize(s: State, t: TaskId) returns (run: seq<Label>)
    requires t in s.msgs
    ensures Valid(s, run) && HandsOff(run)
    ensures exists phase :: phase !in {Waiting, Marked, Done} && Exec(s, run) == SetPhase(s, t, phase)
  {
    if s.msgs[t].phase == Waiting {
      RunOne(s, Deliver(t));
      run := [Deliver(t)];
      assert Exec(s, run) == SetPhase(s, t, Held);
    } else if s.msgs[t].phase in {Marked, Done} {
      var waiting := SetPhase(s, t, Waiting);
      RunOne(waiting, Deliver(t));
      RunCons(s, Crash(t), [Deliver(t)]);
      run := [Crash(t)] + [Deliver(t)];
      assert SetPhase(waiting, t, Held) == SetPhase(s, t, Held);
    } else {
      run := [];
      assert SetPhase(s, t, s.msgs[t].phase) == s;
    }
  }

  /** And after that call comes its refresh, which settles the job if the other batches have ended. */
  lemma ReachRefresh(s: State, t: TaskId) returns (run: seq<Label>)
    requires Reachable(s) && AllFinished(s.batches) && t in s.msgs
    ensures Valid(s, run) && HandsOff(run)
    ensures Exec(s, run).job.status
         == OutcomeStatus(
              s.job.cancelRequested, Total(s.batches, ItemSucceeded), Total(s.batches, ItemFailed) + Left(s, t))
  {
    var l := MarkSettles(s, t);
    var mark := ReachMark(s, t);
    RunSnoc(s, mark, l);
    run := mark + [l];
  }

  lemma MarkSettles(s: State, t: TaskId) returns (l: Label)
    requires Reachable(s) && AllFinished(s.batches) && t in s.msgs
    ensures s.msgs[t].batch < |s.batches|
    ensures Enabled(ApplyMarkFailed(s, t), l) && !l.Resume? && !l.Cancel?
    ensures Apply(ApplyMarkFailed(s, t), l).job.status
         == OutcomeStatus(
              s.job.cancelRequested, Total(s.batches, ItemSucceeded), Total(s.batches, ItemFailed) + Left(s, t))
  {
    MarkEnds(s, t);
    l := RefreshMarked(ApplyMarkFailed(s, t), t);
  }

  lemma RefreshMarked(r: State, t: TaskId) returns (l: Label)
    requires AllFinished(r.batches) && r.job.totalBatches == |r.batches| && InPhase(r, t, Marked)
    ensures Enabled(r, l) && !l.Resume? && !l.Cancel?
    ensures Apply(r, l).job.status
         == OutcomeStatus(r.job.cancelRequested, Total(r.batches, ItemSucceeded), Total(r.batches, ItemFailed))
  {
    l := Refresh(t);
    RefreshSettles(r, l);
  }

  lemma MarkEnds(s: State, t: TaskId)
    requires Reachable(s) && AllFinished(s.batches) && t in s.msgs
    ensures s.msgs[t].batch < |s.batches|
    ensures var r := ApplyMarkFailed(s, t);
      && MarksLeft(s, r, t) && AllFinished(r.batches) && InPhase(r, t, Marked)
      && r.job == s.job && r.job.totalBatches == |r.batches|
  {
    ReachableInv(s);
    BusyBatch(s, t);
    MarkLeaves(s, t);
  }

  /** A refresh in reach gives the job the outcome of its rows. */
  lemma PlainRefresh(s: State) returns (run: seq<Label>)
    requires Reachable(s) && AllFinished(s.batches) && RefreshInReach(s)
    ensures Valid(s, run) && HandsOff(run)
    ensures Exec(s, run).job.status
         == OutcomeStatus(s.job.cancelRequested, Total(s.batches, ItemSucceeded), Total(s.batches, ItemFailed))
  {
    var t :| t in s.msgs && (s.msgs[t].phase == Closing || Left(s, t) == 0);
    if s.msgs[t].phase == Closing {
      BatchCount(s);
      RefreshSettles(s, Refresh(t));
      RunOne(s, Refresh(t));
      run := [Refresh(t)];
    } else {
      run := ReachRefresh(s, t);
    }
  }

  lemma BatchCount(s: State)
    requires Reachable(s)
    ensures s.job.totalBatches == |s.batches|
  {
    ReachableInv(s);
  }

  /** One of the executed items succeeds. */
  lemma EndOne(s: State, t: TaskId) returns (l: Label, r: State)
    requires Reachable(s) && AllFinished(s.batches) && t in Executors(s)
    ensures Enabled(s, l) && r == Apply(s, l)
    ensures Reachable(r) && AllFinished(r.batches) && r.job.cancelRequested == s.job.cancelRequested
    ensures EndsFailed(s, r, t, true) && t in r.msgs && Left(r, t) == 0
  {
    ReachableInv(s);
    BusyBatch(s, t);
    l := EndItem(t, true, "");
    r := ApplyEndItem(s, t, true, "");
    EndsFailedItem(s, t, true, "");
    SameStatusFinished(s.batches, s.msgs[t].batch, r.batches[s.msgs[t].batch]);
    ReachableStep(s, l);
  }

  /** All items that are being executed can succeed; if they are the only failures, the job becomes COMPLETED. */
  lemma {:induction false} EndAll(s: State) returns (run: seq<Label>)
    requires Reachable(s) && AllFinished(s.batches) && !s.job.cancelRequested
    requires Executors(s) != {} && Total(s.batches, ItemFailed) <= |Executors(s)|
    ensures Valid(s, run) && Exec(s, run).job.status == JobCompleted
    ensures Total(s.batches, ItemFailed) > 0
    decreases |Executors(s)|
  {
    var t :| t in Executors(s);
    var l, r := EndCounts(s, t);
    var rest;
    if Executors(r) == {} {
      rest := CompletionInReach(r, t);
    } else {
      rest := EndAll(r);
    }
    StepThen(s, l, r, rest);
    run := [l] + rest;
  }

  lemma EndCounts(s: State, t: TaskId) returns (l: Label, r: State)
    requires Reachable(s) && AllFinished(s.batches) && t in Executors(s)
    ensures Enabled(s, l) && r == Apply(s, l)
    ensures Reachable(r) && AllFinished(r.batches) && t in r.msgs && Left(r, t) == 0
    ensures r.job.cancelRequested == s.job.cancelRequested && |Executors(r)| == |Executors(s)| - 1
    ensures Total(r.batches, ItemSucceeded) > 0
    ensures Total(s.batches, ItemFailed) == Total(r.batches, ItemFailed) + 1
  {
    l, r := EndOne(s, t);
    CountsDown(s, r, t);
  }

  lemma CompletionInReach(s: State, t: TaskId) returns (run: seq<Label>)
    requires Reachable(s) && AllFinished(s.batches) && t in s.msgs && Left(s, t) == 0
    requires !s.job.cancelRequested && Total(s.batches, ItemFailed) == 0
    ensures Valid(s, run) && Exec(s, run).job.status == JobCompleted
  {
    run := ReachRefresh(s, t);
  }

  lemma CountsDown(s: State, r: State, t: TaskId)
    requires EndsFailed(s, r, t, true)
    ensures |Executors(r)| == |Executors(s)| - 1
    ensures Total(s.batches, ItemFailed) == Total(r.batches, ItemFailed) + 1
    ensures Total(r.batches, ItemSucceeded) == Total(s.batches, ItemSucceeded) + 1
  {
  }

  lemma StepThen(s: State, l: Label, r: State, rest: seq<Label>)
    requires Enabled(s, l) && r == Apply(s, l) && Valid(r, rest)
    ensures Valid(s, [l] + rest) && Exec(s, [l] + rest) == Exec(r, rest)
  {
    RunCons(s, l, rest);
  }

  lemma FirstSuccess(s: State) returns (run: seq<Label>)
    requires Reachable(s) && AllFinished(s.batches) && !s.job.cancelRequested && Executors(s) != {}
    ensures Valid(s, run) && Exec(s, run).job.status in {JobCompleted, JobCompletedWithErrors}
    ensures Total(s.batches, ItemFailed) > 0
  {
    var t :| t in Executors(s);
    var l, r := EndCounts(s, t);
    var rest := SuccessInReach(r, t);
    StepThen(s, l, r, rest);
    run := [l] + rest;
  }

  lemma SuccessInReach(s: State, t: TaskId) returns (run: seq<Label>)
    requires Reachable(s) && AllFinished(s.batches) && t in s.msgs
    requires !s.job.cancelRequested && Total(s.batches, ItemSucceeded) > 0
    ensures Valid(s, run) && Exec(s, run).job.status in {JobCompleted, JobCompletedWithErrors}
  {
    run := ReachRefresh(s, t);
  }

  /** A settled job that is not steady can get another status. */
  lemma Unsteady(s: State) returns (run: seq<Label>)
    requires Reachable(s) && AllFinished(s.batches) && !s.job.cancelRequested && s.msgs != map[] && !Steady(s)
    ensures Valid(s, run) && Exec(s, run).job.status != s.job.status
  {
    var ok, bad := Total(s.batches, ItemSucceeded), Total(s.batches, ItemFailed);
    if !RefreshInReach(s) {
      var t := SomeMessage(s);
      run := FailLeft(s, t);
    } else if s.job.status != OutcomeStatus(false, ok, bad) {
      run := PlainRefresh(s);
    } else if bad == 0 && SomeLeft(s) {
      var t :| t in s.msgs && Left(s, t) > 0;
      run := FailLeft(s, t);
    } else {
      run := EndsUnsteady(s);
    }
  }

  lemma FailLeft(s: State, t: TaskId) returns (run: seq<Label>)
    requires Reachable(s) && AllFinished(s.batches) && !s.job.cancelRequested && t in s.msgs && Left(s, t) > 0
    requires var ok, bad := Total(s.batches, ItemSucceeded), Total(s.batches, ItemFailed);
      s.job.status != OutcomeStatus(false, ok, bad + 1)
    ensures Valid(s, run) && Exec(s, run).job.status != s.job.status
  {
    run := ReachRefresh(s, t);
  }

  lemma EndsUnsteady(s: State) returns (run: seq<Label>)
    requires Reachable(s) && AllFinished(s.batches) && !s.job.cancelRequested && Executors(s) != {}
    requires s.job.status == OutcomeStatus(false, Total(s.batches, ItemSucceeded), Total(s.batches, ItemFailed))
    requires Total(s.batches, ItemSucceeded) == 0 || Total(s.batches, ItemFailed) <= |Executors(s)|
    ensures Valid(s, run) && Exec(s, run).job.status != s.job.status
  {
    if Total(s.batches, ItemSucceeded) == 0 {
      run := FirstSuccess(s);
    } else {
      run := EndAll(s);
    }
  }

  /**
   A settled status is frozen in every later state exactly when no dispatch call is under way or owes its
   DISPATCH_FAILED and, unless the job is cancelled, no message is left that can still change its outcome.
   */
  lemma SettledIsFrozenExactly(s: State)
    requires Reachable(s) && TerminalJob(s.job.status)
    ensures (forall run | Valid(s, run) :: Exec(s, run).job.status == s.job.status) <==> Final(s)
  {
    ReachableInv(s);
    if Final(s) {
      forall run | Valid(s, run) ensures Exec(s, run).job.status == s.job.status { FinalRun(s, run); }
    } else {
      var run := Thaw(s);
      assert Exec(s, run).job.status != s.job.status;
    }
  }

  lemma Thaw(s: State) returns (run: seq<Label>)
    requires Reachable(s) && TerminalJob(s.job.status) && !Final(s)
    ensures Valid(s, run) && Exec(s, run).job.status != s.job.status
  {
    ReachableInv(s);
    if DispatchIdle(s) {
      run := Unsteady(s);
    } else {
      run := DispatchCanOverwrite(s);
    }
  }

  /** In particular: exact counters, no interrupted item, nobody executing and no dispatch call make it final. */
  lemma CalmIsFinal(s: State)
    requires Reachable(s) && TerminalJob(s.job.status) && DispatchIdle(s) && !s.dirty
    requires Total(s.batches, ItemRunning) == 0 && Executors(s) == {}
    ensures Final(s)
  {
    NoneLeft(s.batches, ItemRunning);
    assert forall t :: t in s.msgs ==> Left(s, t) == 0;
    ReachableInv(s);
    if s.msgs != map[] && !s.job.cancelRequested {
      var t := SomeMessage(s);
      assert RefreshInReach(s);
    }
  }
}
