/**
 Concrete runs of a job with one batch of one item. Each shows a state in which a promise one might
 expect of the protocol does not hold; the exact conditions are in the theorems and below.
 */
module JobScenarios {
  import opened Prelude
  import opened JobModel
  import opened JobProtocol
  import opened JobInvariant
  import opened JobTheorems
  import opened JobOutcomes
  import opened JobCancellation
  import opened JobResumption

  function FreshItem(): Item { Item("a", ItemPending, 0, Some("p"), Some("p")) }

  function OneItemJob(early: bool): State {
    var x := Batch(BatchPending, None, 0, 0, 1, Counts(0, 0, 0), [FreshItem()]);
    State(Job(JobQueued, false, 1, 0, 0, 0, 0, 1, 0), [x], map[], map[], {}, 0, 1, 0, 0, false, early)
  }

  lemma OneItemJobCreated(early: bool)
    ensures Created(OneItemJob(early))
  {
    var s := OneItemJob(early);
    assert s.batches[..0] == [];
    assert ItemCount(s.batches) == 1;
  }

  function OneBatch(status: BatchStatus, attempts: nat, interrupted: nat, item: Item): Batch {
    Batch(status, Some(0), attempts, interrupted, 1, Counts(0, 0, 0), [item])
  }

  /** The state of that job while message 0 is in phase `phase`. */
  function Snapshot(early: bool, x: Batch, phase: Phase): State {
    State(Job(JobRunning, false, 1, 0, 0, 0, 0, 1, 0), [x], map[0 := Message(0, phase)], map[], {}, 1, 1, 0, 0, false,
      early)
  }

  /** The batch was dispatched and a worker claimed it. */
  lemma ReachClaimed(early: bool) returns (run: seq<Label>)
    ensures Valid(OneItemJob(early), run)
    ensures Exec(OneItemJob(early), run) == Snapshot(early, OneBatch(BatchRunning, 1, 0, FreshItem()), Claimed)
  {
    StoreTheBatch(early);
    PublishTheBatch(early);
    DeliverTheMessage(early);
    ClaimTheBatch(early);
    var a := TwoSteps(OneItemJob(early), Store(0), StoredJob(early), PublishOk(0));
    var b := TwoSteps(PublishedJob(early, Waiting), Deliver(0), PublishedJob(early, Held), Claim(0));
    ExecAppend(OneItemJob(early), a, b);
    run := a + b;
  }

  /** Two enabled labels in a row. */
  lemma TwoSteps(s: State, l: Label, mid: State, m: Label) returns (run: seq<Label>)
    requires Enabled(s, l) && Apply(s, l) == mid && Enabled(mid, m)
    ensures Valid(s, run) && Exec(s, run) == Apply(mid, m)
  {
    RunOne(mid, m);
    RunCons(s, l, [m]);
    run := [l] + [m];
  }

  predicate Leads(s: State, l: Label, r: State) {
    Enabled(s, l) && Apply(s, l) == r
  }

  /** One more step of a run whose last state is known. */
  lemma Chain(s: State, run: seq<Label>, mid: State, l: Label, next: State) returns (more: seq<Label>)
    requires Valid(s, run) && Exec(s, run) == mid && Leads(mid, l, next)
    ensures Valid(s, more) && Exec(s, more) == next
  {
    RunSnoc(s, run, l);
    more := run + [l];
  }

  /** The batch has its id, and the id is not published yet. */
  function StoredJob(early: bool): State {
    OneItemJob(early).(batches := [OneBatch(BatchQueued, 0, 0, FreshItem())], stored := map[0 := 0], nextId := 1,
      scanning := 0)
  }

  /** The message is published and nobody has claimed the batch. */
  function PublishedJob(early: bool, phase: Phase): State {
    StoredJob(early).(stored := map[], msgs := map[0 := Message(0, phase)], scanning := 1)
  }

  lemma StoreTheBatch(early: bool)
    ensures Enabled(OneItemJob(early), Store(0)) && Apply(OneItemJob(early), Store(0)) == StoredJob(early)
  {
  }

  lemma PublishTheBatch(early: bool)
    ensures Enabled(StoredJob(early), PublishOk(0))
      && Apply(StoredJob(early), PublishOk(0)) == PublishedJob(early, Waiting)
  {
  }

  lemma DeliverTheMessage(early: bool)
    ensures Enabled(PublishedJob(early, Waiting), Deliver(0))
    ensures Apply(PublishedJob(early, Waiting), Deliver(0)) == PublishedJob(early, Held)
  {
  }

  lemma ClaimTheBatch(early: bool)
    ensures Enabled(PublishedJob(early, Held), Claim(0))
    ensures Apply(PublishedJob(early, Held), Claim(0))
      == Snapshot(early, OneBatch(BatchRunning, 1, 0, FreshItem()), Claimed)
  {
  }

  lemma StartTheItem(early: bool)
    ensures var s := Snapshot(early, OneBatch(BatchRunning, 1, 0, FreshItem()), Claimed);
      && Enabled(s, StartItem(0, 0))
      && Apply(s, StartItem(0, 0))
           == Snapshot(early, OneBatch(BatchRunning, 1, 0, StartedItem(FreshItem())), Executing(0))
  {
    assert [FreshItem()][0 := StartedItem(FreshItem())] == [StartedItem(FreshItem())];
  }

  lemma LoseTheWorker(early: bool)
    ensures var s := Snapshot(early, OneBatch(BatchRunning, 1, 0, StartedItem(FreshItem())), Executing(0));
      && Enabled(s, Crash(0))
      && Apply(s, Crash(0)) == Snapshot(early, OneBatch(BatchRunning, 1, 1, StartedItem(FreshItem())), Waiting)
  {
  }

  lemma DeliverAgain(early: bool, x: Batch)
    ensures var s := Snapshot(early, x, Waiting);
      Enabled(s, Deliver(0)) && Apply(s, Deliver(0)) == Snapshot(early, x, Held)
  {
  }

  lemma ClaimAgain(early: bool)
    ensures var s := Snapshot(early, OneBatch(BatchRunning, 1, 1, StartedItem(FreshItem())), Held);
      && Enabled(s, Claim(0))
      && Apply(s, Claim(0)) == Snapshot(early, OneBatch(BatchRunning, 2, 1, StartedItem(FreshItem())), Claimed)
  {
  }

  lemma EndTheBatch(early: bool)
    ensures var s := Snapshot(early, OneBatch(BatchRunning, 2, 1, StartedItem(FreshItem())), Claimed);
      && Enabled(s, EndBatch(0))
      && Apply(s, EndBatch(0))
      == Snapshot(early, OneBatch(BatchCompleted, 2, 1, StartedItem(FreshItem())), Closing).(dirty := true)
  {
    InterruptedTally();
  }

  /** The worker is lost while it executes the item; the message is delivered to another one. */
  lemma ReachInterrupted(early: bool) returns (run: seq<Label>)
    ensures Valid(OneItemJob(early), run)
    ensures Exec(OneItemJob(early), run)
         == Snapshot(early, OneBatch(BatchRunning, 1, 1, StartedItem(FreshItem())), Held)
  {
    var s := OneItemJob(early);
    run := ReachClaimed(early);
    StartTheItem(early);
    RunSnoc(s, run, StartItem(0, 0)); run := run + [StartItem(0, 0)];
    LoseTheWorker(early);
    RunSnoc(s, run, Crash(0)); run := run + [Crash(0)];
    DeliverAgain(early, OneBatch(BatchRunning, 1, 1, StartedItem(FreshItem())));
    RunSnoc(s, run, Deliver(0)); run := run + [Deliver(0)];
  }

  /** The batch is claimed again, and nothing is left to start, so it ends. */
  lemma ReachEnded(early: bool) returns (run: seq<Label>)
    ensures Valid(OneItemJob(early), run)
    ensures Exec(OneItemJob(early), run)
         == Snapshot(early, OneBatch(BatchCompleted, 2, 1, StartedItem(FreshItem())), Closing).(dirty := true)
  {
    var s := OneItemJob(early);
    run := ReachInterrupted(early);
    ClaimAgain(early);
    RunSnoc(s, run, Claim(0)); run := run + [Claim(0)];
    EndTheBatch(early);
    RunSnoc(s, run, EndBatch(0)); run := run + [EndBatch(0)];
  }

  lemma {:induction false} InterruptedTally()
    ensures TallyAll([StartedItem(FreshItem())]) == Counts(0, 0, 0)
  {
    var items := [StartedItem(FreshItem())];
    TallyZero(items, ItemSucceeded);
    TallyZero(items, ItemFailed);
    TallyZero(items, ItemCancelled);
  }

  /** A job can settle as COMPLETED although its only item neither succeeded nor failed: it was interrupted. */
  lemma CompletedWithInterruptedItem(early: bool) returns (run: seq<Label>)
    ensures Valid(OneItemJob(early), run)
    ensures var r := Exec(OneItemJob(early), run);
      && r.job.status == JobCompleted && r.job.processed == 0
      && |r.batches| == 1 && r.batches[0].items == [StartedItem(FreshItem())]
  {
    var s := OneItemJob(early);
    run := ReachEnded(early);
    OneInterrupted(Exec(s, run).batches);
    RunSnoc(s, run, Refresh(0)); run := run + [Refresh(0)];
  }

  lemma {:induction false} OneInterrupted(batches: seq<Batch>)
    requires |batches| == 1 && batches[0].items == [StartedItem(FreshItem())] && FinishedBatch(batches[0].status)
    ensures Total(batches, ItemSucceeded) == Total(batches, ItemFailed) == Total(batches, ItemCancelled) == 0
    ensures FinishedCount(batches) == 1
  {
    InterruptedTally();
    assert batches[..0] == [];
  }

  /** The job was cancelled and settled while its batch was stored and not yet published. */
  lemma ReachCancelledUnpublished(early: bool) returns (run: seq<Label>)
    ensures Valid(OneItemJob(early), run)
    ensures CancelledUnpublished(Exec(OneItemJob(early), run))
  {
    StoreTheBatch(early);
    CancelTheStoredBatch(early);
    run := ThreeSteps(OneItemJob(early), Store(0), StoredJob(early), Cancel, RefreshNow);
  }

  lemma ThreeSteps(s: State, l: Label, mid: State, m: Label, n: Label) returns (run: seq<Label>)
    requires Enabled(s, l) && Apply(s, l) == mid && Enabled(mid, m) && Enabled(Apply(mid, m), n)
    ensures Valid(s, run) && Exec(s, run) == Apply(Apply(mid, m), n)
  {
    run := TwoSteps(mid, m, Apply(mid, m), n);
    RunCons(s, l, run);
    run := [l] + run;
  }

  predicate CancelledUnpublished(r: State) {
    r.job.status == JobCancelled && r.job.cancelRequested && r.stored == map[0 := 0] && |r.batches| == 1
  }

  lemma CancelTheStoredBatch(early: bool)
    ensures Enabled(StoredJob(early), Cancel) && Enabled(Apply(StoredJob(early), Cancel), RefreshNow)
    ensures CancelledUnpublished(Apply(Apply(StoredJob(early), Cancel), RefreshNow))
  {
    var c := Apply(StoredJob(early), Cancel);
    assert AllFinished(c.batches) && c.job.totalBatches == |c.batches| == 1 && c.stored == map[0 := 0];
    FinishedCountAll(c.batches);
  }

  /**
   `s` is CANCELLED and settled. The publication that fails now puts the batch back while the job still says
   CANCELLED, and the DISPATCH_FAILED of its caller turns it into a job that can be dispatched again.
   */
  ghost predicate FailureUndoes(s: State) {
    && s.job.status == JobCancelled && Enabled(s, PublishFail(0, false))
    && var p := Apply(s, PublishFail(0, false));
       && p.job.status == JobCancelled && HasPending(p) && Enabled(p, DispatchFailed)
       && var r := Apply(p, DispatchFailed);
          r.job.status == JobDispatchFailed && r.job.cancelRequested && Enabled(r, Resume)
  }

  /** Such a state is reached: the job was cancelled while its only batch was stored and not yet published. */
  lemma LateFailureUndoesCancel(early: bool) returns (run: seq<Label>)
    ensures Valid(OneItemJob(early), run) && FailureUndoes(Exec(OneItemJob(early), run))
  {
    run := ReachCancelledUnpublished(early);
    var s := Exec(OneItemJob(early), run);
    assert Apply(s, PublishFail(0, false)).batches[0].status == BatchPending;
    assert Apply(Apply(s, PublishFail(0, false)), DispatchFailed).batches[0].status == BatchPending;
  }

  /**
   `s` is CANCELLED and settled, nothing is stored, scanned or waiting for a refresh, and no message is left. The
   DISPATCH_FAILED that a failed call still owes overwrites it, and nothing is left that could be published.
   */
  ghost predicate OwedUndoes(s: State) {
    && s.job.status == JobCancelled && NothingPublishing(s) && s.msgs == map[] && s.cancels == 0 && !s.dirty
    && Enabled(s, DispatchFailed)
    && var r := Apply(s, DispatchFailed);
       && r.job.status == JobDispatchFailed && AllFinished(r.batches) && !r.dirty && DispatchIdle(r)
       && !HasPending(r) && !Resumable(r)
  }

  /** Such a state is reached: the publication fails, and the job is cancelled before its caller records the failure. */
  lemma OwedFailureUndoesCancel(early: bool) returns (run: seq<Label>)
    ensures Valid(OneItemJob(early), run) && OwedUndoes(Exec(OneItemJob(early), run))
  {
    var s := OneItemJob(early);
    StoreTheBatch(early);
    RefuseTheBatch(early);
    var c, r := CancelThePutBack(early);
    run := TwoSteps(s, Store(0), StoredJob(early), PublishFail(0, false));
    run := Chain(s, run, PutBackJob(early), Cancel, c);
    run := Chain(s, run, c, RefreshNow, r);
  }

  /** The publication raised, and its caller has not recorded it yet. */
  function PutBackJob(early: bool): State {
    OneItemJob(early).(nextId := 1, scanning := 0, owing := 1)
  }

  lemma RefuseTheBatch(early: bool)
    ensures Leads(StoredJob(early), PublishFail(0, false), PutBackJob(early))
  {
  }

  lemma CancelThePutBack(early: bool) returns (c: State, r: State)
    ensures Leads(PutBackJob(early), Cancel, c) && Leads(c, RefreshNow, r) && OwedUndoes(r)
  {
    c := ApplyCancel(PutBackJob(early));
    assert AllFinished(c.batches) && c.job.totalBatches == |c.batches| == 1;
    FinishedCountAll(c.batches);
    r := Apply(c, RefreshNow);
  }

  /**
   `s` was cancelled by the last commit. The dispatch call that is under way raises, its caller writes
   DISPATCH_FAILED over CANCEL_REQUESTED, and a payload starts.
   */
  ghost predicate StartsAgain(s: State) {
    && s.job.status == JobCancelRequested && Enabled(s, DispatchError)
    && var e := Apply(s, DispatchError);
       Enabled(e, DispatchFailed) && Enabled(Apply(e, DispatchFailed), StartItem(0, 0))
  }

  /** Such a state is reached: the job is cancelled between the claim of its batch and the first item. */
  lemma PayloadStartsAfterCancel(early: bool) returns (run: seq<Label>)
    ensures Valid(OneItemJob(early), run + [Cancel]) && StartsAgain(Exec(OneItemJob(early), run + [Cancel]))
  {
    run := ReachClaimed(early);
    ClaimedStartsAgain(early);
    RunSnoc(OneItemJob(early), run, Cancel);
  }

  lemma ClaimedStartsAgain(early: bool)
    ensures var s := Snapshot(early, OneBatch(BatchRunning, 1, 0, FreshItem()), Claimed);
      Enabled(s, Cancel) && StartsAgain(Apply(s, Cancel))
  {
  }

  /** A worker lost after the cancellation plus a revocation that works: the batch is lost and the job stays open. */
  lemma RevokedMessageStrandsBatch(early: bool) returns (run: seq<Label>)
    ensures Valid(OneItemJob(early), run)
    ensures Lost(Exec(OneItemJob(early), run), 0)
    ensures Exec(OneItemJob(early), run).job.status == JobCancelRequested
  {
    var s := OneItemJob(early);
    run := ReachClaimed(early);
    var a := Exec(s, run);
    RunSnoc(s, run, Cancel); run := run + [Cancel];
    assert a.batches[0].taskId == Some(0);
    var c := Exec(s, run);
    assert 0 in c.revocable && c.batches == a.batches && c.msgs == a.msgs;
    RunSnoc(s, run, Crash(0)); run := run + [Crash(0)];
    RunSnoc(s, run, DropRevoked(0)); run := run + [DropRevoked(0)];
  }

  // ---------------------------------------------------------------- a refresh that never comes

  ghost predicate NoCancel(run: seq<Label>) {
    forall k :: 0 <= k < |run| ==> !run[k].Cancel?
  }

  /** Nobody is left who could refresh the job. */
  ghost predicate Abandoned(s: State) {
    s.msgs == map[] && s.cancels == 0 && s.stored == map[] && AllFinished(s.batches) && !TerminalJob(s.job.status)
  }

  lemma {:induction false} AbandonedRun(s: State, run: seq<Label>)
    requires Abandoned(s) && Valid(s, run) && NoCancel(run)
    ensures !TerminalJob(Exec(s, run).job.status)
    decreases |run|
  {
    if run != [] {
      assert !run[0].Cancel?;
      forall k | 0 <= k < |run[1..]| ensures !run[1..][k].Cancel? { assert run[1..][k] == run[k + 1]; }
      AbandonedRun(Apply(s, run[0]), run[1..]);
    }
  }

  /**
   A job whose batches have all ended can settle without a cancellation exactly when it has settled, or a
   cancellation still owes it a refresh, or some message is left or still to be published. A worker lost between
   ending the batch and refreshing takes that refresh with it: the redelivered message finds the batch ended and is
   dropped without one, unless its handling raises.
   */
  lemma SettlesByItselfExactly(s: State)
    requires Reachable(s) && AllFinished(s.batches)
    ensures (exists run :: Valid(s, run) && NoCancel(run) && TerminalJob(Exec(s, run).job.status))
      <==> TerminalJob(s.job.status) || s.cancels > 0 || s.msgs != map[] || s.stored != map[]
  {
    if TerminalJob(s.job.status) || s.cancels > 0 || s.msgs != map[] || s.stored != map[] {
      var run := SettlingRun(s);
    } else {
      forall run | Valid(s, run) && NoCancel(run) ensures !TerminalJob(Exec(s, run).job.status) {
        AbandonedRun(s, run);
      }
    }
  }

  lemma SettlingRun(s: State) returns (run: seq<Label>)
    requires Reachable(s) && AllFinished(s.batches)
    requires TerminalJob(s.job.status) || s.cancels > 0 || s.msgs != map[] || s.stored != map[]
    ensures Valid(s, run) && NoCancel(run) && TerminalJob(Exec(s, run).job.status)
  {
    if TerminalJob(s.job.status) {
      run := [];
    } else if s.cancels > 0 {
      BatchCount(s);
      RefreshSettles(s, RefreshNow);
      RunOne(s, RefreshNow);
      run := [RefreshNow];
    } else if s.msgs != map[] {
      var t := SomeMessage(s);
      run := ReachRefresh(s, t);
    } else {
      run := PublishedSettles(s);
    }
  }

  lemma PublishedSettles(s: State) returns (run: seq<Label>)
    requires Reachable(s) && AllFinished(s.batches) && s.stored != map[]
    ensures Valid(s, run) && NoCancel(run) && TerminalJob(Exec(s, run).job.status)
  {
    var l, r := PublishNext(s);
    var t := SomeMessage(r);
    var rest := ReachRefresh(r, t);
    StepThen(s, l, r, rest);
    run := [l] + rest;
  }

  lemma PublishNext(s: State) returns (l: Label, r: State)
    requires Reachable(s) && AllFinished(s.batches) && s.stored != map[]
    ensures Enabled(s, l) && r == Apply(s, l) && !l.Cancel?
    ensures Reachable(r) && AllFinished(r.batches) && r.msgs != map[]
  {
    ReachableInv(s);
    var t := PickStored(s);
    l := PublishOk(t);
    ReachableStep(s, l);
    r := ApplyPublishOk(s, t);
    assert t in r.msgs;
  }

  /** Such a job exists: its only batch ended and the worker was lost before the refresh. */
  lemma LostRefreshReachable(early: bool) returns (run: seq<Label>)
    ensures Valid(OneItemJob(early), run)
    ensures var r := Exec(OneItemJob(early), run);
      Abandoned(r) && r.job.status == JobRunning
  {
    var s := OneItemJob(early);
    var x := OneBatch(BatchCompleted, 2, 1, StartedItem(FreshItem()));
    run := ReachEnded(early);
    LoseAfterTheEnd(early, x);
    RunSnoc(s, run, Crash(0)); run := run + [Crash(0)];
    RunSnoc(s, run, Deliver(0)); run := run + [Deliver(0)];
    RunSnoc(s, run, Ack(0)); run := run + [Ack(0)];
  }

  lemma LoseAfterTheEnd(early: bool, x: Batch)
    requires x.taskId == Some(0) && FinishedBatch(x.status)
    ensures var a := Snapshot(early, x, Closing).(dirty := true);
            var b := Snapshot(early, x, Waiting).(dirty := true);
            var c := Snapshot(early, x, Held).(dirty := true);
      && Enabled(a, Crash(0)) && Apply(a, Crash(0)) == b
      && Enabled(b, Deliver(0)) && Apply(b, Deliver(0)) == c
      && Enabled(c, Ack(0)) && Apply(c, Ack(0)) == c.(msgs := map[])
  {
  }

  // ---------------------------------------------------------------- mark_failed at the wrong moment

  /** The settled job of CompletedWithInterruptedItem, while its worker still holds the message. */
  function InterruptedJob(early: bool, x: Batch, phase: Phase, job: Job, dirty: bool): State {
    Snapshot(early, x, phase).(job := job, dirty := dirty)
  }

  function SettledRow(status: JobStatus, succeeded: nat, failed: nat): Job {
    Job(status, false, 1, succeeded + failed, succeeded, failed, 0, 1, 1)
  }

  function InterruptedBatch(): Batch {
    OneBatch(BatchCompleted, 2, 1, StartedItem(FreshItem()))
  }

  function MarkedBatch(): Batch {
    OneBatch(BatchFailed, 2, 0, StartedItem(FreshItem()).(status := ItemFailed))
  }

  lemma RefreshInterrupted(early: bool)
    ensures Leads(Snapshot(early, InterruptedBatch(), Closing).(dirty := true), Refresh(0),
                  InterruptedJob(early, InterruptedBatch(), Leaving, SettledRow(JobCompleted, 0, 0), false))
  {
    RowOf([InterruptedBatch()], Snapshot(early, InterruptedBatch(), Closing).job);
    RefreshClosing(early, InterruptedBatch(), SettledRow(JobCompleted, 0, 0));
  }

  lemma RefreshClosing(early: bool, x: Batch, job: Job)
    requires Recount(Snapshot(early, x, Closing).job, [x]) == job
    ensures Leads(Snapshot(early, x, Closing).(dirty := true), Refresh(0),
                  InterruptedJob(early, x, Leaving, job, false))
  {
  }

  lemma MarkInterrupted(early: bool, job: Job)
    ensures Leads(InterruptedJob(early, InterruptedBatch(), Leaving, job, false), MarkFailed(0),
                  InterruptedJob(early, MarkedBatch(), Marked, job, true))
  {
    assert FailItems([StartedItem(FreshItem())]) == [StartedItem(FreshItem()).(status := ItemFailed)];
  }

  lemma {:induction false} OneItem(batches: seq<Batch>)
    requires |batches| == 1 && |batches[0].items| == 1
    ensures forall st :: Total(batches, st) == Bit(batches[0].items[0].status == st)
    ensures FinishedCount(batches) == Bit(FinishedBatch(batches[0].status))
  {
    assert batches[..0] == [] && batches[0].items[..0] == [];
    forall st ensures Total(batches, st) == Bit(batches[0].items[0].status == st) {
      assert Tally(batches[0].items, st) == Tally(batches[0].items[..0], st) + Bit(batches[0].items[0].status == st);
      assert Total(batches, st) == Total(batches[..0], st) + Tally(batches[0].items, st);
    }
  }

  /** The recount of a job with one item. */
  lemma RowOf(batches: seq<Batch>, job: Job)
    requires |batches| == 1 && |batches[0].items| == 1 && FinishedBatch(batches[0].status)
    requires job.totalItems == job.totalBatches == 1 && !job.cancelRequested
    ensures batches[0].items[0].status == ItemFailed ==> Recount(job, batches) == SettledRow(JobFailed, 0, 1)
    ensures batches[0].items[0].status == ItemSucceeded ==> Recount(job, batches) == SettledRow(JobCompleted, 1, 0)
    ensures batches[0].items[0].status == ItemRunning ==> Recount(job, batches) == SettledRow(JobCompleted, 0, 0)
  {
    OneItem(batches);
  }

  lemma RefreshMarkedRow(early: bool)
    ensures Leads(InterruptedJob(early, MarkedBatch(), Marked, SettledRow(JobCompleted, 0, 0), true), Refresh(0),
                  InterruptedJob(early, MarkedBatch(), Done, SettledRow(JobFailed, 0, 1), false))
  {
    RowOf([MarkedBatch()], SettledRow(JobCompleted, 0, 0));
    RefreshAfterMark(early, MarkedBatch(), SettledRow(JobCompleted, 0, 0), SettledRow(JobFailed, 0, 1));
  }

  lemma RefreshAfterMark(early: bool, x: Batch, row: Job, job: Job)
    requires Recount(row, [x]) == job
    ensures Leads(InterruptedJob(early, x, Marked, row, true), Refresh(0),
                  InterruptedJob(early, x, Done, job, false))
  {
  }

  /**
   `s` has settled as COMPLETED with nothing stored and no cancellation. `mark_failed` for message 0 makes its counters
   wrong, and the refresh after it writes FAILED over COMPLETED.
   */
  ghost predicate MarkUndoes(s: State) {
    && s.job.status == JobCompleted && s.stored == map[] && !s.job.cancelRequested && Enabled(s, MarkFailed(0))
    && var m := Apply(s, MarkFailed(0));
       && m.job.status == JobCompleted && !InSync(m)
       && Enabled(m, Refresh(0)) && Apply(m, Refresh(0)).job.status == JobFailed
  }

  /** An exception after the last refresh undoes an outcome: such a state is reached, with an interrupted item. */
  lemma LateMarkUndoesOutcome(early: bool) returns (run: seq<Label>)
    ensures Valid(OneItemJob(early), run) && MarkUndoes(Exec(OneItemJob(early), run))
  {
    RefreshInterrupted(early);
    MarkInterrupted(early, SettledRow(JobCompleted, 0, 0));
    RefreshMarkedRow(early);
    OneItem([MarkedBatch()]);
    var before := ReachEnded(early);
    var settled := InterruptedJob(early, InterruptedBatch(), Leaving, SettledRow(JobCompleted, 0, 0), false);
    run := Chain(OneItemJob(early), before, Exec(OneItemJob(early), before), Refresh(0), settled);
  }

  /** A publication raised although the broker kept its message; the batch is to be published again. */
  function UnpublishedJob(early: bool, batch: Batch, phase: Phase, status: JobStatus, dirty: bool): State {
    State(OneItemJob(early).job.(status := status), [batch], map[0 := Message(0, phase)], map[], {}, 1, 0, 0, 0, dirty,
      early)
  }

  function Returned(early: bool): State {
    UnpublishedJob(early, OneItemJob(early).batches[0], Waiting, JobDispatchFailed, false)
  }

  function ReturnedHeld(early: bool): State {
    UnpublishedJob(early, OneItemJob(early).batches[0], Held, JobDispatchFailed, false)
  }

  function ReturnedMarked(early: bool): State {
    UnpublishedJob(early, FailedBatch(OneItemJob(early).batches[0]), Marked, JobDispatchFailed, true)
  }

  /** The job before its caller has recorded that failure. */
  function Kept(early: bool): State {
    Returned(early).(job := OpenRow(JobQueued), owing := 1)
  }

  lemma FailThePublication(early: bool)
    ensures Leads(StoredJob(early), PublishFail(0, true), Kept(early))
    ensures Leads(Kept(early), DispatchFailed, Returned(early))
  {
  }

  lemma MarkUnpublished(early: bool)
    ensures Leads(Returned(early), Deliver(0), ReturnedHeld(early))
    ensures Leads(ReturnedHeld(early), MarkFailed(0), ReturnedMarked(early))
  {
  }

  lemma ReachUnpublished(early: bool) returns (run: seq<Label>)
    ensures Valid(OneItemJob(early), run)
    ensures Exec(OneItemJob(early), run) == Returned(early)
  {
    StoreTheBatch(early);
    FailThePublication(early);
    run := TwoSteps(OneItemJob(early), Store(0), StoredJob(early), PublishFail(0, true));
    run := Chain(OneItemJob(early), run, Kept(early), DispatchFailed, Returned(early));
  }

  /** The message of a publication that raised can fail its batch, and nothing is left to resume. */
  lemma DeliveredFailureStrandsJob(early: bool) returns (run: seq<Label>)
    ensures Valid(OneItemJob(early), run)
    ensures var r := Exec(OneItemJob(early), run);
      r.job.status == JobDispatchFailed && !HasPending(r) && DispatchIdle(r)
  {
    var s := OneItemJob(early);
    run := ReachUnpublished(early);
    MarkUnpublished(early);
    run := Chain(s, run, Returned(early), Deliver(0), ReturnedHeld(early));
    run := Chain(s, run, ReturnedHeld(early), MarkFailed(0), ReturnedMarked(early));
  }

  /** The batch was published again under id 1, and the message of id 0 is still there. */
  function TwoMessages(early: bool, x: Batch, old0: Phase, current: Phase, job: Job, dirty: bool): State {
    State(job, [x], map[0 := Message(0, old0), 1 := Message(0, current)], map[], {}, 2, 1, 0, 0, dirty,
      early)
  }

  function SecondBatch(status: BatchStatus, attempts: nat, counts: Counts, item: Item): Batch {
    Batch(status, Some(1), attempts, 0, 1, counts, [item])
  }

  function OpenRow(status: JobStatus): Job {
    OneItemJob(true).job.(status := status)
  }

  function ExecutedBatch(): Batch {
    SecondBatch(BatchRunning, 1, Counts(0, 0, 0), StartedItem(FreshItem()))
  }

  function TrespassedBatch(): Batch {
    SecondBatch(BatchFailed, 1, Counts(0, 0, 0), StartedItem(FreshItem()).(status := ItemFailed))
  }

  function OverwrittenBatch(status: BatchStatus): Batch {
    SecondBatch(status, 1, Counts(1, 0, 0), EndedItem(StartedItem(FreshItem()), true, "r"))
  }

  /** The only batch after the second dispatch, and after its claim. */
  function QueuedAgain(): Batch {
    SecondBatch(BatchQueued, 0, Counts(0, 0, 0), FreshItem())
  }

  function ClaimedAgain(): Batch {
    SecondBatch(BatchRunning, 1, Counts(0, 0, 0), FreshItem())
  }

  /** That job resumed, and stored again. */
  function Resumed(early: bool): State {
    Returned(early).(job := OpenRow(JobQueued), scanning := 1)
  }

  function StoredAgain(early: bool): State {
    Returned(early).(job := OpenRow(JobQueued), batches := [QueuedAgain()], stored := map[1 := 0], nextId := 2)
  }

  lemma PublishAgain(early: bool)
    ensures Leads(Returned(early), Resume, Resumed(early))
    ensures Leads(Resumed(early), Store(0), StoredAgain(early))
    ensures Leads(StoredAgain(early), PublishOk(1),
                  TwoMessages(early, QueuedAgain(), Waiting, Waiting, OpenRow(JobQueued), false))
  {
    assert Returned(early).batches[0].status == BatchPending;
  }

  lemma WorkAgain(early: bool)
    ensures Leads(TwoMessages(early, QueuedAgain(), Waiting, Waiting, OpenRow(JobQueued), false), Deliver(1),
                  TwoMessages(early, QueuedAgain(), Waiting, Held, OpenRow(JobQueued), false))
    ensures Leads(TwoMessages(early, QueuedAgain(), Waiting, Held, OpenRow(JobQueued), false), Claim(1),
                  TwoMessages(early, ClaimedAgain(), Waiting, Claimed, OpenRow(JobRunning), false))
  {
  }

  lemma StartAgain(early: bool)
    ensures Leads(TwoMessages(early, ClaimedAgain(), Waiting, Claimed, OpenRow(JobRunning), false), StartItem(1, 0),
                  TwoMessages(early, ExecutedBatch(), Waiting, Executing(0), OpenRow(JobRunning), false))
  {
    assert [FreshItem()][0 := StartedItem(FreshItem())] == [StartedItem(FreshItem())];
  }

  lemma Trespass(early: bool)
    ensures Leads(TwoMessages(early, ExecutedBatch(), Waiting, Executing(0), OpenRow(JobRunning), false), Deliver(0),
                  TwoMessages(early, ExecutedBatch(), Held, Executing(0), OpenRow(JobRunning), false))
    ensures Leads(TwoMessages(early, ExecutedBatch(), Held, Executing(0), OpenRow(JobRunning), false), MarkFailed(0),
                  TwoMessages(early, TrespassedBatch(), Marked, Executing(0), OpenRow(JobRunning), true))
  {
    assert FailItems([StartedItem(FreshItem())]) == [StartedItem(FreshItem()).(status := ItemFailed)];
  }

  lemma RefreshTrespassed(early: bool)
    ensures Leads(TwoMessages(early, TrespassedBatch(), Marked, Executing(0), OpenRow(JobRunning), true), Refresh(0),
                  TwoMessages(early, TrespassedBatch(), Done, Executing(0), SettledRow(JobFailed, 0, 1), false))
  {
    RowOf([TrespassedBatch()], OpenRow(JobRunning));
    RefreshFirst(early, TrespassedBatch(), OpenRow(JobRunning), SettledRow(JobFailed, 0, 1));
  }

  lemma RefreshFirst(early: bool, x: Batch, row: Job, job: Job)
    requires Recount(row, [x]) == job
    ensures Leads(TwoMessages(early, x, Marked, Executing(0), row, true), Refresh(0),
                  TwoMessages(early, x, Done, Executing(0), job, false))
  {
  }

  function TwiceRow(): Job {
    SettledRow(JobFailed, 0, 1).(processed := 2, succeeded := 1)
  }

  lemma EndTrespassed(early: bool)
    ensures Leads(TwoMessages(early, TrespassedBatch(), Done, Executing(0), SettledRow(JobFailed, 0, 1), false),
                  EndItem(1, true, "r"),
                  TwoMessages(early, OverwrittenBatch(BatchFailed), Done, Claimed, TwiceRow(), true))
  {
    var x := StartedItem(FreshItem()).(status := ItemFailed);
    assert [x][0 := EndedItem(x, true, "r")] == OverwrittenBatch(BatchFailed).items;
  }

  lemma CloseTrespassed(early: bool)
    ensures Leads(TwoMessages(early, OverwrittenBatch(BatchFailed), Done, Claimed, TwiceRow(), true), EndBatch(1),
                  TwoMessages(early, OverwrittenBatch(BatchCompleted), Done, Closing, TwiceRow(), true))
  {
    var items := OverwrittenBatch(BatchFailed).items;
    assert items[..0] == [];
    assert TallyAll(items) == Counts(1, 0, 0);
  }

  lemma RefreshOverwritten(early: bool)
    ensures Leads(TwoMessages(early, OverwrittenBatch(BatchCompleted), Done, Closing, TwiceRow(), true), Refresh(1),
                  TwoMessages(early, OverwrittenBatch(BatchCompleted), Done, Leaving,
                              SettledRow(JobCompleted, 1, 0), false))
  {
    RowOf([OverwrittenBatch(BatchCompleted)], TwiceRow());
    RefreshSecond(early, OverwrittenBatch(BatchCompleted), TwiceRow(), SettledRow(JobCompleted, 1, 0));
  }

  lemma RefreshSecond(early: bool, x: Batch, row: Job, job: Job)
    requires Recount(row, [x]) == job
    ensures Leads(TwoMessages(early, x, Done, Closing, row, true), Refresh(1),
                  TwoMessages(early, x, Done, Leaving, job, false))
  {
  }

  lemma ReachTrespassed(early: bool) returns (run: seq<Label>)
    ensures Valid(OneItemJob(early), run)
    ensures Exec(OneItemJob(early), run)
         == TwoMessages(early, TrespassedBatch(), Done, Executing(0), SettledRow(JobFailed, 0, 1), false)
  {
    var s := OneItemJob(early);
    run := ReachUnpublished(early);
    PublishAgain(early);
    run := Chain(s, run, Returned(early), Resume, Resumed(early));
    run := Chain(s, run, Resumed(early), Store(0), StoredAgain(early));
    var d := TwoMessages(early, QueuedAgain(), Waiting, Waiting, OpenRow(JobQueued), false);
    run := Chain(s, run, StoredAgain(early), PublishOk(1), d);
    WorkAgain(early);
    StartAgain(early);
    var e := TwoMessages(early, QueuedAgain(), Waiting, Held, OpenRow(JobQueued), false);
    var f := TwoMessages(early, ClaimedAgain(), Waiting, Claimed, OpenRow(JobRunning), false);
    var g := TwoMessages(early, ExecutedBatch(), Waiting, Executing(0), OpenRow(JobRunning), false);
    run := Chain(s, run, d, Deliver(1), e);
    run := Chain(s, run, e, Claim(1), f);
    run := Chain(s, run, f, StartItem(1, 0), g);
    Trespass(early);
    var h := TwoMessages(early, ExecutedBatch(), Held, Executing(0), OpenRow(JobRunning), false);
    var i := TwoMessages(early, TrespassedBatch(), Marked, Executing(0), OpenRow(JobRunning), true);
    run := Chain(s, run, g, Deliver(0), h);
    run := Chain(s, run, h, MarkFailed(0), i);
    RefreshTrespassed(early);
    run := Chain(s, run, i, Refresh(0),
      TwoMessages(early, TrespassedBatch(), Done, Executing(0), SettledRow(JobFailed, 0, 1), false));
  }

  /** The only item of the job has the status `status`. */
  predicate OnlyItem(s: State, status: ItemStatus) {
    |s.batches| == 1 && |s.batches[0].items| == 1 && s.batches[0].items[0].status == status
  }

  /**
   `s` is FAILED, like its only item, which the worker of message 1 is still executing. That worker ends the failed
   item as a success, which counts it a second time, and its refresh writes COMPLETED over FAILED.
   */
  ghost predicate EndOverwrites(s: State) {
    && s.job.status == JobFailed && OnlyItem(s, ItemFailed) && Enabled(s, EndItem(1, true, "r"))
    && var e := Apply(s, EndItem(1, true, "r"));
       && OnlyItem(e, ItemSucceeded) && e.job.processed > e.job.totalItems && Enabled(e, EndBatch(1))
       && var c := Apply(e, EndBatch(1)); Enabled(c, Refresh(1)) && Apply(c, Refresh(1)).job.status == JobCompleted
  }

  /**
   Such a state is reached: the handling of an old message raises while the worker of the current one executes the
   item, so that `mark_failed` fails item, batch and job under the hands of that worker.
   */
  lemma StaleMarkOverwritten(early: bool) returns (run: seq<Label>)
    ensures Valid(OneItemJob(early), run) && EndOverwrites(Exec(OneItemJob(early), run))
  {
    run := ReachTrespassed(early);
    EndTrespassed(early);
    CloseTrespassed(early);
    RefreshOverwritten(early);
  }

  // ---------------------------------------------------------------- the four conditions of a serial run

  predicate SerialLeads(s: State, l: Label, r: State, x: Lapse) {
    Leads(s, l, r) && SerialLabel(s, l, x)
  }

  /** `path` lists the states that `run` goes through from `s` on, and every step is serial but for `x`. */
  ghost predicate SerialPath(s: State, path: seq<State>, run: seq<Label>, x: Lapse) {
    && |path| == |run| + 1 && path[0] == s
    && forall k :: 0 <= k < |run| ==> SerialLeads(path[k], run[k], path[k + 1], x)
  }

  function Last(path: seq<State>): State
    requires path != []
  {
    path[|path| - 1]
  }

  lemma PathSnoc(s: State, path: seq<State>, run: seq<Label>, l: Label, r: State, x: Lapse)
      returns (path': seq<State>, run': seq<Label>)
    requires SerialPath(s, path, run, x) && SerialLeads(Last(path), l, r, x)
    ensures SerialPath(s, path', run', x) && Last(path') == r
  {
    path', run' := path + [r], run + [l];
  }

  lemma {:induction false} PathIsRun(path: seq<State>, run: seq<Label>, x: Lapse)
    requires |path| == |run| + 1 && forall k :: 0 <= k < |run| ==> SerialLeads(path[k], run[k], path[k + 1], x)
    ensures Valid(path[0], run) && Serial(path[0], run, x) && Exec(path[0], run) == Last(path)
    decreases |run|
  {
    if run != [] {
      assert SerialLeads(path[0], run[0], path[1], x);
      forall k | 0 <= k < |run[1..]| ensures SerialLeads(path[1..][k], run[1..][k], path[1..][k + 1], x) {
        assert SerialLeads(path[k + 1], run[k + 1], path[k + 2], x);
      }
      PathIsRun(path[1..], run[1..], x);
    }
  }

  lemma StoreIsSerial(early: bool, x: Lapse)
    ensures SerialLeads(OneItemJob(early), Store(0), StoredJob(early), x)
  {
    assert SerialLabel(OneItemJob(early), Store(0), x);
    assert Leads(OneItemJob(early), Store(0), StoredJob(early)) by { StoreTheBatch(early); }
  }

  lemma FailIsSerial(early: bool)
    ensures SerialLeads(StoredJob(early), PublishFail(0, true), Kept(early), Delivered)
    ensures SerialLeads(Kept(early), DispatchFailed, Returned(early), Delivered)
  {
    assert SerialLabel(StoredJob(early), PublishFail(0, true), Delivered);
    assert SerialLabel(Kept(early), DispatchFailed, Delivered);
    FailThePublication(early);
  }

  lemma MarkIsSerial(early: bool)
    ensures SerialLeads(Returned(early), Deliver(0), ReturnedHeld(early), Delivered)
    ensures SerialLeads(ReturnedHeld(early), MarkFailed(0), ReturnedMarked(early), Delivered)
    ensures !Resumable(ReturnedMarked(early))
  {
    assert SerialLabel(Returned(early), Deliver(0), Delivered);
    assert SerialLabel(ReturnedHeld(early), MarkFailed(0), Delivered);
    MarkUnpublished(early);
  }

  lemma PublishIsSerial(early: bool)
    ensures SerialLeads(StoredJob(early), PublishOk(0), PublishedJob(early, Waiting), EmptyError)
  {
    assert SerialLabel(StoredJob(early), PublishOk(0), EmptyError);
    assert Leads(StoredJob(early), PublishOk(0), PublishedJob(early, Waiting)) by { PublishTheBatch(early); }
  }

  lemma BreakIsSerial(early: bool)
    ensures SerialLeads(PublishedJob(early, Waiting), DispatchError, PublishedBroken(early, JobQueued, 1), EmptyError)
    ensures SerialLeads(PublishedBroken(early, JobQueued, 1), DispatchFailed,
                        PublishedBroken(early, JobDispatchFailed, 0), EmptyError)
    ensures !Resumable(PublishedBroken(early, JobDispatchFailed, 0))
  {
    assert SerialLabel(PublishedJob(early, Waiting), DispatchError, EmptyError);
    assert SerialLabel(PublishedBroken(early, JobQueued, 1), DispatchFailed, EmptyError);
    BreakThePublished(early);
  }

  lemma StoredPath(early: bool, x: Lapse) returns (path: seq<State>, run: seq<Label>)
    ensures SerialPath(OneItemJob(early), path, run, x) && Last(path) == StoredJob(early)
  {
    StoreIsSerial(early, x);
    path, run := FirstPath(OneItemJob(early), Store(0), StoredJob(early), x);
  }

  lemma FirstPath(s: State, l: Label, r: State, x: Lapse) returns (path: seq<State>, run: seq<Label>)
    requires SerialLeads(s, l, r, x)
    ensures SerialPath(s, path, run, x) && Last(path) == r
  {
    path, run := [s, r], [l];
  }

  lemma PutBackPath(early: bool, x: Lapse) returns (path: seq<State>, run: seq<Label>)
    ensures SerialPath(OneItemJob(early), path, run, x) && Last(path) == PutBackJob(early)
  {
    var s := OneItemJob(early);
    path, run := StoredPath(early, x);
    RefuseTheBatch(early);
    path, run := PathSnoc(s, path, run, PublishFail(0, false), PutBackJob(early), x);
  }

  lemma DeliveredPath(early: bool) returns (path: seq<State>, run: seq<Label>)
    ensures SerialPath(OneItemJob(early), path, run, Delivered) && !Resumable(Last(path))
  {
    var s := OneItemJob(early);
    path, run := StoredPath(early, Delivered);
    FailIsSerial(early);
    MarkIsSerial(early);
    path, run := PathSnoc(s, path, run, PublishFail(0, true), Kept(early), Delivered);
    path, run := PathSnoc(s, path, run, DispatchFailed, Returned(early), Delivered);
    path, run := PathSnoc(s, path, run, Deliver(0), ReturnedHeld(early), Delivered);
    path, run := PathSnoc(s, path, run, MarkFailed(0), ReturnedMarked(early), Delivered);
  }

  lemma CancelDuringPath(early: bool) returns (path: seq<State>, run: seq<Label>)
    ensures SerialPath(OneItemJob(early), path, run, CancelDuring) && !Resumable(Last(path))
  {
    var s := OneItemJob(early);
    path, run := PutBackPath(early, CancelDuring);
    var c, d := CancelThePutBack(early);
    path, run := PathSnoc(s, path, run, Cancel, c, CancelDuring);
    path, run := PathSnoc(s, path, run, RefreshNow, d, CancelDuring);
    path, run := PathSnoc(s, path, run, DispatchFailed, Apply(d, DispatchFailed), CancelDuring);
  }

  /** The message is published, and the call raises on its way out. */
  function PublishedBroken(early: bool, status: JobStatus, owing: nat): State {
    PublishedJob(early, Waiting).(job := OpenRow(status), scanning := 0, owing := owing)
  }

  lemma BreakThePublished(early: bool)
    ensures Leads(PublishedJob(early, Waiting), DispatchError, PublishedBroken(early, JobQueued, 1))
    ensures Leads(PublishedBroken(early, JobQueued, 1), DispatchFailed, PublishedBroken(early, JobDispatchFailed, 0))
  {
  }

  lemma EmptyErrorPath(early: bool) returns (path: seq<State>, run: seq<Label>)
    ensures SerialPath(OneItemJob(early), path, run, EmptyError) && !Resumable(Last(path))
  {
    var s := OneItemJob(early);
    path, run := StoredPath(early, EmptyError);
    PublishIsSerial(early);
    BreakIsSerial(early);
    path, run := PathSnoc(s, path, run, PublishOk(0), PublishedJob(early, Waiting), EmptyError);
    path, run := PathSnoc(s, path, run, DispatchError, PublishedBroken(early, JobQueued, 1), EmptyError);
    path, run := PathSnoc(s, path, run, DispatchFailed, PublishedBroken(early, JobDispatchFailed, 0), EmptyError);
  }

  /** The batch was put back, and a second call stores and publishes it before the first one is recorded. */
  function SecondCall(early: bool, stored: bool, status: JobStatus): State {
    var s := PutBackJob(early).(job := OpenRow(status), batches := [QueuedAgain()], nextId := 2);
    if stored then s.(stored := map[1 := 0])
    else s.(msgs := map[1 := Message(0, Waiting)], scanning := 1, owing := if status == JobQueued then 1 else 0)
  }

  lemma CallAgain(early: bool)
    ensures SerialLeads(PutBackJob(early), Resume, PutBackJob(early).(scanning := 1), Overlap)
  {
    assert PutBackJob(early).batches[0].status == BatchPending;
  }

  lemma StoreSecond(early: bool)
    ensures SerialLeads(PutBackJob(early).(scanning := 1), Store(0), SecondCall(early, true, JobQueued), Overlap)
  {
    var s, r := PutBackJob(early).(scanning := 1), SecondCall(early, true, JobQueued);
    assert SerialLabel(s, Store(0), Overlap);
    assert Leads(s, Store(0), r);
  }

  lemma PublishSecond(early: bool)
    ensures SerialLeads(SecondCall(early, true, JobQueued), PublishOk(1), SecondCall(early, false, JobQueued), Overlap)
  {
  }

  lemma RecordFirst(early: bool)
    ensures SerialLeads(SecondCall(early, false, JobQueued), DispatchFailed,
                        SecondCall(early, false, JobDispatchFailed), Overlap)
    ensures !Resumable(SecondCall(early, false, JobDispatchFailed))
  {
  }

  lemma OverlapPath(early: bool) returns (path: seq<State>, run: seq<Label>)
    ensures SerialPath(OneItemJob(early), path, run, Overlap) && !Resumable(Last(path))
  {
    var s := OneItemJob(early);
    path, run := PutBackPath(early, Overlap);
    CallAgain(early);
    StoreSecond(early);
    PublishSecond(early);
    RecordFirst(early);
    path, run := PathSnoc(s, path, run, Resume, PutBackJob(early).(scanning := 1), Overlap);
    path, run := PathSnoc(s, path, run, Store(0), SecondCall(early, true, JobQueued), Overlap);
    path, run := PathSnoc(s, path, run, PublishOk(1), SecondCall(early, false, JobQueued), Overlap);
    path, run := PathSnoc(s, path, run, DispatchFailed, SecondCall(early, false, JobDispatchFailed), Overlap);
  }

  /** A run that breaks only one of the four conditions can end in DISPATCH_FAILED with nothing to publish. */
  lemma EachConditionIsNeeded(x: Lapse, early: bool) returns (run: seq<Label>)
    requires x != NoLapse
    ensures Valid(OneItemJob(early), run) && Serial(OneItemJob(early), run, x)
    ensures !Resumable(Exec(OneItemJob(early), run))
  {
    var path;
    if x == Overlap {
      path, run := OverlapPath(early);
    } else if x == Delivered {
      path, run := DeliveredPath(early);
    } else if x == CancelDuring {
      path, run := CancelDuringPath(early);
    } else {
      path, run := EmptyErrorPath(early);
    }
    PathIsRun(path, run, x);
  }

  // ---------------------------------------------------------------- a cached job row

  /**
   `refresh_progress` by a session whose copy of the job row was read when `cancel_requested_at` was `cached`. It
   gives the status of the fresh row exactly when the copy is right or some batch has not ended.
   */
  lemma CachedRowExactly(j: Job, batches: seq<Batch>, cached: bool)
    requires cached ==> j.cancelRequested
    ensures Recount(j.(cancelRequested := cached), batches).status == Recount(j, batches).status
      <==> cached == j.cancelRequested || FinishedCount(batches) != j.totalBatches
  {
  }

  /** The worker ends the last batch of a cancelled job, and the copy of the job row it read before says otherwise. */
  ghost predicate CachedRowCompletes(s: State) {
    && s.job.cancelRequested && s.job.status == JobCancelRequested && Enabled(s, Refresh(0))
    && Apply(s, Refresh(0)).job.status == JobCancelled
    && Recount(s.job.(cancelRequested := false), s.batches).status == JobCompleted
  }

  /** Such a state is reached: the job is cancelled while the worker executes its only item. */
  lemma CachedRowOverlooksCancel(early: bool) returns (run: seq<Label>)
    ensures Valid(OneItemJob(early), run) && CachedRowCompletes(Exec(OneItemJob(early), run))
  {
    var s := OneItemJob(early);
    run := ReachClaimed(early);
    StartTheItem(early);
    var c, r := CancelTheExecuted(early);
    run := Chain(s, run, Snapshot(early, OneBatch(BatchRunning, 1, 0, FreshItem()), Claimed), StartItem(0, 0),
      Snapshot(early, OneBatch(BatchRunning, 1, 0, StartedItem(FreshItem())), Executing(0)));
    run := Chain(s, run, Snapshot(early, OneBatch(BatchRunning, 1, 0, StartedItem(FreshItem())), Executing(0)), Cancel,
      c);
    run := Chain(s, run, c, EndItem(0, true, "r"), r);
    CloseTheCancelled(r);
    run := Chain(s, run, r, CancelRest(0), Apply(r, CancelRest(0)));
  }

  /** The item ended after the cancellation. */
  ghost predicate EndedCancelled(r: State) {
    && r.job.status == JobCancelRequested && r.job.cancelRequested && r.job.totalBatches == 1
    && |r.batches| == 1 && |r.batches[0].items| == 1 && r.batches[0].items[0].status == ItemSucceeded
    && Looping(r, 0)
  }

  lemma CancelTheExecuted(early: bool) returns (c: State, r: State)
    ensures Leads(Snapshot(early, OneBatch(BatchRunning, 1, 0, StartedItem(FreshItem())), Executing(0)), Cancel, c)
    ensures Leads(c, EndItem(0, true, "r"), r) && EndedCancelled(r)
  {
    c := ApplyCancel(Snapshot(early, OneBatch(BatchRunning, 1, 0, StartedItem(FreshItem())), Executing(0)));
    assert c.batches[0] == OneBatch(BatchRunning, 1, 0, StartedItem(FreshItem()));
    r := ApplyEndItem(c, 0, true, "r");
  }

  lemma CloseTheCancelled(r: State)
    requires EndedCancelled(r)
    ensures Enabled(r, CancelRest(0)) && CachedRowCompletes(Apply(r, CancelRest(0)))
  {
    var d := Apply(r, CancelRest(0));
    assert |d.batches| == 1 && d.batches[0].items[0] == r.batches[0].items[0];
    OneItem(d.batches);
  }
}
