/** What the protocol guarantees on every run: execution, messages, counters, completion, crashes. */
module JobTheorems {
  import opened Prelude
  import opened JobModel
  import opened JobProtocol
  import opened JobInvariant

  // ---------------------------------------------------------------- items over a run

  /** How an item may differ between two states of one run. */
  ghost predicate ItemLater(x: Item, y: Item) {
    && y.reference == x.reference
    && y.origin == x.origin
    && x.attempts <= y.attempts
    && (TerminalItem(x.status) ==> y == x || (x.status == ItemFailed && y.status == ItemSucceeded))
    && (x.status != ItemPending ==> y.status != ItemPending && y.attempts == x.attempts)
  }

  predicate HasItem(s: State, b: nat, i: nat) {
    b < |s.batches| && i < |s.batches[b].items|
  }

  /** `l` is the commit that starts executing the payload of item `i` of batch `b`. */
  predicate StartsItem(s: State, l: Label, b: nat, i: nat) {
    l.StartItem? && l.item == i && l.t in s.msgs && s.msgs[l.t].batch == b
  }

  /** How often a run executes the payload of item `i` of batch `b`. */
  ghost function Executions(s: State, run: seq<Label>, b: nat, i: nat): nat
    requires Valid(s, run)
    decreases |run|
  {
    if run == [] then 0
    else Bit(StartsItem(s, run[0], b, i)) + Executions(Apply(s, run[0]), run[1..], b, i)
  }

  /** One commit moves an item at most one step along its life, and only `StartItem` raises `attempts`. */
  lemma StepItem(s: State, l: Label, b: nat, i: nat)
    requires Inv(s) && Enabled(s, l) && HasItem(s, b, i)
    ensures var r := Apply(s, l);
      && |r.batches| == |s.batches|
      && |r.batches[b].items| == |s.batches[b].items|
      && ItemMove(s.batches[b].items[i], r.batches[b].items[i])
      && r.batches[b].items[i].attempts == s.batches[b].items[i].attempts + Bit(StartsItem(s, l, b, i))
  {
    if MovesItems(l) { WorkerStepItem(s, l, b, i); }
  }

  predicate MovesItems(l: Label) {
    l.EarlyCancel? || l.StartItem? || l.EndItem? || l.CancelRest? || l.MarkFailed?
  }

  lemma WorkerStepItem(s: State, l: Label, b: nat, i: nat)
    requires Inv(s) && Enabled(s, l) && HasItem(s, b, i) && MovesItems(l)
    ensures var r := Apply(s, l);
      && |r.batches| == |s.batches|
      && |r.batches[b].items| == |s.batches[b].items|
      && ItemMove(s.batches[b].items[i], r.batches[b].items[i])
      && r.batches[b].items[i].attempts == s.batches[b].items[i].attempts + Bit(StartsItem(s, l, b, i))
  {
    if l.StartItem? || l.EndItem? { OneItemStep(s, l, b, i); }
  }

  lemma OneItemStep(s: State, l: Label, b: nat, i: nat)
    requires Inv(s) && Enabled(s, l) && HasItem(s, b, i) && (l.StartItem? || l.EndItem?)
    ensures var r := Apply(s, l);
      && |r.batches| == |s.batches|
      && |r.batches[b].items| == |s.batches[b].items|
      && ItemMove(s.batches[b].items[i], r.batches[b].items[i])
      && r.batches[b].items[i].attempts == s.batches[b].items[i].attempts + Bit(StartsItem(s, l, b, i))
  {
    assert MessageOk(s, l.t);
  }

  lemma {:induction false} RunItem(s: State, run: seq<Label>, b: nat, i: nat)
    requires Inv(s) && Valid(s, run) && HasItem(s, b, i)
    ensures var r := Exec(s, run);
      && |r.batches| == |s.batches|
      && |r.batches[b].items| == |s.batches[b].items|
      && ItemLater(s.batches[b].items[i], r.batches[b].items[i])
      && r.batches[b].items[i].attempts == s.batches[b].items[i].attempts + Executions(s, run, b, i)
    decreases |run|
  {
    if run != [] {
      StepItem(s, run[0], b, i);
      StepInv(s, run[0]);
      RunItem(Apply(s, run[0]), run[1..], b, i);
    }
  }

  /**
   At-most-once execution. On every run of a new job, with any crashes, redeliveries, cancellations and
   failed publications, the payload of an item is executed at most once and `attempts` says how often.
   */
  lemma AtMostOnce(s: State, run: seq<Label>, b: nat, i: nat)
    requires Created(s) && Valid(s, run) && HasItem(s, b, i)
    ensures Executions(s, run, b, i) <= 1
    ensures HasItem(Exec(s, run), b, i)
    ensures Exec(s, run).batches[b].items[i].attempts == Executions(s, run, b, i)
  {
    CreatedInv(s);
    RunItem(s, run, b, i);
    RunInv(s, run);
    assert NewBatch(s.batches[b]) && NewItem(s.batches[b].items[i]);
    assert RowsOk(Exec(s, run).batches[b]);
  }

  /**
   From any reached state on: an item never goes back to pending, a success and a cancellation are final,
   and a failure is final or turns into a success.
   */
  lemma ItemsOnlyAdvance(s: State, before: seq<Label>, after: seq<Label>, b: nat, i: nat)
    requires Created(s) && Valid(s, before) && Valid(Exec(s, before), after)
    requires HasItem(Exec(s, before), b, i)
    ensures var x := Exec(s, before).batches[b].items[i];
            HasItem(Exec(Exec(s, before), after), b, i) &&
            var y := Exec(Exec(s, before), after).batches[b].items[i];
      && (x.status != ItemPending ==> y.status != ItemPending)
      && (x.status in {ItemSucceeded, ItemCancelled} ==> y == x)
      && (x.status == ItemFailed ==> y == x || y.status == ItemSucceeded)
  {
    CreatedInv(s);
    RunInv(s, before);
    RunItem(Exec(s, before), after, b, i);
  }

  /** Some worker is executing the payload of item `i` of batch `b`. */
  predicate BeingExecuted(s: State, b: nat, i: nat) {
    exists t :: t in s.msgs && s.msgs[t] == Message(b, Executing(i))
  }

  ghost predicate FinalItem(s: State, b: nat, i: nat) {
    HasItem(s, b, i) && TerminalItem(s.batches[b].items[i].status) && !BeingExecuted(s, b, i)
  }

  lemma FinalItemStep(s: State, l: Label, b: nat, i: nat)
    requires Inv(s) && Enabled(s, l) && FinalItem(s, b, i)
    ensures HasItem(Apply(s, l), b, i) && Apply(s, l).batches[b].items[i] == s.batches[b].items[i]
    ensures FinalItem(Apply(s, l), b, i)
  {
    StepItem(s, l, b, i);
    FinalItemKept(s, l, b, i);
    NotStarted(s, l, b, i);
  }

  lemma FinalItemKept(s: State, l: Label, b: nat, i: nat)
    requires Enabled(s, l) && FinalItem(s, b, i) && HasItem(Apply(s, l), b, i)
    requires ItemMove(s.batches[b].items[i], Apply(s, l).batches[b].items[i])
    ensures Apply(s, l).batches[b].items[i] == s.batches[b].items[i]
  {
    if l.EndItem? { assert s.msgs[l.t] != Message(b, Executing(i)); }
  }

  lemma NotStarted(s: State, l: Label, b: nat, i: nat)
    requires Enabled(s, l) && FinalItem(s, b, i)
    ensures !BeingExecuted(Apply(s, l), b, i)
  {
    var r := Apply(s, l);
    forall t | t in r.msgs ensures r.msgs[t] != Message(b, Executing(i)) {
      assert t in s.msgs ==> s.msgs[t] != Message(b, Executing(i));
    }
  }

  lemma {:induction false} FinalItemRun(s: State, run: seq<Label>, b: nat, i: nat)
    requires Inv(s) && Valid(s, run) && FinalItem(s, b, i)
    ensures HasItem(Exec(s, run), b, i) && Exec(s, run).batches[b].items[i] == s.batches[b].items[i]
    decreases |run|
  {
    if run != [] {
      FinalItemStep(s, run[0], b, i);
      StepInv(s, run[0]);
      FinalItemRun(Apply(s, run[0]), run[1..], b, i);
    }
  }

  ghost predicate SameItem(s: State, r: State, b: nat, i: nat)
    requires HasItem(s, b, i)
  {
    HasItem(r, b, i) && r.batches[b].items[i] == s.batches[b].items[i]
  }

  /**
   A terminal item is final, on every later run, exactly when no worker is executing it. A worker can be
   executing a terminal item after `mark_failed`, called for another message of the batch, has failed it.
   */
  lemma TerminalItemIsFinalExactly(s0: State, before: seq<Label>, b: nat, i: nat)
    requires Created(s0) && Valid(s0, before) && HasItem(Exec(s0, before), b, i)
    requires TerminalItem(Exec(s0, before).batches[b].items[i].status)
    ensures var s := Exec(s0, before);
      (forall run | Valid(s, run) :: SameItem(s, Exec(s, run), b, i)) <==> !BeingExecuted(s, b, i)
  {
    CreatedInv(s0);
    RunInv(s0, before);
    var s := Exec(s0, before);
    if t :| t in s.msgs && s.msgs[t] == Message(b, Executing(i)) {
      var run := EndsAsSuccess(s, t, b, i);
    } else {
      forall run | Valid(s, run) ensures SameItem(s, Exec(s, run), b, i) { FinalItemRun(s, run, b, i); }
    }
  }

  lemma EndsAsSuccess(s: State, t: TaskId, b: nat, i: nat) returns (run: seq<Label>)
    requires Inv(s) && t in s.msgs && s.msgs[t] == Message(b, Executing(i))
    requires HasItem(s, b, i) && TerminalItem(s.batches[b].items[i].status)
    ensures Valid(s, run) && !SameItem(s, Exec(s, run), b, i)
  {
    assert MessageOk(s, t);
    run := [EndItem(t, true, "")];
    RunOne(s, run[0]);
    assert Exec(s, run).batches[b].items[i].status == ItemSucceeded;
  }

  /**
   Retry lineage, worker side: an item that is not a success still carries the payload and the
   reference it was created with, so that a retry can hand exactly that payload to the child job.
   */
  lemma PayloadKept(s: State, run: seq<Label>, b: nat, i: nat)
    requires Created(s) && Valid(s, run) && HasItem(s, b, i)
    ensures HasItem(Exec(s, run), b, i)
    ensures var x := s.batches[b].items[i]; var y := Exec(s, run).batches[b].items[i];
      && y.reference == x.reference
      && (y.status != ItemSucceeded ==> y.payload == x.payload)
  {
    CreatedInv(s);
    RunItem(s, run, b, i);
    RunInv(s, run);
    assert NewBatch(s.batches[b]) && NewItem(s.batches[b].items[i]);
    assert RowsOk(Exec(s, run).batches[b]);
  }

  // ---------------------------------------------------------------- messages

  /** The message a label belongs to, when a worker or the broker takes the step. */
  function MessageOf(l: Label): Option<TaskId> {
    match l
    case Deliver(t) => Some(t)
    case Ack(t) => Some(t)
    case DropRevoked(t) => Some(t)
    case EarlyCancel(t) => Some(t)
    case Claim(t) => Some(t)
    case StartItem(t, _) => Some(t)
    case EndItem(t, _, _) => Some(t)
    case CancelRest(t) => Some(t)
    case EndBatch(t) => Some(t)
    case MarkFailed(t) => Some(t)
    case Refresh(t) => Some(t)
    case Crash(t) => Some(t)
    case _ => None
  }

  /**
   A message whose id is not the id of its batch changes rows exactly when an exception makes its worker call
   `mark_failed` while the batch is not FAILED yet; the refresh after that call recounts the job row.
   */
  lemma StaleMessageExactly(s: State, l: Label, t: TaskId)
    requires Inv(s) && Enabled(s, l) && MessageOf(l) == Some(t)
    requires t in s.msgs && !Current(s, t)
    ensures s.msgs[t].batch < |s.batches|
    ensures Apply(s, l).batches == s.batches <==> (l.MarkFailed? ==> s.batches[s.msgs[t].batch].status == BatchFailed)
    ensures Apply(s, l).job == if l.Refresh? then Recount(s.job, s.batches) else s.job
    ensures l.Refresh? ==> s.msgs[t].phase == Marked
  {
    assert MessageOk(s, t);
    if l.MarkFailed? { FailedAlready(s, s.msgs[t].batch); }
  }

  /** `mark_failed` leaves a FAILED batch as it is. */
  lemma FailedAlready(s: State, b: nat)
    requires Inv(s) && b < |s.batches|
    ensures FailedBatch(s.batches[b]) == s.batches[b] <==> s.batches[b].status == BatchFailed
  {
    var x := s.batches[b];
    assert RowsOk(x) && LinkOk(s, b);
    if x.status == BatchFailed {
      TallyZero(x.items, ItemPending);
      TallyZero(x.items, ItemRunning);
      assert FailItems(x.items) == x.items;
    }
  }

  /** The ids through which batch `b` can still be worked on: published messages and ids about to be published. */
  ghost function Carriers(s: State, b: nat): set<TaskId>
    requires b < |s.batches|
  {
    set t | t in s.msgs.Keys + s.stored.Keys
         && s.batches[b].taskId == Some(t)
         && (t in s.msgs ==> s.msgs[t].batch == b)
         && (t in s.stored ==> s.stored[t] == b)
  }

  /**
   No batch work is lost or duplicated. A pending batch has no id. A queued batch has exactly one
   carrier: either its id is about to be published or one message carries it. A running batch has
   exactly one message; it can lose it only after a cancellation asked the broker to revoke it. A
   publication never meets a message with the same id.
   */
  lemma OneCarrier(s: State, run: seq<Label>, b: nat)
    requires Created(s) && Valid(s, run) && b < |Exec(s, run).batches|
    ensures var r := Exec(s, run); var x := r.batches[b];
      && (x.status == BatchPending ==> x.taskId == None && Carriers(r, b) == {})
      && (x.status == BatchQueued ==>
            && x.taskId.Some?
            && Carriers(r, b) == {x.taskId.value}
            && (x.taskId.value in r.stored <==> x.taskId.value !in r.msgs))
      && (x.status == BatchRunning ==>
            && x.taskId.Some?
            && x.taskId.value !in r.stored
            && (Carriers(r, b) == {x.taskId.value} ||
                (Carriers(r, b) == {} && x.taskId.value in r.revocable && r.job.cancelRequested)))
      && (forall t :: t in r.stored ==> t !in r.msgs)
  {
    CreatedInv(s);
    RunInv(s, run);
    var r := Exec(s, run);
    assert RowsOk(r.batches[b]) && LinkOk(r, b);
    assert forall t :: t in r.stored ==> StoredOk(r, t);
  }

  predicate Working(s: State, t: TaskId) {
    t in s.msgs && (s.msgs[t].phase == Claimed || s.msgs[t].phase.Executing?)
  }

  /** Two workers never process the same batch at the same time. */
  lemma OneWorkerPerBatch(s: State, run: seq<Label>, t: TaskId, u: TaskId)
    requires Created(s) && Valid(s, run)
    requires Working(Exec(s, run), t) && Working(Exec(s, run), u) && t != u
    ensures Exec(s, run).msgs[t].batch != Exec(s, run).msgs[u].batch
  {
    CreatedInv(s);
    RunInv(s, run);
    assert MessageOk(Exec(s, run), t) && MessageOk(Exec(s, run), u);
  }

  // ---------------------------------------------------------------- counters and completion

  /** The counters agree with the group-by count over the items. */
  ghost predicate InSync(s: State) {
    && s.job.succeeded == Total(s.batches, ItemSucceeded)
    && s.job.failed == Total(s.batches, ItemFailed)
    && s.job.cancelled == Total(s.batches, ItemCancelled)
    && s.job.processed == s.job.succeeded + s.job.failed + s.job.cancelled
  }

  /** How many items have a final status: what a recount of the processed items gives. */
  ghost function ClosedCount(batches: seq<Batch>): nat {
    Total(batches, ItemSucceeded) + Total(batches, ItemFailed) + Total(batches, ItemCancelled)
  }

  /** `l` ends an item that `mark_failed` has failed while it was being executed. */
  predicate EndsTwice(s: State, l: Label) {
    && l.EndItem? && Current(s, l.t) && s.msgs[l.t].phase.Executing?
    && s.msgs[l.t].phase.item < |BatchOf(s, l.t).items|
    && BatchOf(s, l.t).items[s.msgs[l.t].phase.item].status != ItemRunning
  }

  /**
   How far `processed_items` runs ahead of the rows after `run`, when it was `d` ahead before: one more for every
   item ended twice, less for every item that a block fails or cancels without an increment, nothing after a refresh.
   */
  ghost function Ahead(s: State, run: seq<Label>, d: int): int
    requires Valid(s, run)
    decreases |run|
  {
    if run == [] then d else Ahead(Apply(s, run[0]), run[1..], NextAhead(s, run[0], d))
  }

  ghost function NextAhead(s: State, l: Label, d: int): int
    requires Enabled(s, l)
  {
    if l.Refresh? || l.RefreshNow? then 0
    else if l.EndItem? then d + Bit(EndsTwice(s, l))
    else d - (ClosedCount(Apply(s, l).batches) - ClosedCount(s.batches))
  }

  lemma StepAhead(s: State, l: Label, d: int)
    requires Inv(s) && Enabled(s, l) && s.job.processed == ClosedCount(s.batches) + d
    ensures Apply(s, l).job.processed == ClosedCount(Apply(s, l).batches) + NextAhead(s, l, d)
  {
    if l.EndItem? { EndItemAhead(s, l); } else if !l.Refresh? && !l.RefreshNow? { OthersKeepProcessed(s, l); }
  }

  lemma EndItemAhead(s: State, l: Label)
    requires Inv(s) && Enabled(s, l) && l.EndItem?
    ensures Apply(s, l).job.processed == s.job.processed + 1
    ensures ClosedCount(Apply(s, l).batches) == ClosedCount(s.batches) + 1 - Bit(EndsTwice(s, l))
  {
    assert MessageOk(s, l.t);
    EndItemTotals(s, l.t, l.success, l.result);
  }

  lemma OthersKeepProcessed(s: State, l: Label)
    requires Enabled(s, l) && !l.EndItem? && !l.Refresh? && !l.RefreshNow?
    ensures Apply(s, l).job.processed == s.job.processed
  {
  }

  lemma {:induction false} AheadExactly(s: State, run: seq<Label>, d: int)
    requires Inv(s) && Valid(s, run) && s.job.processed == ClosedCount(s.batches) + d
    ensures Exec(s, run).job.processed == ClosedCount(Exec(s, run).batches) + Ahead(s, run, d)
    decreases |run|
  {
    if run != [] {
      StepInv(s, run[0]);
      StepAhead(s, run[0], d);
      AheadExactly(Apply(s, run[0]), run[1..], NextAhead(s, run[0], d));
    }
  }

  /**
   The fast counters refine the recount: they equal it whenever no `refresh_progress` is outstanding, and the
   count of successes always does. `processed_items` stays within `total_items` exactly as long as it is not
   further ahead of the rows than there are items without a final status.
   */
  lemma FastCountersRefineRecount(s: State, run: seq<Label>)
    requires Created(s) && Valid(s, run)
    ensures var r := Exec(s, run);
      && (!r.dirty ==> InSync(r))
      && r.job.succeeded == Total(r.batches, ItemSucceeded)
      && r.job.processed == r.job.succeeded + r.job.failed + r.job.cancelled
      && (!r.dirty ==> r.job.processed <= r.job.totalItems)
      && (r.job.processed <= r.job.totalItems
          <==> Ahead(s, run, 0) <= Total(r.batches, ItemPending) + Total(r.batches, ItemRunning))
  {
    CreatedInv(s);
    RunInv(s, run);
    NewTotals(s.batches);
    AheadExactly(s, run, 0);
    TotalPartition(Exec(s, run).batches);
  }

  /** Whether DISPATCH_FAILED was written on `run` and no recount has come after it. */
  ghost function Late(s: State, run: seq<Label>, late: bool): bool
    requires Valid(s, run)
    decreases |run|
  {
    if run == [] then late else Late(Apply(s, run[0]), run[1..], NextLate(run[0], late))
  }

  predicate NextLate(l: Label, late: bool) {
    l.DispatchFailed? || (late && !l.Refresh? && !l.RefreshNow?)
  }

  /** In a state whose batches have all ended and that owes no recount, a late write of DISPATCH_FAILED still stands. */
  ghost predicate LateStands(s: State, late: bool) {
    !s.dirty && AllFinished(s.batches) ==> (s.job.status == JobDispatchFailed <==> late)
  }

  lemma LateStep(s: State, l: Label, late: bool)
    requires Inv(s) && Enabled(s, l) && LateStands(s, late)
    ensures LateStands(Apply(s, l), NextLate(l, late))
  {
    StepInv(s, l);
    var r := Apply(s, l);
    if l.Refresh? || l.RefreshNow? {
      FinishedCountAll(s.batches);
    } else if !l.DispatchFailed? && !r.dirty && AllFinished(r.batches) {
      EndedBefore(s, l);
    }
  }

  /** A step that neither recounts nor leaves a recount owed does not end the last batch, nor touch the status then. */
  lemma EndedBefore(s: State, l: Label)
    requires Inv(s) && Enabled(s, l) && !l.Refresh? && !l.RefreshNow? && !l.DispatchFailed?
    requires !Apply(s, l).dirty && AllFinished(Apply(s, l).batches)
    ensures !s.dirty && AllFinished(s.batches) && Apply(s, l).job.status == s.job.status
  {
    OpensBatch(s, l);
    if MessageOf(l).Some? { WorkerEndedBefore(s, l); }
  }

  /** A batch that is stored, put back, claimed or to be published has not ended. */
  lemma OpensBatch(s: State, l: Label)
    requires Enabled(s, l)
    ensures l.Store? || l.PublishFail? || l.Claim? || l.Resume? ==> !AllFinished(Apply(s, l).batches)
  {
    var r := Apply(s, l);
    match l
    case Store(b) => assert !FinishedBatch(r.batches[b].status);
    case PublishFail(t, _) => assert !FinishedBatch(r.batches[s.stored[t]].status);
    case Claim(t) => assert !FinishedBatch(r.batches[s.msgs[t].batch].status);
    case Resume =>
      var b :| 0 <= b < |s.batches| && s.batches[b].status == BatchPending;
      assert !FinishedBatch(r.batches[b].status);
    case _ =>
  }

  lemma WorkerEndedBefore(s: State, l: Label)
    requires Enabled(s, l) && MessageOf(l).Some? && !l.Refresh? && !l.Claim?
    requires !Apply(s, l).dirty && AllFinished(Apply(s, l).batches)
    ensures !s.dirty && AllFinished(s.batches) && Apply(s, l).job.status == s.job.status
  {
    var r := Apply(s, l);
    forall b | 0 <= b < |s.batches| ensures FinishedBatch(s.batches[b].status) {
      assert FinishedBatch(r.batches[b].status);
    }
  }

  lemma {:induction false} LateExactly(s: State, run: seq<Label>, late: bool)
    requires Inv(s) && Valid(s, run) && LateStands(s, late)
    ensures LateStands(Exec(s, run), Late(s, run, late))
    decreases |run|
  {
    if run != [] {
      LateStep(s, run[0], late);
      StepInv(s, run[0]);
      LateExactly(Apply(s, run[0]), run[1..], NextLate(run[0], late));
    }
  }

  /**
   Completion. With no refresh outstanding the counters are exact, and a job whose batches have all ended is settled
   if and only if no DISPATCH_FAILED was written since the last recount. A settled job has only ended batches, unless
   a failed publication put one back and its caller still owes DISPATCH_FAILED.
   */
  lemma CompletionExact(s: State, run: seq<Label>)
    requires Created(s) && Valid(s, run)
    ensures var r := Exec(s, run);
      && (TerminalJob(r.job.status) ==> AllFinished(r.batches) || r.owing > 0)
      && (!r.dirty ==> InSync(r))
      && (!r.dirty && AllFinished(r.batches) ==> (TerminalJob(r.job.status) <==> !Late(s, run, false)))
      && (!r.dirty && r.owing == 0 ==>
            (TerminalJob(r.job.status) <==> AllFinished(r.batches) && !Late(s, run, false)))
  {
    CreatedInv(s);
    RunInv(s, run);
    assert NewBatch(s.batches[0]);
    LateExactly(s, run, false);
  }

  /** A settled job has no pending item, and no running item that a worker is executing. */
  ghost predicate Closed(s: State) {
    TerminalJob(s.job.status) ==> forall b :: 0 <= b < |s.batches| ==> Quiet(s, b)
  }

  ghost predicate Quiet(s: State, b: nat)
    requires b < |s.batches|
  {
    Tally(s.batches[b].items, ItemPending) == 0 && ExecutingNow(s, b) == 0
  }

  lemma EndedIsQuiet(s: State, b: nat)
    requires Inv(s) && b < |s.batches| && FinishedBatch(s.batches[b].status)
    ensures Quiet(s, b)
  {
    assert RowsOk(s.batches[b]);
  }

  /** A quiet batch stays quiet. */
  lemma QuietStep(s: State, l: Label, b: nat)
    requires Inv(s) && Enabled(s, l) && b < |s.batches| && Quiet(s, b)
    ensures b < |Apply(s, l).batches| && Quiet(Apply(s, l), b)
  {
    assert RowsOk(s.batches[b]) && LinkOk(s, b);
    if MessageOf(l).Some? {
      assert MessageOk(s, l.t);
      QuietWorkerStep(s, l, b);
    } else {
      QuietCallStep(s, l, b);
    }
  }

  lemma QuietCallStep(s: State, l: Label, b: nat)
    requires Structure(s) && Enabled(s, l) && MessageOf(l) == None && b < |s.batches| && Quiet(s, b)
    ensures b < |Apply(s, l).batches| && Quiet(Apply(s, l), b)
  {
    assert RowsOk(s.batches[b]) && LinkOk(s, b);
    if l.PublishOk? || l.PublishFail? { assert StoredOk(s, l.t); }
    if l.Cancel? { CancelItemsTally(s.batches[b].items); }
  }

  lemma QuietWorkerStep(s: State, l: Label, b: nat)
    requires Enabled(s, l) && MessageOf(l).Some? && b < |s.batches| && Quiet(s, b)
    requires MessageOk(s, l.t) && LinkOk(s, b)
    ensures b < |Apply(s, l).batches| && Quiet(Apply(s, l), b)
  {
    if s.msgs[l.t].batch == b { NothingPending(s, l, b); } else { OtherBatch(s, l, b); }
    NobodyStarts(s, l, b);
  }

  lemma OtherBatch(s: State, l: Label, b: nat)
    requires Enabled(s, l) && MessageOf(l).Some? && l.t in s.msgs && s.msgs[l.t].batch != b && b < |s.batches|
    ensures b < |Apply(s, l).batches| && Apply(s, l).batches[b] == s.batches[b]
  {
  }

  lemma NobodyStarts(s: State, l: Label, b: nat)
    requires Enabled(s, l) && MessageOf(l).Some? && l.t in s.msgs && b < |s.batches| && b < |Apply(s, l).batches|
    requires ExecutingNow(s, b) == 0 && LinkOk(s, b) && (l.StartItem? ==> s.msgs[l.t].batch != b)
    ensures ExecutingNow(Apply(s, l), b) == 0
  {
  }

  /** A batch without pending items gets none. */
  lemma NothingPending(s: State, l: Label, b: nat)
    requires Enabled(s, l) && MessageOf(l).Some? && l.t in s.msgs && s.msgs[l.t].batch == b
    requires b < |s.batches| && Tally(s.batches[b].items, ItemPending) == 0
    ensures b < |Apply(s, l).batches| && Tally(Apply(s, l).batches[b].items, ItemPending) == 0 && !l.StartItem?
  {
    var x := s.batches[b];
    TallyZero(x.items, ItemPending);
    CancelItemsTally(x.items);
    FailItemsTally(x.items);
    if l.EndItem? {
      var i := s.msgs[l.t].phase.item;
      TallyUpdate(x.items, i, EndedItem(x.items[i], l.success, l.result), ItemPending);
    }
  }

  lemma StepClosed(s: State, l: Label)
    requires Inv(s) && Closed(s) && Enabled(s, l)
    ensures Closed(Apply(s, l))
  {
    StepInv(s, l);
    var r := Apply(s, l);
    if TerminalJob(r.job.status) {
      if TerminalJob(s.job.status) {
        forall b | 0 <= b < |r.batches| ensures Quiet(r, b) {
          StepInterruptions(s, l, b);
          QuietStep(s, l, b);
        }
      } else {
        NewlySettled(s, l);
        forall b | 0 <= b < |r.batches| ensures Quiet(r, b) { EndedIsQuiet(r, b); }
      }
    }
  }

  /** Only a recount of ended batches settles a job. */
  lemma NewlySettled(s: State, l: Label)
    requires Enabled(s, l) && !TerminalJob(s.job.status) && TerminalJob(Apply(s, l).job.status)
    requires s.job.totalBatches == |s.batches|
    ensures AllFinished(Apply(s, l).batches) && (l.Refresh? || l.RefreshNow?)
  {
    FinishedCountAll(s.batches);
  }

  lemma {:induction false} RunClosed(s: State, run: seq<Label>)
    requires Inv(s) && Closed(s) && Valid(s, run)
    ensures Closed(Exec(s, run))
    decreases |run|
  {
    if run != [] {
      StepClosed(s, run[0]);
      StepInv(s, run[0]);
      RunClosed(Apply(s, run[0]), run[1..]);
    }
  }

  ghost predicate Free(run: seq<Label>, crash: bool) {
    forall k :: 0 <= k < |run| ==> !(if crash then run[k].Crash? else run[k].Cancel?)
  }

  /** `l` is the loss of a worker that leaves an item of batch `b` running. */
  predicate InterruptsOn(s: State, l: Label, b: nat) {
    l.Crash? && l.t in s.msgs && s.msgs[l.t].batch == b && Interrupts(s, l.t)
  }

  /** `l` is a call of `mark_failed` for batch `b`. */
  predicate MarksBatch(s: State, l: Label, b: nat) {
    l.MarkFailed? && l.t in s.msgs && s.msgs[l.t].batch == b
  }

  /** How many items of batch `b` lost workers have left running since the last `mark_failed` of the batch. */
  ghost function Interruptions(s: State, run: seq<Label>, b: nat, n: nat): nat
    requires Valid(s, run)
    decreases |run|
  {
    if run == [] then n else Interruptions(Apply(s, run[0]), run[1..], b, NextInterruptions(s, run[0], b, n))
  }

  ghost function NextInterruptions(s: State, l: Label, b: nat, n: nat): nat {
    if MarksBatch(s, l, b) then 0 else n + Bit(InterruptsOn(s, l, b))
  }

  lemma StepInterruptions(s: State, l: Label, b: nat)
    requires Inv(s) && Enabled(s, l) && b < |s.batches|
    ensures |Apply(s, l).batches| == |s.batches|
    ensures Apply(s, l).batches[b].interrupted == NextInterruptions(s, l, b, s.batches[b].interrupted)
  {
    if l.Crash? {
      assert MessageOk(s, l.t);
      CrashInterruptions(s, l.t, b);
    } else if MessageOf(l).Some? {
      WorkerInterruptions(s, l, b);
    } else {
      UserInterruptions(s, l, b);
    }
  }

  lemma UserInterruptions(s: State, l: Label, b: nat)
    requires Enabled(s, l) && MessageOf(l).None? && b < |s.batches|
    ensures |Apply(s, l).batches| == |s.batches|
    ensures Apply(s, l).batches[b].interrupted == s.batches[b].interrupted
  {
  }

  lemma CrashInterruptions(s: State, t: TaskId, b: nat)
    requires Enabled(s, Crash(t)) && b < |s.batches| && s.msgs[t].batch < |s.batches|
    ensures |ApplyCrash(s, t).batches| == |s.batches|
    ensures ApplyCrash(s, t).batches[b].interrupted
         == s.batches[b].interrupted + Bit(InterruptsOn(s, Crash(t), b))
  {
  }

  lemma WorkerInterruptions(s: State, l: Label, b: nat)
    requires Enabled(s, l) && MessageOf(l).Some? && !l.Crash? && b < |s.batches|
    ensures |Apply(s, l).batches| == |s.batches|
    ensures Apply(s, l).batches[b].interrupted == if MarksBatch(s, l, b) then 0 else s.batches[b].interrupted
  {
  }

  /** The column `interrupted` of the model counts what happened on the run. */
  lemma {:induction false} InterruptionsCounted(s: State, run: seq<Label>, b: nat)
    requires Inv(s) && Valid(s, run) && b < |s.batches|
    ensures |Exec(s, run).batches| == |s.batches|
    ensures Exec(s, run).batches[b].interrupted == Interruptions(s, run, b, s.batches[b].interrupted)
    decreases |run|
  {
    if run != [] {
      StepInterruptions(s, run[0], b);
      StepInv(s, run[0]);
      InterruptionsCounted(Apply(s, run[0]), run[1..], b);
    }
  }

  /**
   Crash damage, exactly. A batch that has ended has no pending item left, and exactly as many running items as
   workers lost while executing one of them since the last `mark_failed` of the batch; that is at most `attempts`.
   */
  lemma CrashDamageExactly(s: State, run: seq<Label>, b: nat)
    requires Created(s) && Valid(s, run) && b < |Exec(s, run).batches|
    requires FinishedBatch(Exec(s, run).batches[b].status)
    ensures b < |s.batches|
    ensures var x := Exec(s, run).batches[b];
      && (forall i :: 0 <= i < |x.items| ==> x.items[i].status != ItemPending)
      && Tally(x.items, ItemRunning) == Interruptions(s, run, b, 0) <= x.attempts
  {
    CreatedInv(s);
    RunInv(s, run);
    RunShape(s, run);
    InterruptionsCounted(s, run, b);
    var r := Exec(s, run);
    assert NewBatch(s.batches[b]);
    assert RowsOk(r.batches[b]) && LinkOk(r, b);
    TallyZero(r.batches[b].items, ItemPending);
  }

  lemma {:induction false} RunShape(s: State, run: seq<Label>)
    requires Inv(s) && Valid(s, run)
    ensures |Exec(s, run).batches| == |s.batches|
    decreases |run|
  {
    if run != [] {
      StepInterruptions(s, run[0], 0);
      StepInv(s, run[0]);
      RunShape(Apply(s, run[0]), run[1..]);
    }
  }

  lemma {:induction false} NoCrashNoInterruption(s: State, run: seq<Label>, b: nat)
    requires Valid(s, run) && Free(run, true)
    ensures Interruptions(s, run, b, 0) == 0
    decreases |run|
  {
    if run != [] {
      assert !run[0].Crash?;
      forall k | 0 <= k < |run[1..]| ensures !run[1..][k].Crash? { assert run[1..][k] == run[k + 1]; }
      NoCrashNoInterruption(Apply(s, run[0]), run[1..], b);
    }
  }

  lemma {:induction false} NoneLeft(batches: seq<Batch>, st: ItemStatus)
    ensures Total(batches, st) == 0 <==> forall b :: 0 <= b < |batches| ==> Tally(batches[b].items, st) == 0
  {
    if batches != [] {
      var n := |batches| - 1;
      NoneLeft(batches[..n], st);
      assert forall b :: 0 <= b < n ==> batches[..n][b] == batches[b];
    }
  }

  /** No lost worker has left an item running that no later `mark_failed` failed. */
  ghost predicate NoInterruption(s: State, run: seq<Label>)
    requires Valid(s, run)
  {
    forall b :: 0 <= b < |s.batches| ==> Interruptions(s, run, b, 0) == 0
  }

  /** All batches have ended, or the job has settled. */
  ghost predicate Over(s: State) {
    AllFinished(s.batches) || TerminalJob(s.job.status)
  }

  lemma OverIsQuiet(s: State, run: seq<Label>, b: nat)
    requires Created(s) && Valid(s, run) && Over(Exec(s, run)) && b < |Exec(s, run).batches|
    ensures Quiet(Exec(s, run), b)
    ensures Tally(Exec(s, run).batches[b].items, ItemRunning) == Interruptions(s, run, b, 0)
  {
    CreatedInv(s);
    RunInv(s, run);
    RunClosed(s, run);
    RunShape(s, run);
    InterruptionsCounted(s, run, b);
    assert NewBatch(s.batches[b]);
    if AllFinished(Exec(s, run).batches) { EndedIsQuiet(Exec(s, run), b); }
    assert LinkOk(Exec(s, run), b);
  }

  /**
   When all batches have ended, or the job has settled, every item has a final status if and only if no interrupted
   item is left.
   */
  lemma AllAccountedExactly(s: State, run: seq<Label>)
    requires Created(s) && Valid(s, run) && Over(Exec(s, run))
    ensures var r := Exec(s, run);
      && (ClosedCount(r.batches) == r.job.totalItems <==> NoInterruption(s, run))
      && (!r.dirty ==> r.job.processed == ClosedCount(r.batches))
  {
    CreatedInv(s);
    RunInv(s, run);
    RunShape(s, run);
    var r := Exec(s, run);
    forall b | 0 <= b < |r.batches|
      ensures Tally(r.batches[b].items, ItemPending) == 0
      ensures Tally(r.batches[b].items, ItemRunning) == Interruptions(s, run, b, 0)
    {
      OverIsQuiet(s, run, b);
    }
    NoneLeft(r.batches, ItemPending);
    NoneLeft(r.batches, ItemRunning);
    TotalPartition(r.batches);
  }

  /** On a run without crashes, a settled job without an outstanding refresh has accounted for every item. */
  lemma CrashFreeRunsAccountForAll(s: State, run: seq<Label>)
    requires Created(s) && Valid(s, run) && Free(run, true)
    requires TerminalJob(Exec(s, run).job.status)
    ensures var r := Exec(s, run);
      && ClosedCount(r.batches) == r.job.totalItems
      && (!r.dirty ==> r.job.succeeded + r.job.failed + r.job.cancelled == r.job.processed == r.job.totalItems)
  {
    forall b | 0 <= b < |s.batches| ensures Interruptions(s, run, b, 0) == 0 { NoCrashNoInterruption(s, run, b); }
    AllAccountedExactly(s, run);
    FastCountersRefineRecount(s, run);
  }

  lemma RequestStays(s: State, l: Label)
    requires Enabled(s, l) && s.job.cancelRequested
    ensures Apply(s, l).job.cancelRequested
  {
  }

  lemma StaysUncancelled(s: State, l: Label)
    requires Enabled(s, l) && !l.Cancel? && !s.job.cancelRequested
    ensures !Apply(s, l).job.cancelRequested
  {
  }

  lemma {:induction false} NeverCancelled(s: State, run: seq<Label>)
    requires Inv(s) && Valid(s, run) && Free(run, false) && !s.job.cancelRequested
    ensures !Exec(s, run).job.cancelRequested
    decreases |run|
  {
    if run != [] {
      StepInv(s, run[0]);
      assert !run[0].Cancel?;
      StaysUncancelled(s, run[0]);
      forall k | 0 <= k < |run[1..]| ensures !run[1..][k].Cancel? { assert run[1..][k] == run[k + 1]; }
      NeverCancelled(Apply(s, run[0]), run[1..]);
    }
  }

  /**
   What a settled status means when nobody asked for a cancellation, no refresh is outstanding and no batch was put
   back: COMPLETED says that no item failed, FAILED that some failed and none succeeded, COMPLETED_WITH_ERRORS that
   some failed and some succeeded. A COMPLETED job has only successes if and only if no interrupted item is left in
   any of its batches.
   */
  lemma OutcomeMeaningExactly(s: State, run: seq<Label>)
    requires Created(s) && Valid(s, run) && TerminalJob(Exec(s, run).job.status)
    requires !Exec(s, run).job.cancelRequested && !Exec(s, run).dirty && AllFinished(Exec(s, run).batches)
    ensures var r := Exec(s, run);
            var ok := Total(r.batches, ItemSucceeded); var bad := Total(r.batches, ItemFailed);
      && (r.job.status == JobCompleted <==> bad == 0)
      && (r.job.status == JobFailed <==> bad > 0 && ok == 0)
      && (r.job.status == JobCompletedWithErrors <==> bad > 0 && ok > 0)
      && (ok + bad == ItemCount(r.batches) <==> NoInterruption(s, run))
      && (r.job.status == JobCompleted ==> (ok == ItemCount(r.batches) <==> NoInterruption(s, run)))
  {
    CreatedInv(s);
    RunInv(s, run);
    AllAccountedExactly(s, run);
  }

  /** Without crashes and cancellations the three outcomes partition the situations, and every item counts. */
  lemma OutcomeMeaning(s: State, run: seq<Label>)
    requires Created(s) && Valid(s, run) && Free(run, true) && Free(run, false)
    requires TerminalJob(Exec(s, run).job.status) && !Exec(s, run).dirty && AllFinished(Exec(s, run).batches)
    ensures var r := Exec(s, run);
            var ok := Total(r.batches, ItemSucceeded); var bad := Total(r.batches, ItemFailed);
      && ok + bad == ItemCount(r.batches)
      && (r.job.status == JobCompleted <==> ok == ItemCount(r.batches))
      && (r.job.status == JobFailed <==> bad > 0 && ok == 0)
      && (r.job.status == JobCompletedWithErrors <==> bad > 0 && ok > 0)
  {
    CreatedInv(s);
    NeverCancelled(s, run);
    forall b | 0 <= b < |s.batches| ensures Interruptions(s, run, b, 0) == 0 { NoCrashNoInterruption(s, run, b); }
    OutcomeMeaningExactly(s, run);
  }

  /** A batch that ended by itself reports its own items exactly. */
  lemma BatchReportExact(s: State, run: seq<Label>, b: nat)
    requires Created(s) && Valid(s, run) && b < |Exec(s, run).batches|
    requires Exec(s, run).batches[b].status in {BatchCompleted, BatchCompletedWithErrors}
    ensures var x := Exec(s, run).batches[b];
      && x.counts == TallyAll(x.items)
      && (x.status == BatchCompletedWithErrors <==> exists i :: 0 <= i < |x.items| && x.items[i].status == ItemFailed)
  {
    CreatedInv(s);
    RunInv(s, run);
    var x := Exec(s, run).batches[b];
    assert RowsOk(x);
    TallyZero(x.items, ItemFailed);
  }

  /**
   A cancelled batch reports its own items exactly, unless the processor that cancelled it after its claim leaves the
   counters as they are.
   */
  ghost predicate CancelReported(s: State, b: nat)
    requires b < |s.batches|
  {
    var x := s.batches[b];
    x.status == BatchCancelled && (s.early || x.attempts == 0) ==>
      && x.counts.succeeded == Tally(x.items, ItemSucceeded)
      && x.counts.failed == Tally(x.items, ItemFailed)
      && x.counts.cancelled == Tally(x.items, ItemCancelled)
  }

  lemma CancelReportedStep(s: State, l: Label, b: nat)
    requires Inv(s) && Enabled(s, l) && b < |s.batches| && CancelReported(s, b)
    ensures b < |Apply(s, l).batches| && CancelReported(Apply(s, l), b)
  {
    if MessageOf(l).Some? {
      assert MessageOk(s, l.t);
      if s.msgs[l.t].batch != b { OtherBatch(s, l, b); } else { CancelReportedWorker(s, l, b); }
    } else {
      CancelReportedUser(s, l, b);
    }
  }

  lemma CancelReportedUser(s: State, l: Label, b: nat)
    requires Enabled(s, l) && MessageOf(l).None? && b < |s.batches| && CancelReported(s, b)
    ensures b < |Apply(s, l).batches| && CancelReported(Apply(s, l), b)
  {
  }

  lemma CancelReportedWorker(s: State, l: Label, b: nat)
    requires Enabled(s, l) && MessageOf(l).Some? && MessageOk(s, l.t) && s.msgs[l.t].batch == b
    requires b < |s.batches| && CancelReported(s, b)
    ensures b < |Apply(s, l).batches| && CancelReported(Apply(s, l), b)
  {
  }

  /** Along every run a cancelled batch reports its own items. */
  lemma {:induction false} CancelReportExact(s: State, run: seq<Label>, b: nat)
    requires Inv(s) && Valid(s, run) && b < |s.batches| && CancelReported(s, b)
    ensures b < |Exec(s, run).batches| && CancelReported(Exec(s, run), b)
    decreases |run|
  {
    if run != [] {
      CancelReportedStep(s, run[0], b);
      StepInv(s, run[0]);
      CancelReportExact(Apply(s, run[0]), run[1..], b);
    }
  }

  // ---------------------------------------------------------------- the status of the job

  ghost predicate SomeItem(batches: seq<Batch>, st: ItemStatus) {
    exists b, i :: 0 <= b < |batches| && 0 <= i < |batches[b].items| && batches[b].items[i].status == st
  }

  lemma {:induction false} SomeItemCounted(batches: seq<Batch>, st: ItemStatus)
    ensures Total(batches, st) > 0 <==> SomeItem(batches, st)
  {
    if batches != [] {
      var n := |batches| - 1;
      SomeItemCounted(batches[..n], st);
      TallyZero(batches[n].items, st);
      if SomeItem(batches[..n], st) {
        var b, i :| 0 <= b < n && 0 <= i < |batches[..n][b].items| && batches[..n][b].items[i].status == st;
        assert batches[b].items[i].status == st;
      }
      if b, i :| 0 <= b < n && 0 <= i < |batches[b].items| && batches[b].items[i].status == st {
        assert batches[..n][b].items[i].status == st;
      }
    }
  }

  /** The status a job settles with, by its request and its items. */
  ghost predicate Settles(cancelRequested: bool, batches: seq<Batch>, st: JobStatus) {
    match st
    case JobCancelled => cancelRequested
    case JobCompleted => !cancelRequested && !SomeItem(batches, ItemFailed)
    case JobFailed => !cancelRequested && SomeItem(batches, ItemFailed) && !SomeItem(batches, ItemSucceeded)
    case JobCompletedWithErrors =>
      !cancelRequested && SomeItem(batches, ItemFailed) && SomeItem(batches, ItemSucceeded)
    case _ => false
  }

  /** What one commit does to the status of the job. */
  lemma StatusMoves(s: State, l: Label)
    requires Inv(s) && Enabled(s, l)
    ensures var was, now := s.job.status, Apply(s, l).job.status;
      match l
      case DispatchFailed => now == JobDispatchFailed
      case Resume => now == JobQueued
      case Cancel => now == JobCancelRequested
      case Claim(_) => now == if was in {JobCancelRequested, JobCancelled, JobDispatchFailed} then was else JobRunning
      case Refresh(_) => if AllFinished(s.batches) then Settles(s.job.cancelRequested, s.batches, now) else now == was
      case RefreshNow => if AllFinished(s.batches) then Settles(s.job.cancelRequested, s.batches, now) else now == was
      case _ => now == was
  {
    if l.Refresh? || l.RefreshNow? { RecountStatus(s.job, s.batches); }
  }

  lemma RecountStatus(j: Job, batches: seq<Batch>)
    requires j.totalBatches == |batches|
    ensures var now := Recount(j, batches).status;
      if AllFinished(batches) then Settles(j.cancelRequested, batches, now) else now == j.status
  {
    SomeItemCounted(batches, ItemFailed);
    SomeItemCounted(batches, ItemSucceeded);
    FinishedCountAll(batches);
  }
}
