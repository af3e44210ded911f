/**
 One job, its dispatch calls, its broker messages and its workers, as a step system.

 Every block of code that ends in a commit to these rows is one label. A label reads the current rows.
 The order of labels is arbitrary, so a run is any list of enabled labels and covers every interleaving
 of the API, the dispatcher, the workers and the broker.
 */
module JobProtocol {
  import opened Prelude
  import opened JobModel

  /**
   What a message is doing. Waiting: in the queue. Held: given to a worker that has not claimed the
   batch. Claimed: the worker loops over the items. Executing: it runs the payload of item `item`.
   Closing: `process` ended the batch and its `refresh_progress` is still to come. Leaving: that refresh
   is done. Marked: an exception left `process`, `mark_failed` committed and its refresh is still to come.
   Done: only the ack is left.
   */
  datatype Phase = Waiting | Held | Claimed | Executing(item: nat) | Closing | Leaving | Marked | Done

  datatype Message = Message(batch: nat, phase: Phase)

  /**
   `scanning` counts the dispatch calls that are between two batches. `stored` maps the task ids that
   were committed to a batch and not yet published to that batch. `owing` counts the dispatch calls that
   an exception has left and whose caller has not written DISPATCH_FAILED yet. `revocable` holds the ids
   a cancellation asked the broker to revoke. `cancels` counts the calls of `cancel_job` that have
   committed and not yet refreshed. `dirty` says that rows were written that the increments of the job
   row do not cover, and no `refresh_progress` has come after it. `early` is the order of the cancel
   check: true for ingestion and silver, which look before the claim, and false for email, which looks
   after it.
   */
  datatype State = State(
    job: Job,
    batches: seq<Batch>,
    msgs: map<TaskId, Message>,
    stored: map<TaskId, nat>,
    revocable: set<TaskId>,
    nextId: TaskId,
    scanning: nat,
    owing: nat,
    cancels: nat,
    dirty: bool,
    early: bool)

  datatype Label =
    | Store(b: nat)                                        // dispatch_job: commit a fresh task id
    | PublishOk(t: TaskId)                                 // dispatch_job: apply_async returns
    | PublishFail(t: TaskId, delivered: bool)              // apply_async raises; the batch is put back
    | DispatchError                                        // dispatch_job raises between two batches
    | DispatchFailed                                       // the caller of a call that raised: DISPATCH_FAILED
    | DispatchDone                                         // dispatch_job returns
    | Resume                                               // retry_job on a job with batches to publish
    | Cancel                                               // cancel_job, up to its commit
    | RefreshNow                                           // refresh_progress called by cancel_job
    | Deliver(t: TaskId)                                   // the broker gives the message to a worker
    | Ack(t: TaskId)                                       // stale id, ended batch, or all done
    | DropRevoked(t: TaskId)                               // the broker honours a revocation
    | EarlyCancel(t: TaskId)                               // cancel seen before the claim
    | Claim(t: TaskId)
    | StartItem(t: TaskId, item: nat)
    | EndItem(t: TaskId, success: bool, result: string)
    | CancelRest(t: TaskId)                                // cancel seen after the claim
    | EndBatch(t: TaskId)
    | MarkFailed(t: TaskId)                                // an exception leaves process, at any point
    | Refresh(t: TaskId)                                   // refresh_progress called by the worker
    | Crash(t: TaskId)                                     // worker lost, or celery retry of the same id

  // ---------------------------------------------------------------- guards

  predicate HasPending(s: State) {
    exists b :: 0 <= b < |s.batches| && s.batches[b].status == BatchPending
  }

  /** No dispatch call is between two batches or between the store and the publication of an id. */
  predicate NothingPublishing(s: State) {
    s.scanning == 0 && s.stored == map[]
  }

  /** No dispatch call is under way, and no caller of one still has to record that it failed. */
  predicate DispatchIdle(s: State) {
    NothingPublishing(s) && s.owing == 0
  }

  /** Message `t` is with a worker and its batch still carries its id. */
  predicate Current(s: State, t: TaskId) {
    && t in s.msgs
    && s.msgs[t].batch < |s.batches|
    && s.batches[s.msgs[t].batch].taskId == Some(t)
  }

  function BatchOf(s: State, t: TaskId): Batch
    requires Current(s, t)
  {
    s.batches[s.msgs[t].batch]
  }

  predicate InPhase(s: State, t: TaskId, phase: Phase) {
    t in s.msgs && s.msgs[t].phase == phase
  }

  /** A worker is past the claim and between two items. */
  predicate Looping(s: State, t: TaskId) {
    Current(s, t) && s.msgs[t].phase == Claimed
  }

  predicate Enabled(s: State, l: Label) {
    match l
    case Store(b) => s.scanning > 0 && b < |s.batches| && s.batches[b].status == BatchPending
    case PublishOk(t) => t in s.stored
    case PublishFail(t, _) => t in s.stored && s.stored[t] < |s.batches|
    case DispatchError => s.scanning > 0
    case DispatchFailed => s.owing > 0
    case DispatchDone => s.scanning > 0
    case Resume => HasPending(s) && !TerminalJob(s.job.status)
    case Cancel => !TerminalJob(s.job.status)
    case RefreshNow => s.cancels > 0
    case Deliver(t) => InPhase(s, t, Waiting)
    case Ack(t) =>
      || (InPhase(s, t, Held) && (!Current(s, t) || FinishedBatch(BatchOf(s, t).status)))
      || InPhase(s, t, Leaving) || InPhase(s, t, Done)
    case DropRevoked(t) => InPhase(s, t, Waiting) && t in s.revocable
    case EarlyCancel(t) =>
      && InPhase(s, t, Held) && Current(s, t) && !FinishedBatch(BatchOf(s, t).status)
      && s.early && CancelSeen(s.job.status)
    case Claim(t) =>
      && InPhase(s, t, Held) && Current(s, t) && !FinishedBatch(BatchOf(s, t).status)
      && !(s.early && CancelSeen(s.job.status))
    case StartItem(t, i) =>
      && Looping(s, t) && !CancelSeen(s.job.status)
      && i < |BatchOf(s, t).items| && BatchOf(s, t).items[i].status == ItemPending
    case EndItem(t, _, _) =>
      && Current(s, t) && s.msgs[t].phase.Executing? && s.msgs[t].phase.item < |BatchOf(s, t).items|
    case CancelRest(t) => Looping(s, t) && CancelSeen(s.job.status)
    case EndBatch(t) =>
      Looping(s, t) && forall i :: 0 <= i < |BatchOf(s, t).items| ==> BatchOf(s, t).items[i].status != ItemPending
    case MarkFailed(t) => t in s.msgs && s.msgs[t].batch < |s.batches| && s.msgs[t].phase !in {Waiting, Marked, Done}
    case Refresh(t) => InPhase(s, t, Closing) || InPhase(s, t, Marked)
    case Crash(t) => t in s.msgs && s.msgs[t].phase != Waiting
  }

  // ---------------------------------------------------------------- effects

  function SetPhase(s: State, t: TaskId, phase: Phase): State
    requires t in s.msgs
  {
    s.(msgs := s.msgs[t := s.msgs[t].(phase := phase)])
  }

  function SetBatch(s: State, t: TaskId, x: Batch, phase: Phase): State
    requires Current(s, t)
  {
    SetPhase(s.(batches := s.batches[s.msgs[t].batch := x]), t, phase)
  }

  function ApplyStore(s: State, b: nat): State
    requires b < |s.batches| && s.scanning > 0
  {
    s.(batches := s.batches[b := s.batches[b].(status := BatchQueued, taskId := Some(s.nextId))],
       stored := s.stored[s.nextId := b],
       nextId := s.nextId + 1,
       scanning := s.scanning - 1)
  }

  function ApplyPublishOk(s: State, t: TaskId): State
    requires t in s.stored
  {
    s.(msgs := s.msgs[t := Message(s.stored[t], Waiting)], stored := s.stored - {t}, scanning := s.scanning + 1)
  }

  /** The broker may hold the message although the publisher saw an error. The job row comes later. */
  function ApplyPublishFail(s: State, t: TaskId, delivered: bool): State
    requires t in s.stored && s.stored[t] < |s.batches|
  {
    var b := s.stored[t];
    s.(batches := s.batches[b := s.batches[b].(status := BatchPending, taskId := None)],
       msgs := if delivered then s.msgs[t := Message(b, Waiting)] else s.msgs,
       stored := s.stored - {t},
       owing := s.owing + 1)
  }

  function TaskIds(batches: seq<Batch>): set<TaskId> {
    set b | 0 <= b < |batches| && batches[b].taskId.Some? :: batches[b].taskId.value
  }

  function ApplyCancel(s: State): State {
    s.(job := s.job.(status := JobCancelRequested, cancelRequested := true),
       batches := CancelIdle(s.batches),
       revocable := s.revocable + TaskIds(s.batches),
       cancels := s.cancels + 1,
       dirty := true)
  }

  function ApplyClaim(s: State, t: TaskId): State
    requires Current(s, t)
  {
    SetBatch(s, t, ClaimedBatch(BatchOf(s, t)), Claimed)
      .(job := s.job.(status := MarkRunning(s.job.status)))
  }

  function ApplyStartItem(s: State, t: TaskId, i: nat): State
    requires Current(s, t) && i < |BatchOf(s, t).items|
  {
    var x := BatchOf(s, t);
    SetBatch(s, t, x.(items := x.items[i := StartedItem(x.items[i])]), Executing(i))
  }

  /** The worker does not look at the rows again, so it also ends an item that `mark_failed` has failed meanwhile. */
  function ApplyEndItem(s: State, t: TaskId, success: bool, result: string): State
    requires Current(s, t) && s.msgs[t].phase.Executing? && s.msgs[t].phase.item < |BatchOf(s, t).items|
  {
    var x := BatchOf(s, t);
    var i := s.msgs[t].phase.item;
    var again := x.items[i].status != ItemRunning;
    SetBatch(s, t, x.(items := x.items[i := EndedItem(x.items[i], success, result)],
                      counts := CountEnd(x.counts, success)), Claimed)
      .(job := IncrementProgress(s.job, success), dirty := s.dirty || again)
  }

  /** `mark_failed` looks only at the batch, not at the id of the message. */
  function ApplyMarkFailed(s: State, t: TaskId): State
    requires t in s.msgs && s.msgs[t].batch < |s.batches|
  {
    var b := s.msgs[t].batch;
    SetPhase(s.(batches := s.batches[b := FailedBatch(s.batches[b])], dirty := true), t, Marked)
  }

  function Refreshed(s: State): State {
    s.(job := Recount(s.job, s.batches), dirty := false)
  }

  /** A block that ends the batch of message `t`; the recount comes later. */
  function Close(s: State, t: TaskId, x: Batch): State
    requires Current(s, t)
  {
    SetBatch(s, t, x, Closing).(dirty := true)
  }

  /** The worker of message `t` executes an item that is running; losing it leaves the item running. */
  predicate Interrupts(s: State, t: TaskId) {
    && Current(s, t) && s.msgs[t].phase.Executing? && s.msgs[t].phase.item < |BatchOf(s, t).items|
    && BatchOf(s, t).items[s.msgs[t].phase.item].status == ItemRunning
  }

  function ApplyCrash(s: State, t: TaskId): State
    requires t in s.msgs
  {
    if Interrupts(s, t) then SetBatch(s, t, BatchOf(s, t).(interrupted := BatchOf(s, t).interrupted + 1), Waiting)
    else
      SetPhase(s, t, Waiting)
  }

  function Apply(s: State, l: Label): State
    requires Enabled(s, l)
  {
    match l
    case Store(b) => ApplyStore(s, b)
    case PublishOk(t) => ApplyPublishOk(s, t)
    case PublishFail(t, delivered) => ApplyPublishFail(s, t, delivered)
    case DispatchError => s.(scanning := s.scanning - 1, owing := s.owing + 1)
    case DispatchFailed => s.(job := s.job.(status := JobDispatchFailed), owing := s.owing - 1)
    case DispatchDone => s.(scanning := s.scanning - 1)
    case Resume => s.(job := s.job.(status := JobQueued), scanning := s.scanning + 1)
    case Cancel => ApplyCancel(s)
    case RefreshNow => Refreshed(s).(cancels := s.cancels - 1)
    case Deliver(t) => SetPhase(s, t, Held)
    case Ack(t) => s.(msgs := s.msgs - {t})
    case DropRevoked(t) => s.(msgs := s.msgs - {t})
    case EarlyCancel(t) => Close(s, t, CancelledBatch(BatchOf(s, t), s.early))
    case Claim(t) => ApplyClaim(s, t)
    case StartItem(t, i) => ApplyStartItem(s, t, i)
    case EndItem(t, success, result) => ApplyEndItem(s, t, success, result)
    case CancelRest(t) => Close(s, t, CancelledBatch(BatchOf(s, t), s.early))
    case EndBatch(t) => Close(s, t, EndedBatch(BatchOf(s, t)))
    case MarkFailed(t) => ApplyMarkFailed(s, t)
    case Refresh(t) => SetPhase(Refreshed(s), t, if s.msgs[t].phase == Closing then Leaving else Done)
    case Crash(t) => ApplyCrash(s, t)
  }

  // ---------------------------------------------------------------- runs

  /** Every label of `run` is enabled when its turn comes. */
  ghost predicate Valid(s: State, run: seq<Label>)
    decreases |run|
  {
    run == [] || (Enabled(s, run[0]) && Valid(Apply(s, run[0]), run[1..]))
  }

  ghost function Exec(s: State, run: seq<Label>): State
    requires Valid(s, run)
    decreases |run|
  {
    if run == [] then s else Exec(Apply(s, run[0]), run[1..])
  }

  lemma {:induction false} ExecAppend(s: State, run: seq<Label>, more: seq<Label>)
    requires Valid(s, run) && Valid(Exec(s, run), more)
    ensures Valid(s, run + more) && Exec(s, run + more) == Exec(Exec(s, run), more)
    decreases |run|
  {
    if run == [] {
      assert run + more == more;
    } else {
      var rest := run[1..];
      ExecAppend(Apply(s, run[0]), rest, more);
      RunCons(s, run[0], rest + more);
      ConsAppend(run, more);
    }
  }

  lemma ConsAppend(run: seq<Label>, more: seq<Label>)
    requires run != []
    ensures [run[0]] + (run[1..] + more) == run + more
  {
  }

  lemma RunCons(s: State, l: Label, rest: seq<Label>)
    requires Enabled(s, l) && Valid(Apply(s, l), rest)
    ensures Valid(s, [l] + rest) && Exec(s, [l] + rest) == Exec(Apply(s, l), rest)
  {
    assert ([l] + rest)[0] == l && ([l] + rest)[1..] == rest;
  }

  lemma RunSnoc(s: State, run: seq<Label>, l: Label)
    requires Valid(s, run) && Enabled(Exec(s, run), l)
    ensures Valid(s, run + [l]) && Exec(s, run + [l]) == Apply(Exec(s, run), l)
  {
    RunOne(Exec(s, run), l);
    ExecAppend(s, run, [l]);
  }

  lemma RunOne(s: State, l: Label)
    requires Enabled(s, l)
    ensures Valid(s, [l]) && Exec(s, [l]) == Apply(s, l)
  {
    assert [l][1..] == [];
  }

  // ---------------------------------------------------------------- the first state

  predicate NewItem(x: Item) {
    x.status == ItemPending && x.attempts == 0 && x.payload == x.origin
  }

  predicate NewBatch(x: Batch) {
    && x.status == BatchPending && x.taskId == None && x.attempts == 0 && x.interrupted == 0
    && x.counts == Counts(0, 0, 0)
    && x.totalItems == |x.items| && |x.items| > 0
    && forall i :: 0 <= i < |x.items| ==> NewItem(x.items[i])
  }

  /** What `create_job` commits before it calls the dispatcher. */
  ghost predicate Created(s: State) {
    && |s.batches| > 0
    && (forall b :: 0 <= b < |s.batches| ==> NewBatch(s.batches[b]))
    && s.job == Job(JobQueued, false, ItemCount(s.batches), 0, 0, 0, 0, |s.batches|, 0)
    && s.msgs == map[] && s.stored == map[] && s.revocable == {} && s.scanning == 1
    && s.owing == 0 && s.cancels == 0 && !s.dirty
  }
}
