/**
 The control flow of `process` and of `dispatch_job` under interference. Between two commits of the
 code, any other dispatcher, worker, user or broker step may happen: `script` is an arbitrary list of
 such steps, and every one that is enabled and not a step of the caller itself is taken. The methods
 are proved to take only enabled steps, to end, and to leave the batch as the protocol wants it.
 */
module JobWorkers {
  import opened Prelude
  import opened JobModel
  import opened JobProtocol
  import opened JobInvariant
  import opened JobTheorems

  /** The task id a step belongs to, for worker steps and for publications. */
  function OwnerOf(l: Label): Option<TaskId> {
    match l
    case PublishOk(t) => Some(t)
    case PublishFail(t, _) => Some(t)
    case _ => MessageOf(l)
  }

  /** What a caller holds of the dispatch calls: calls that scan, and failures that are still to be recorded. */
  datatype Hold = Hold(scanning: nat, owing: nat)

  predicate Keeps(s: State, keep: Hold) {
    s.scanning >= keep.scanning && s.owing >= keep.owing
  }

  /** `l` is a step of somebody else than the holder of task id `t` and of the dispatch calls in `keep`. */
  predicate Foreign(s: State, l: Label, t: Option<TaskId>, keep: Hold)
    requires Enabled(s, l)
  {
    (t == None || OwnerOf(l) != t) && Keeps(Apply(s, l), keep)
  }

  /** What a call of `mark_failed` for another message may make of a batch that is being processed. */
  ghost predicate Weathered(x: Batch, y: Batch) {
    && |y.items| == |x.items|
    && (y.status == x.status || y.status == BatchFailed)
    && forall i :: 0 <= i < |x.items| ==> y.items[i] == x.items[i] || y.items[i] == FailItem(x.items[i])
  }

  lemma FailedIsWeathered(x: Batch)
    ensures Weathered(x, FailedBatch(x))
  {
  }

  /** Nobody else touches the message of a worker; its batch can only be failed under its hands. */
  lemma ForeignStep(s: State, l: Label, t: TaskId)
    requires Inv(s) && Enabled(s, l) && OwnerOf(l) != Some(t) && t in s.msgs
    ensures t in Apply(s, l).msgs && Apply(s, l).msgs[t] == s.msgs[t]
    ensures Busy(s, t) ==>
              && Current(s, t) && Current(Apply(s, l), t)
              && Weathered(BatchOf(s, t), BatchOf(Apply(s, l), t))
  {
    assert MessageOk(s, t);
    match OwnerOf(l)
    case None => UnownedStep(s, l, t);
    case Some(u) =>
      if u in s.stored { assert StoredOk(s, u); }
      if u in s.msgs && !l.PublishFail? && !l.PublishOk? { OtherWorkerStep(s, l, t, u); }
  }

  /** A step of a user or of a dispatch call that scans. */
  lemma UnownedStep(s: State, l: Label, t: TaskId)
    requires Structure(s) && Enabled(s, l) && OwnerOf(l) == None && t in s.msgs
    ensures Apply(s, l).msgs == s.msgs
    ensures Busy(s, t) ==> Current(s, t) && Current(Apply(s, l), t) && BatchOf(Apply(s, l), t) == BatchOf(s, t)
  {
    assert MessageOk(s, t);
  }

  /** The worker of message `t` is past the claim and its refresh is still to come. */
  predicate Busy(s: State, t: TaskId) {
    Working(s, t) || InPhase(s, t, Closing)
  }

  /** A block of another worker changes the batch of its own message at most, and that of `t` only by `mark_failed`. */
  lemma OtherWorkerStep(s: State, l: Label, t: TaskId, u: TaskId)
    requires Inv(s) && Enabled(s, l) && MessageOf(l) == Some(u) && u != t && t in s.msgs && u in s.msgs
    ensures t in Apply(s, l).msgs && Apply(s, l).msgs[t] == s.msgs[t]
    ensures Busy(s, t) ==>
              && Current(s, t) && Current(Apply(s, l), t)
              && Weathered(BatchOf(s, t), BatchOf(Apply(s, l), t))
  {
    assert MessageOk(s, t) && MessageOk(s, u);
    if l.MarkFailed? {
      FailedIsWeathered(s.batches[s.msgs[u].batch]);
    } else {
      OtherBatchStep(s, l, t, u);
    }
  }

  lemma OtherBatchStep(s: State, l: Label, t: TaskId, u: TaskId)
    requires Enabled(s, l) && MessageOf(l) == Some(u) && u != t && t in s.msgs && u in s.msgs && !l.MarkFailed?
    ensures t in Apply(s, l).msgs && Apply(s, l).msgs[t] == s.msgs[t]
    ensures Current(s, t) ==> Current(Apply(s, l), t) && BatchOf(Apply(s, l), t) == BatchOf(s, t)
  {
  }

  lemma ForeignStored(s: State, l: Label, t: TaskId)
    requires Inv(s) && Enabled(s, l) && OwnerOf(l) != Some(t) && t in s.stored
    ensures t in Apply(s, l).stored && Apply(s, l).stored[t] == s.stored[t]
  {
    if MessageOf(l).Some? { WorkersKeepStored(s, l); } else { assert StoredOk(s, t); }
  }

  lemma WorkersKeepStored(s: State, l: Label)
    requires Enabled(s, l) && MessageOf(l).Some?
    ensures Apply(s, l).stored == s.stored
  {
  }

  /** What foreign steps leave as it is for the holder of task id `t`. */
  ghost predicate Shielded(s: State, r: State, t: TaskId) {
    && r.early == s.early
    && |r.batches| == |s.batches|
    && (t in s.msgs ==> t in r.msgs && r.msgs[t] == s.msgs[t])
    && (t in s.stored ==> t in r.stored && r.stored[t] == s.stored[t])
    && (s.job.cancelRequested ==> r.job.cancelRequested)
    && (Busy(s, t) ==> Current(s, t) && Current(r, t) && Weathered(BatchOf(s, t), BatchOf(r, t)))
  }

  /** `run` leads from `from`, a state that keeps the invariant, to `s`. */
  ghost predicate Logged(from: State, run: seq<Label>, s: State) {
    Inv(from) && Valid(from, run) && Exec(from, run) == s
  }

  lemma LogStep(from: State, run: seq<Label>, s: State, l: Label)
    requires Logged(from, run, s) && Enabled(s, l)
    ensures Logged(from, run + [l], Apply(s, l))
  {
    RunSnoc(from, run, l);
  }

  lemma LoggedInv(from: State, run: seq<Label>, s: State)
    requires Logged(from, run, s)
    ensures Inv(s)
  {
    RunInv(from, run);
  }

  lemma LoggedMessage(from: State, run: seq<Label>, s: State, t: TaskId)
    requires Logged(from, run, s) && t in s.msgs
    ensures MessageOk(s, t)
  {
    RunInv(from, run);
  }

  lemma LoggedEnd(from: State, run: seq<Label>, s: State, t: TaskId)
    requires Logged(from, run, s) && InPhase(s, t, Closing)
    ensures Current(s, t) && FinishedBatch(BatchOf(s, t).status) && Tally(BatchOf(s, t).items, ItemPending) == 0
  {
    RunInv(from, run);
    assert MessageOk(s, t) && RowsOk(BatchOf(s, t));
  }

  lemma ShieldSelf(from: State, run: seq<Label>, s: State, t: TaskId)
    requires Logged(from, run, s)
    ensures Shielded(s, s, t)
  {
    if t in s.msgs { LoggedMessage(from, run, s, t); }
  }

  lemma ShieldStep(from: State, run: seq<Label>, s: State, l: Label, t: TaskId)
    requires Logged(from, run, s) && Enabled(s, l) && OwnerOf(l) != Some(t)
    ensures Shielded(s, Apply(s, l), t)
  {
    RunInv(from, run);
    StepInterruptions(s, l, 0);
    if s.job.cancelRequested { RequestStays(s, l); }
    if t in s.msgs { ForeignStep(s, l, t); }
    if t in s.stored { ForeignStored(s, l, t); }
  }

  lemma ShieldTrans(a: State, b: State, c: State, t: TaskId)
    requires Shielded(a, b, t) && Shielded(b, c, t)
    ensures Shielded(a, c, t)
  {
  }

  /** How the execution of a payload ends: with a result, or by raising. */
  datatype Outcome = Returns(result: string) | Raises

  /** The outcome of item `i`; what the list does not reach raises. */
  function OutcomeAt(outcomes: seq<Outcome>, i: nat): (o: Outcome)
    ensures i < |outcomes| ==> o == outcomes[i]
  {
    if i < |outcomes| then outcomes[i] else Raises
  }

  /** `y` is the pending item `x` after its payload was executed once, with the outcome `o`. */
  ghost predicate Executed(x: Item, y: Item, o: Outcome) {
    && y.reference == x.reference && y.origin == x.origin && y.attempts == x.attempts + 1
    && match o
       case Returns(result) => y.status == ItemSucceeded && y.payload == Some(result)
       case Raises => y.status == ItemFailed && y.payload == x.payload
  }

  /** `y` is the item `x` as it was, or failed by somebody else before it ended. */
  ghost predicate Spared(x: Item, y: Item, alone: bool) {
    y == x || (!alone && x.status in {ItemPending, ItemRunning} && y == x.(status := ItemFailed))
  }

  /** What one turn of the loop, and then other workers, can make of an item. */
  ghost predicate Fate(x: Item, y: Item, o: Outcome, alone: bool) {
    if x.status == ItemPending then Executed(x, y, o) || (!alone && y == x.(status := ItemFailed))
    else Spared(x, y, alone)
  }

  /** The first `n` items of `xs` had their turn, and `ys` is what they are now. */
  ghost predicate Worked(xs: seq<Item>, ys: seq<Item>, outcomes: seq<Outcome>, n: nat, alone: bool) {
    && |ys| == |xs|
    && (forall k :: 0 <= k < |xs| && k < n ==> Fate(xs[k], ys[k], OutcomeAt(outcomes, k), alone))
    && forall k :: n <= k < |xs| ==> Spared(xs[k], ys[k], alone)
  }

  /**
   What `process` makes of the items of its batch: every item that was pending ends as its outcome says, or was
   failed by `mark_failed`, or was cancelled, which needs a cancellation; the others are as before or were failed.
   */
  ghost predicate Ends(xs: seq<Item>, ys: seq<Item>, outcomes: seq<Outcome>, alone: bool, cancelled: bool) {
    && |ys| == |xs|
    && forall k :: 0 <= k < |xs| ==>
         || Fate(xs[k], ys[k], OutcomeAt(outcomes, k), alone)
         || (cancelled && xs[k].status == ItemPending && ys[k] == xs[k].(status := ItemCancelled))
  }

  /** More foreign steps change none of this. */
  lemma WorkedWeathers(xs: seq<Item>, x: Batch, y: Batch, outcomes: seq<Outcome>, n: nat)
    requires Worked(xs, x.items, outcomes, n, false) && Weathered(x, y)
    ensures Worked(xs, y.items, outcomes, n, false)
  {
    forall k | 0 <= k < |xs|
      ensures k < n ==> Fate(xs[k], y.items[k], OutcomeAt(outcomes, k), false)
      ensures k >= n ==> Spared(xs[k], y.items[k], false)
    {
      assert y.items[k] == x.items[k] || y.items[k] == FailItem(x.items[k]);
    }
  }

  lemma EndsWeathers(xs: seq<Item>, x: Batch, y: Batch, outcomes: seq<Outcome>, cancelled: bool)
    requires Ends(xs, x.items, outcomes, false, cancelled) && Weathered(x, y)
    ensures Ends(xs, y.items, outcomes, false, cancelled)
  {
    forall k | 0 <= k < |xs|
      ensures || Fate(xs[k], y.items[k], OutcomeAt(outcomes, k), false)
              || (cancelled && xs[k].status == ItemPending && y.items[k] == xs[k].(status := ItemCancelled))
    {
      assert y.items[k] == x.items[k] || y.items[k] == FailItem(x.items[k]);
    }
  }

  /** Item `i` before and after its turn, with foreign steps between its two commits. */
  ghost predicate Turned(s: State, r: State, t: TaskId, i: nat, o: Outcome, alone: bool) {
    && Current(s, t) && Looping(r, t)
    && i < |BatchOf(r, t).items| == |BatchOf(s, t).items|
    && Executed(BatchOf(s, t).items[i], BatchOf(r, t).items[i], o)
    && forall k :: 0 <= k < |BatchOf(r, t).items| && k != i ==>
         Spared(BatchOf(s, t).items[k], BatchOf(r, t).items[k], alone)
  }

  lemma StartedBusy(s: State, t: TaskId, i: nat)
    requires Enabled(s, StartItem(t, i))
    ensures var m := ApplyStartItem(s, t, i);
      && Busy(m, t) && m.msgs[t].phase == Executing(i)
      && BatchOf(m, t).items == BatchOf(s, t).items[i := StartedItem(BatchOf(s, t).items[i])]
  {
  }

  /** The second commit of `_process_item`, by the outcome of the payload. */
  function EndLabel(t: TaskId, o: Outcome): Label {
    EndItem(t, o.Returns?, if o.Returns? then o.result else "")
  }

  lemma ItemTurned(s: State, m: State, r: State, t: TaskId, i: nat, o: Outcome, alone: bool)
    requires Enabled(s, StartItem(t, i)) && m == ApplyStartItem(s, t, i) && Shielded(m, r, t) && (alone ==> r == m)
    ensures Enabled(r, EndLabel(t, o)) && Turned(s, Apply(r, EndLabel(t, o)), t, i, o, alone)
    ensures alone ==> Still(s, Apply(r, EndLabel(t, o)), t)
  {
    StartedBusy(s, t, i);
    assert Weathered(BatchOf(m, t), BatchOf(r, t));
  }

  /** Nothing but the batch and the message of `t` and the counters of the job has changed. */
  ghost predicate Still(s: State, r: State, t: TaskId) {
    && Current(s, t) && Current(r, t) && r.msgs[t].batch == s.msgs[t].batch && r.early == s.early
    && r.batches == s.batches[s.msgs[t].batch := BatchOf(r, t)]
    && CancelSeen(r.job.status) == CancelSeen(s.job.status)
  }

  /** What `process` leaves when nobody else does anything; `seen` says whether the job was cancelled before. */
  ghost predicate LeftAlone(xs: seq<Item>, x: Batch, outcomes: seq<Outcome>, seen: bool) {
    if seen then
      && x.status == BatchCancelled && |x.items| == |xs|
      && forall k :: 0 <= k < |xs| ==>
           x.items[k] == if xs[k].status == ItemPending then xs[k].(status := ItemCancelled) else xs[k]
    else
      && Worked(xs, x.items, outcomes, |xs|, true)
      && x.status in {BatchCompleted, BatchCompletedWithErrors}
      && (x.status == BatchCompletedWithErrors <==> exists k :: 0 <= k < |x.items| && x.items[k].status == ItemFailed)
  }

  lemma WorkedStep(xs: seq<Item>, s: State, r: State, t: TaskId, outcomes: seq<Outcome>, i: nat, alone: bool)
    requires Current(s, t) && Worked(xs, BatchOf(s, t).items, outcomes, i, alone)
    requires Turned(s, r, t, i, OutcomeAt(outcomes, i), alone) && BatchOf(s, t).items[i].status == ItemPending
    ensures Worked(xs, BatchOf(r, t).items, outcomes, i + 1, alone)
  {
    var ys, zs := BatchOf(s, t).items, BatchOf(r, t).items;
    assert Spared(xs[i], ys[i], alone);
    forall k | 0 <= k < |xs| && k != i
      ensures k < i ==> Fate(xs[k], zs[k], OutcomeAt(outcomes, k), alone)
      ensures k > i ==> Spared(xs[k], zs[k], alone)
    {
      assert Spared(ys[k], zs[k], alone);
    }
  }

  /** An item that is not pending any more at its turn is passed over. */
  lemma WorkedSkip(xs: seq<Item>, ys: seq<Item>, outcomes: seq<Outcome>, i: nat, alone: bool)
    requires Worked(xs, ys, outcomes, i, alone) && i < |ys| && ys[i].status != ItemPending
    ensures Worked(xs, ys, outcomes, i + 1, alone)
  {
    assert Spared(xs[i], ys[i], alone);
  }

  lemma WorkedShielded(xs: seq<Item>, s: State, r: State, t: TaskId, outcomes: seq<Outcome>, i: nat, alone: bool)
    requires Looping(s, t) && Shielded(s, r, t) && (alone ==> r == s)
    requires Worked(xs, BatchOf(s, t).items, outcomes, i, alone)
    ensures Current(r, t) && Worked(xs, BatchOf(r, t).items, outcomes, i, alone)
    ensures alone ==> Still(s, r, t)
  {
    if !alone { WorkedWeathers(xs, BatchOf(s, t), BatchOf(r, t), outcomes, i); }
  }

  lemma StillTrans(a: State, b: State, c: State, t: TaskId)
    requires Still(a, b, t) && Still(b, c, t)
    ensures Still(a, c, t)
  {
  }

  lemma StillRefreshed(a: State, b: State, c: State, t: TaskId)
    requires Still(a, b, t) && Still(b.(job := c.job), c, t)
    ensures Still(a.(job := c.job), c, t)
  {
  }

  /** The commit of `_cancel_pending`, before the claim or after it. */
  lemma CancelledEnds(xs: seq<Item>, s: State, l: Label, t: TaskId, outcomes: seq<Outcome>, i: nat, alone: bool)
    requires Inv(s) && Enabled(s, l) && l in {EarlyCancel(t), CancelRest(t)}
    requires Worked(xs, BatchOf(s, t).items, outcomes, i, alone)
    ensures var r := Apply(s, l);
      && Current(r, t) && Ends(xs, BatchOf(r, t).items, outcomes, alone, r.job.cancelRequested)
      && Still(s, r, t)
      && (alone && i == 0 ==> LeftAlone(xs, BatchOf(r, t), outcomes, true))
  {
    var ys, zs := BatchOf(s, t).items, BatchOf(Apply(s, l), t).items;
    forall k | 0 <= k < |xs|
      ensures || Fate(xs[k], zs[k], OutcomeAt(outcomes, k), alone)
              || (xs[k].status == ItemPending && zs[k] == xs[k].(status := ItemCancelled))
      ensures alone && i == 0 ==>
                zs[k] == if xs[k].status == ItemPending then xs[k].(status := ItemCancelled) else xs[k]
    {
      if k < i { assert Fate(xs[k], ys[k], OutcomeAt(outcomes, k), alone); }
      else { assert Spared(xs[k], ys[k], alone); }
    }
  }

  /** The commit of `_finish_batch`. */
  lemma FinishedEnds(xs: seq<Item>, s: State, t: TaskId, outcomes: seq<Outcome>, alone: bool)
    requires Enabled(s, EndBatch(t)) && Worked(xs, BatchOf(s, t).items, outcomes, |xs|, alone)
    ensures var r := Apply(s, EndBatch(t));
      && Current(r, t) && Ends(xs, BatchOf(r, t).items, outcomes, alone, r.job.cancelRequested)
      && Still(s, r, t)
      && (alone ==> LeftAlone(xs, BatchOf(r, t), outcomes, false))
  {
    TallyZero(BatchOf(s, t).items, ItemFailed);
  }

  /**
   The worker is done and has refreshed the job. Its batch has ended, without a pending item, with the status that
   `process` returns, unless `mark_failed` was called for it in between.
   */
  ghost predicate EndedAs(s: State, t: TaskId, status: BatchStatus) {
    && InPhase(s, t, Leaving) && Current(s, t) && !s.dirty
    && FinishedBatch(status) && BatchOf(s, t).status in {status, BatchFailed}
    && Tally(BatchOf(s, t).items, ItemPending) == 0
  }

  /** What `process` answers. */
  datatype Processed = Stale | Already(status: BatchStatus) | Ended(status: BatchStatus)

  /**
   What happens to a batch in its turn: `apply_async` returns, it raises with or without the message in the broker,
   or the commit that stores the id raises.
   */
  datatype Answer = Sent | Refused(delivered: bool) | Broken

  /** The answer to batch `b`; what the list does not reach is sent. */
  function AnswerTo(answers: seq<Answer>, b: nat): (a: Answer)
    ensures b < |answers| ==> a == answers[b]
  {
    if b < |answers| then answers[b] else Sent
  }

  /** The first batch from `b` on that is to be published and is not answered `Sent`, or the number of batches. */
  function FirstRefused(batches: seq<Batch>, answers: seq<Answer>, b: nat): (n: nat)
    requires b <= |batches|
    ensures b <= n <= |batches|
    ensures forall c :: b <= c < n && batches[c].status == BatchPending ==> AnswerTo(answers, c) == Sent
    ensures n < |batches| ==> batches[n].status == BatchPending && AnswerTo(answers, n) != Sent
    decreases |batches| - b
  {
    if b == |batches| then b
    else if batches[b].status == BatchPending && AnswerTo(answers, b) != Sent then b
    else FirstRefused(batches, answers, b + 1)
  }

  /** Batch `b` was published: it is QUEUED under a new id, and the message of that id waits for a worker. */
  ghost predicate IsPublished(s: State, r: State, b: nat)
    requires b < |s.batches| == |r.batches|
  {
    exists t: TaskId ::
      && t !in s.msgs && t in r.msgs && r.msgs[t] == Message(b, Waiting)
      && r.batches[b] == s.batches[b].(status := BatchQueued, taskId := Some(t))
  }

  /**
   What publishing the batches before `n` leaves: those that were to be published are, the others are as before, and
   every message that is new belongs to one of them, or to batch `n` if its refused message reached the broker.
   */
  ghost predicate Published(s: State, r: State, n: nat, delivered: bool) {
    && |r.batches| == |s.batches|
    && (forall c :: 0 <= c < |s.batches| ==>
          if c < n && s.batches[c].status == BatchPending then IsPublished(s, r, c) else r.batches[c] == s.batches[c])
    && (forall t :: t in s.msgs ==> t in r.msgs && r.msgs[t] == s.msgs[t])
    && (forall t :: t in r.msgs && t !in s.msgs ==> NewMessage(s, r, t, n, delivered))
    && (delivered ==> exists t :: t in r.msgs && t !in s.msgs && r.msgs[t].batch == n)
  }

  ghost predicate NewMessage(s: State, r: State, t: TaskId, n: nat, delivered: bool)
    requires t in r.msgs
  {
    var m := r.msgs[t];
    && m.phase == Waiting
    && (|| (delivered && m.batch == n)
        || (m.batch < n && m.batch < |s.batches| && m.batch < |r.batches|
            && s.batches[m.batch].status == BatchPending && r.batches[m.batch].taskId == Some(t)))
  }

  /** The whole state after a turn that is left alone, answered `a`. */
  ghost predicate TurnLeaves(s: State, r: State, b: nat, a: Answer) {
    var t := s.nextId;
    && b < |s.batches| && r.job == s.job && r.stored == s.stored && r.revocable == s.revocable
    && r.cancels == s.cancels && r.dirty == s.dirty && r.early == s.early
    && match a
       case Sent =>
         && r.batches == s.batches[b := s.batches[b].(status := BatchQueued, taskId := Some(t))]
         && r.msgs == s.msgs[t := Message(b, Waiting)]
         && r.nextId == t + 1 && r.scanning == s.scanning && r.owing == s.owing
       case Refused(delivered) =>
         && r.batches == s.batches
         && r.msgs == (if delivered then s.msgs[t := Message(b, Waiting)] else s.msgs)
         && r.nextId == t + 1 && r.scanning == s.scanning - 1 && r.owing == s.owing + 1
       case Broken =>
         && r.batches == s.batches && r.msgs == s.msgs
         && r.nextId == t && r.scanning == s.scanning - 1 && r.owing == s.owing + 1
  }

  lemma FreshId(s: State)
    requires Inv(s)
    ensures s.nextId !in s.msgs && s.nextId !in s.stored
  {
    forall t | t in s.msgs ensures t < s.nextId { assert MessageOk(s, t); }
    forall t | t in s.stored ensures t < s.nextId { assert StoredOk(s, t); }
  }

  /** The two commits of a turn with nothing in between. */
  lemma TurnLeft(s: State, b: nat, delivered: bool)
    requires Inv(s) && Enabled(s, Store(b))
    ensures var m := ApplyStore(s, b); var t := s.nextId;
      && TurnLeaves(s, ApplyPublishOk(m, t), b, Sent)
      && TurnLeaves(s, ApplyPublishFail(m, t, delivered), b, Refused(delivered))
  {
    FreshId(s);
    assert RowsOk(s.batches[b]);
    var m, t := ApplyStore(s, b), s.nextId;
    assert m.stored - {t} == s.stored;
    assert m.batches[b].(status := BatchPending, taskId := None) == s.batches[b];
  }

  lemma PublishedNone(s: State)
    ensures Published(s, s, 0, false)
  {
  }

  /** One more batch published. */
  lemma PublishedStep(s: State, r: State, q: State, b: nat)
    requires Inv(r) && Published(s, r, b, false) && b < |s.batches| && s.batches[b].status == BatchPending
    requires TurnLeaves(r, q, b, Sent)
    ensures Published(s, q, b + 1, false)
  {
    var t := r.nextId;
    FreshId(r);
    assert t !in s.msgs && q.msgs[t] == Message(b, Waiting);
    assert IsPublished(s, q, b);
    forall c | 0 <= c < |s.batches| && c < b && s.batches[c].status == BatchPending ensures IsPublished(s, q, c) {
      assert IsPublished(s, r, c);
      OthersPublished(s, r, q, b, c);
    }
    forall u | u in q.msgs && u !in s.msgs ensures NewMessage(s, q, u, b + 1, false) {
      if u != t { assert NewMessage(s, r, u, b, false); }
    }
  }

  lemma OthersPublished(s: State, r: State, q: State, b: nat, c: nat)
    requires |s.batches| == |r.batches| && c < |s.batches| && c != b && b < |s.batches|
    requires IsPublished(s, r, c) && TurnLeaves(r, q, b, Sent) && r.nextId !in r.msgs
    ensures IsPublished(s, q, c)
  {
    var u: TaskId :| u !in s.msgs && u in r.msgs && r.msgs[u] == Message(c, Waiting)
      && r.batches[c] == s.batches[c].(status := BatchQueued, taskId := Some(u));
    assert u in q.msgs && q.msgs[u] == Message(c, Waiting);
  }

  /** A batch that is not to be published changes nothing. */
  lemma PublishedSkip(s: State, r: State, b: nat)
    requires Published(s, r, b, false) && b < |s.batches| && s.batches[b].status != BatchPending
    ensures Published(s, r, b + 1, false)
  {
    forall u | u in r.msgs && u !in s.msgs ensures NewMessage(s, r, u, b + 1, false) {
      assert NewMessage(s, r, u, b, false);
    }
  }

  /** A batch that is refused ends the loop. */
  lemma PublishedRefused(s: State, r: State, q: State, b: nat, a: Answer)
    requires Inv(r) && Published(s, r, b, false) && a != Sent && TurnLeaves(r, q, b, a)
    ensures Published(s, q, b, a == Refused(true))
  {
    FreshId(r);
    StaysPublished(s, r, q, b);
    forall u | u in q.msgs && u !in s.msgs ensures NewMessage(s, q, u, b, a == Refused(true)) {
      if u in r.msgs { assert NewMessage(s, r, u, b, false); }
    }
    if a == Refused(true) { assert r.nextId in q.msgs && r.nextId !in s.msgs; }
  }

  lemma StaysPublished(s: State, r: State, q: State, n: nat)
    requires |r.batches| == |s.batches| && q.batches == r.batches
    requires forall t :: t in r.msgs ==> t in q.msgs && q.msgs[t] == r.msgs[t]
    requires forall c :: 0 <= c < |s.batches| && c < n && s.batches[c].status == BatchPending ==> IsPublished(s, r, c)
    ensures forall c :: 0 <= c < |s.batches| && c < n && s.batches[c].status == BatchPending ==> IsPublished(s, q, c)
  {
    forall c | 0 <= c < |s.batches| && c < n && s.batches[c].status == BatchPending ensures IsPublished(s, q, c) {
      assert IsPublished(s, r, c);
      var u: TaskId :| u !in s.msgs && u in r.msgs && r.msgs[u] == Message(c, Waiting)
        && r.batches[c] == s.batches[c].(status := BatchQueued, taskId := Some(u));
      assert u in q.msgs && q.msgs[u] == Message(c, Waiting);
    }
  }

  /** Rows and messages are all that counts. */
  lemma PublishedRows(s: State, r: State, q: State, n: nat, delivered: bool)
    requires Published(s, r, n, delivered) && q.batches == r.batches && q.msgs == r.msgs
    ensures Published(s, q, n, delivered) && (HasPending(q) <==> HasPending(r))
  {
    forall c | 0 <= c < |s.batches| && c < n && s.batches[c].status == BatchPending ensures IsPublished(s, q, c) {
      assert IsPublished(s, r, c);
    }
    forall u | u in q.msgs && u !in s.msgs ensures NewMessage(s, q, u, n, delivered) {
      assert NewMessage(s, r, u, n, delivered);
    }
  }

  lemma NothingLeft(s: State, r: State)
    requires Published(s, r, |s.batches|, false)
    ensures !HasPending(r)
  {
    forall c | 0 <= c < |r.batches| ensures r.batches[c].status != BatchPending {
      if s.batches[c].status == BatchPending { assert IsPublished(s, r, c); }
    }
  }

  /** A turn of the loop, left alone. */
  lemma LoggedTurn(from: State, s: State, r: State, q: State, b: nat, a: Answer)
    requires Inv(r) && Published(s, r, b, false) && b < |s.batches| && r.batches[b].status == BatchPending
    requires TurnLeaves(r, q, b, a)
    ensures if a == Sent then Published(s, q, b + 1, false)
            else Published(s, q, b, a == Refused(true)) && HasPending(q)
    ensures s.batches[b].status == BatchPending
  {
    if a == Sent { PublishedStep(s, r, q, b); } else { PublishedRefused(s, r, q, b, a); }
  }

  lemma LoggedStored(from: State, run: seq<Label>, s: State, t: TaskId)
    requires Logged(from, run, s) && t in s.stored
    ensures t !in s.msgs && s.stored[t] < |s.batches|
  {
    RunInv(from, run);
    assert StoredOk(s, t);
  }

  class JobDesk {
    var state: State
    var script: seq<Label>

    constructor (state: State, script: seq<Label>)
      ensures this.state == state && this.script == script
    {
      this.state := state;
      this.script := script;
    }

    /** One commit of the caller; `run` is the list of everything committed since `from`. */
    method Commit(l: Label, ghost from: State, ghost run: seq<Label>) returns (ghost more: seq<Label>)
      requires Enabled(state, l) && Logged(from, run, state)
      modifies this`state
      ensures state == Apply(old(state), l)
      ensures more == run + [l] && Logged(from, more, state)
    {
      LogStep(from, run, state, l);
      more := run + [l];
      state := Apply(state, l);
    }

    /** One step of somebody else, if the next one of the script is possible. */
    method Other(t: TaskId, keep: Hold, ghost from: State, ghost run: seq<Label>) returns (ghost more: seq<Label>)
      requires Logged(from, run, state) && Keeps(state, keep) && script != []
      modifies this
      ensures Logged(from, more, state) && Shielded(old(state), state, t) && Keeps(state, keep)
      ensures script == old(script)[1..]
      ensures var l := old(script)[0];
        if Enabled(old(state), l) && Foreign(old(state), l, Some(t), keep)
        then more == run + [l] && state == Apply(old(state), l)
        else more == run && state == old(state)
    {
      var l := script[0];
      script := script[1..];
      if Enabled(state, l) && Foreign(state, l, Some(t), keep) {
        ShieldStep(from, run, state, l, t);
        more := Commit(l, from, run);
      } else {
        ShieldSelf(from, run, state, t);
        more := run;
      }
    }

    /** Other actors take any number of steps before the caller reads the rows again. */
    method Others(bursts: nat, t: TaskId, keep: Hold, ghost from: State, ghost run: seq<Label>)
      returns (ghost more: seq<Label>)
      requires Logged(from, run, state) && Keeps(state, keep)
      modifies this
      ensures Logged(from, more, state) && Shielded(old(state), state, t) && Keeps(state, keep)
      ensures script == if bursts <= |old(script)| then old(script)[bursts..] else []
      ensures old(script) == [] ==> state == old(state) && script == []
    {
      more := run;
      ShieldSelf(from, run, state, t);
      var k := 0;
      while k < bursts && script != []
        invariant Logged(from, more, state) && Shielded(old(state), state, t) && Keeps(state, keep)
        invariant k <= bursts && k <= |old(script)| && script == old(script)[k..]
        invariant old(script) == [] ==> state == old(state) && script == []
      {
        ghost var mid := state;
        more := Other(t, keep, from, more);
        ShieldTrans(old(state), mid, state, t);
        k := k + 1;
      }
    }

    function Pace(pace: seq<nat>, k: nat): nat {
      if k < |pace| then pace[k] else 0
    }

    /**
     `process`, for a message that was just delivered. `outcomes` says how each payload would end and
     `pace` how many foreign steps happen before each read.
     */
    method Process(t: TaskId, outcomes: seq<Outcome>, pace: seq<nat>)
      returns (r: Processed, ghost run: seq<Label>)
      requires Inv(state) && InPhase(state, t, Held)
      modifies this
      ensures Logged(old(state), run, state)
      ensures r.Stale? <==> !Current(old(state), t)
      ensures r.Already? <==> Current(old(state), t) && FinishedBatch(BatchOf(old(state), t).status)
      ensures r.Already? ==> r.status == BatchOf(old(state), t).status
      ensures !r.Ended? ==> state == old(state).(msgs := old(state).msgs - {t})
      ensures r.Ended? ==>
        && EndedAs(state, t, r.status)
        && Ends(BatchOf(old(state), t).items, BatchOf(state, t).items, outcomes, old(script) == [],
                state.job.cancelRequested)
      ensures r.Ended? && old(script) == [] ==>
        && Still(old(state).(job := state.job), state, t) && BatchOf(state, t).status == r.status
        && LeftAlone(BatchOf(old(state), t).items, BatchOf(state, t), outcomes, CancelSeen(old(state).job.status))
    {
      ghost var from := state;
      run := [];
      if !Current(state, t) {
        run := Commit(Ack(t), from, run);
        return Stale, run;
      }
      if FinishedBatch(BatchOf(state, t).status) {
        r := Already(BatchOf(state, t).status);
        run := Commit(Ack(t), from, run);
        return;
      }
      r, run := WorkAndEnd(t, outcomes, pace, from, run);
    }

    /** The rest of `process` for a batch that has not ended: the claim, the work, and the refresh of the job. */
    method WorkAndEnd(t: TaskId, outcomes: seq<Outcome>, pace: seq<nat>, ghost from: State, ghost run: seq<Label>)
      returns (r: Processed, ghost more: seq<Label>)
      requires Logged(from, run, state) && InPhase(state, t, Held)
      requires Current(state, t) && !FinishedBatch(BatchOf(state, t).status)
      modifies this
      ensures Logged(from, more, state) && r.Ended? && EndedAs(state, t, r.status)
      ensures Ends(BatchOf(old(state), t).items, BatchOf(state, t).items, outcomes, old(script) == [],
                   state.job.cancelRequested)
      ensures old(script) == [] ==>
        && Still(old(state).(job := state.job), state, t) && BatchOf(state, t).status == r.status
        && LeftAlone(BatchOf(old(state), t).items, BatchOf(state, t), outcomes, CancelSeen(old(state).job.status))
    {
      ghost var xs, alone := BatchOf(state, t).items, script == [];
      more := ClaimAndWork(t, outcomes, pace, from, run);
      ghost var closed := state;
      r, more := Leave(t, xs, outcomes, alone, pace, from, more);
      if alone { StillRefreshed(old(state), closed, state, t); }
    }

    /** The refresh of the job after the batch was closed. */
    method Leave(t: TaskId, ghost xs: seq<Item>, ghost outcomes: seq<Outcome>, ghost alone: bool, pace: seq<nat>,
        ghost from: State, ghost run: seq<Label>)
      returns (r: Processed, ghost more: seq<Label>)
      requires Logged(from, run, state) && InPhase(state, t, Closing) && Current(state, t)
      requires Ends(xs, BatchOf(state, t).items, outcomes, alone, state.job.cancelRequested)
      requires alone ==> script == []
      modifies this
      ensures Logged(from, more, state) && r.Ended? && EndedAs(state, t, r.status)
      ensures Ends(xs, BatchOf(state, t).items, outcomes, alone, state.job.cancelRequested)
      ensures alone ==>
        && Still(old(state).(job := state.job), state, t)
        && BatchOf(state, t) == BatchOf(old(state), t) && BatchOf(state, t).status == r.status
    {
      LoggedEnd(from, run, state, t);
      r := Ended(BatchOf(state, t).status);
      more := Others(Pace(pace, 0), t, Hold(0, 0), from, run);
      LoggedEnd(from, more, state, t);
      if !alone {
        EndsWeathers(xs, BatchOf(old(state), t), BatchOf(state, t), outcomes, old(state).job.cancelRequested);
      }
      more := Commit(Refresh(t), from, more);
    }

    /**
     The `except` branch around `process`, for an exception that leaves it at any point: `mark_failed` for the batch
     of the message, whatever the batch is doing, and its refresh.
     */
    method Fail(t: TaskId, pace: seq<nat>) returns (ghost run: seq<Label>)
      requires Inv(state) && Enabled(state, MarkFailed(t))
      modifies this
      ensures Logged(old(state), run, state)
      ensures InPhase(state, t, Done) && state.msgs[t].batch < |state.batches| && !state.dirty
      ensures NothingOpen(state.batches[state.msgs[t].batch])
    {
      ghost var from := state;
      run := [];
      run := Others(Pace(pace, 0), t, Hold(0, 0), from, run);
      run := Commit(MarkFailed(t), from, run);
      run := Others(Pace(pace, 1), t, Hold(0, 0), from, run);
      run := Commit(Refresh(t), from, run);
      LoggedMessage(from, run, state, t);
    }

    /** The first cancel check of ingestion and silver, the claim, and the work. */
    method ClaimAndWork(t: TaskId, outcomes: seq<Outcome>, pace: seq<nat>, ghost from: State, ghost run: seq<Label>)
      returns (ghost more: seq<Label>)
      requires Logged(from, run, state) && InPhase(state, t, Held)
      requires Current(state, t) && !FinishedBatch(BatchOf(state, t).status)
      modifies this
      ensures Logged(from, more, state) && InPhase(state, t, Closing) && Current(state, t)
      ensures Ends(BatchOf(old(state), t).items, BatchOf(state, t).items, outcomes, old(script) == [],
                   state.job.cancelRequested)
      ensures old(script) == [] ==>
        && script == [] && Still(old(state), state, t)
        && LeftAlone(BatchOf(old(state), t).items, BatchOf(state, t), outcomes, CancelSeen(old(state).job.status))
    {
      ghost var xs, alone := BatchOf(state, t).items, script == [];
      if state.early && CancelSeen(state.job.status) {
        LoggedInv(from, run, state);
        CancelledEnds(xs, state, EarlyCancel(t), t, outcomes, 0, alone);
        more := Commit(EarlyCancel(t), from, run);
      } else {
        more := Commit(Claim(t), from, run);
        ghost var claimed := state;
        more := WorkOff(t, xs, outcomes, pace, from, more);
        if alone { StillTrans(old(state), claimed, state, t); }
      }
    }

    /** From the claim to the commit that ends the batch: the item loop with its cancel checks. */
    method WorkOff(t: TaskId, ghost xs: seq<Item>, outcomes: seq<Outcome>, pace: seq<nat>, ghost from: State,
        ghost run: seq<Label>)
      returns (ghost more: seq<Label>)
      requires Logged(from, run, state) && Looping(state, t) && BatchOf(state, t).items == xs
      requires !(state.early && CancelSeen(state.job.status))
      modifies this
      ensures Logged(from, more, state) && InPhase(state, t, Closing) && Current(state, t)
      ensures Ends(xs, BatchOf(state, t).items, outcomes, old(script) == [], state.job.cancelRequested)
      ensures old(script) == [] ==>
        && script == [] && Still(old(state), state, t)
        && LeftAlone(xs, BatchOf(state, t), outcomes, CancelSeen(old(state).job.status))
    {
      ghost var alone := script == [];
      more := Others(Pace(pace, 0), t, Hold(0, 0), from, run);
      WorkedShielded(xs, old(state), state, t, outcomes, 0, alone);
      var cancelSeen := CancelSeen(state.job.status);
      if cancelSeen && !state.early {
        LoggedInv(from, more, state);
        CancelledEnds(xs, state, CancelRest(t), t, outcomes, 0, alone);
        more := Commit(CancelRest(t), from, more);
        return;
      }
      ghost var begun := state;
      more := LoopAndClose(t, cancelSeen, xs, alone, outcomes, pace, from, more);
      if alone { StillTrans(old(state), begun, state, t); }
    }

    /** The item loop and the commit after it. */
    method LoopAndClose(t: TaskId, seen: bool, ghost xs: seq<Item>, ghost alone: bool, outcomes: seq<Outcome>,
        pace: seq<nat>, ghost from: State, ghost run: seq<Label>)
      returns (ghost more: seq<Label>)
      requires Logged(from, run, state) && Looping(state, t) && (seen ==> CancelSeen(state.job.status))
      requires Worked(xs, BatchOf(state, t).items, outcomes, 0, alone)
      requires alone ==> script == [] && !CancelSeen(state.job.status)
      modifies this
      ensures Logged(from, more, state) && InPhase(state, t, Closing) && Current(state, t)
      ensures Ends(xs, BatchOf(state, t).items, outcomes, alone, state.job.cancelRequested)
      ensures alone ==>
        script == [] && Still(old(state), state, t) && LeftAlone(xs, BatchOf(state, t), outcomes, false)
    {
      var cancelSeen;
      ghost var n: nat;
      cancelSeen, n, more := Items(t, seen, xs, alone, outcomes, pace, from, run);
      ghost var looped := state;
      more := CloseBatch(t, cancelSeen, xs, n, alone, outcomes, from, more);
      if alone { StillTrans(old(state), looped, state, t); }
    }

    /** The item loop. Its answer is the last value read by the cancel check; `n` items had their turn. */
    method Items(t: TaskId, seen: bool, ghost xs: seq<Item>, ghost alone: bool, outcomes: seq<Outcome>, pace: seq<nat>,
        ghost from: State, ghost run: seq<Label>)
      returns (cancelSeen: bool, ghost n: nat, ghost more: seq<Label>)
      requires Logged(from, run, state) && Looping(state, t) && (seen ==> CancelSeen(state.job.status))
      requires Worked(xs, BatchOf(state, t).items, outcomes, 0, alone) && (alone ==> script == [])
      modifies this
      ensures Logged(from, more, state) && Looping(state, t)
      ensures cancelSeen ==> CancelSeen(state.job.status)
      ensures !cancelSeen ==> NoPending(BatchOf(state, t), |BatchOf(state, t).items|) && n == |xs|
      ensures Worked(xs, BatchOf(state, t).items, outcomes, n, alone)
      ensures alone ==> script == [] && Still(old(state), state, t)
    {
      more := run;
      cancelSeen := seen;
      n := 0;
      var i := 0;
      while i < |BatchOf(state, t).items|
        invariant Logged(from, more, state) && Looping(state, t)
        invariant i == n <= |BatchOf(state, t).items| == |xs|
        invariant NoPending(BatchOf(state, t), i)
        invariant cancelSeen ==> CancelSeen(state.job.status)
        invariant Worked(xs, BatchOf(state, t).items, outcomes, i, alone)
        invariant alone ==> script == [] && Still(old(state), state, t)
        decreases |xs| - i
      {
        var cancelled;
        ghost var before := state;
        cancelled, more := NextItem(t, i, xs, alone, outcomes, pace, from, more);
        if alone { StillTrans(old(state), before, state, t); }
        cancelSeen := cancelled || (cancelSeen && CancelSeen(state.job.status));
        if cancelled {
          return;
        }
        i := i + 1;
        n := n + 1;
      }
    }

    /** The end of `process` after the loop: the rest is cancelled, or the batch is finished. */
    method CloseBatch(t: TaskId, cancelSeen: bool, ghost xs: seq<Item>, ghost n: nat, ghost alone: bool,
        outcomes: seq<Outcome>, ghost from: State, ghost run: seq<Label>)
      returns (ghost more: seq<Label>)
      requires Logged(from, run, state) && Looping(state, t) && Worked(xs, BatchOf(state, t).items, outcomes, n, alone)
      requires if cancelSeen then CancelSeen(state.job.status)
               else NoPending(BatchOf(state, t), |BatchOf(state, t).items|) && n == |xs|
      modifies this`state
      ensures Logged(from, more, state) && InPhase(state, t, Closing) && Current(state, t)
      ensures Still(old(state), state, t)
      ensures Ends(xs, BatchOf(state, t).items, outcomes, alone, state.job.cancelRequested)
      ensures alone && (cancelSeen ==> n == 0) ==> LeftAlone(xs, BatchOf(state, t), outcomes, cancelSeen)
    {
      LoggedInv(from, run, state);
      if cancelSeen {
        CancelledEnds(xs, state, CancelRest(t), t, outcomes, n, alone);
        more := Commit(CancelRest(t), from, run);
      } else {
        FinishedEnds(xs, state, t, outcomes, alone);
        more := Commit(EndBatch(t), from, run);
      }
    }

    predicate NoPending(x: Batch, n: nat) {
      forall k :: 0 <= k < |x.items| && k < n ==> x.items[k].status != ItemPending
    }

    /** The body of the loop: an item that is still pending is processed, unless a cancellation is seen. */
    method NextItem(t: TaskId, i: nat, ghost xs: seq<Item>, ghost alone: bool, outcomes: seq<Outcome>, pace: seq<nat>,
        ghost from: State, ghost run: seq<Label>)
      returns (cancelled: bool, ghost more: seq<Label>)
      requires Logged(from, run, state) && Looping(state, t)
      requires i < |BatchOf(state, t).items| && NoPending(BatchOf(state, t), i)
      requires Worked(xs, BatchOf(state, t).items, outcomes, i, alone) && (alone ==> script == [])
      modifies this
      ensures Logged(from, more, state) && Looping(state, t)
      ensures |BatchOf(state, t).items| == |BatchOf(old(state), t).items|
      ensures cancelled ==> CancelSeen(state.job.status)
      ensures !cancelled ==> NoPending(BatchOf(state, t), i + 1)
      ensures Worked(xs, BatchOf(state, t).items, outcomes, if cancelled then i else i + 1, alone)
      ensures alone ==> script == [] && Still(old(state), state, t)
    {
      more := Others(Pace(pace, i + 1), t, Hold(0, 0), from, run);
      WorkedShielded(xs, old(state), state, t, outcomes, i, alone);
      ghost var before := state;
      cancelled, more := Turn(t, i, xs, alone, outcomes, pace, from, more);
      if alone { StillTrans(old(state), before, state, t); }
    }

    /** The same, once the rows are read. */
    method Turn(t: TaskId, i: nat, ghost xs: seq<Item>, ghost alone: bool, outcomes: seq<Outcome>, pace: seq<nat>,
        ghost from: State, ghost run: seq<Label>)
      returns (cancelled: bool, ghost more: seq<Label>)
      requires Logged(from, run, state) && Looping(state, t)
      requires i < |BatchOf(state, t).items| && NoPending(BatchOf(state, t), i)
      requires Worked(xs, BatchOf(state, t).items, outcomes, i, alone) && (alone ==> script == [])
      modifies this
      ensures Logged(from, more, state) && Looping(state, t)
      ensures |BatchOf(state, t).items| == |BatchOf(old(state), t).items|
      ensures cancelled ==> CancelSeen(state.job.status)
      ensures !cancelled ==> NoPending(BatchOf(state, t), i + 1)
      ensures Worked(xs, BatchOf(state, t).items, outcomes, if cancelled then i else i + 1, alone)
      ensures alone ==> script == [] && Still(old(state), state, t)
    {
      more := run;
      cancelled := false;
      if BatchOf(state, t).items[i].status == ItemPending {
        if CancelSeen(state.job.status) {
          return true, more;
        }
        more := DoItem(t, i, alone, outcomes, pace, from, more);
        WorkedStep(xs, old(state), state, t, outcomes, i, alone);
      } else {
        WorkedSkip(xs, BatchOf(state, t).items, outcomes, i, alone);
      }
    }

    /** `_process_item`: two commits with the execution of the payload between them. */
    method DoItem(t: TaskId, i: nat, ghost alone: bool, outcomes: seq<Outcome>, pace: seq<nat>, ghost from: State,
        ghost run: seq<Label>)
      returns (ghost more: seq<Label>)
      requires Logged(from, run, state) && Enabled(state, StartItem(t, i)) && (alone ==> script == [])
      modifies this
      ensures Logged(from, more, state)
      ensures Turned(old(state), state, t, i, OutcomeAt(outcomes, i), alone)
      ensures alone ==> script == [] && Still(old(state), state, t)
    {
      more := Commit(StartItem(t, i), from, run);
      more := EndItemTurn(t, i, old(state), alone, outcomes, pace, from, more);
    }

    /** The execution, and its commit. */
    method EndItemTurn(t: TaskId, i: nat, ghost s: State, ghost alone: bool, outcomes: seq<Outcome>, pace: seq<nat>,
        ghost from: State, ghost run: seq<Label>)
      returns (ghost more: seq<Label>)
      requires Logged(from, run, state) && Enabled(s, StartItem(t, i)) && state == ApplyStartItem(s, t, i)
      requires alone ==> script == []
      modifies this
      ensures Logged(from, more, state)
      ensures Turned(s, state, t, i, OutcomeAt(outcomes, i), alone)
      ensures alone ==> script == [] && Still(s, state, t)
    {
      ghost var m := state;
      more := Others(Pace(pace, i), t, Hold(0, 0), from, run);
      var outcome := OutcomeAt(outcomes, i);
      ItemTurned(s, m, state, t, i, outcome, alone);
      more := Commit(EndLabel(t, outcome), from, more);
    }

    /**
     The publication loop of `dispatch_job` and the caller that records its failure. `answers` says what happens to
     each batch in its turn. Left alone, the call publishes the batches before the first one that is refused, and fails
     exactly if there is one; the rest is as before. A call that fails always ends with DISPATCH_FAILED, whatever the
     others do between its last commit and the one of its caller.
     */
    method Dispatch(answers: seq<Answer>, pace: seq<nat>) returns (ok: bool, ghost run: seq<Label>)
      requires Inv(state) && state.scanning > 0
      modifies this
      ensures Logged(old(state), run, state)
      ensures !ok ==> state.job.status == JobDispatchFailed
      ensures old(script) == [] ==>
        var n := FirstRefused(old(state).batches, answers, 0);
        && (ok <==> n == |old(state).batches|) && (ok <==> !HasPending(state))
        && Published(old(state), state, n, !ok && AnswerTo(answers, n) == Refused(true))
        && (ok ==> state.job == old(state).job)
    {
      ghost var from := state;
      ok, run := PublishBatches(answers, pace, from, []);
      ghost var published := state;
      if ok {
        run := Commit(DispatchDone, from, run);
      } else {
        run := Others(Pace(pace, |answers|), state.nextId, Hold(0, 1), from, run);
        run := Commit(DispatchFailed, from, run);
      }
      if old(script) == [] {
        PublishedRows(from, published, state, FirstRefused(from.batches, answers, 0),
          !ok && AnswerTo(answers, FirstRefused(from.batches, answers, 0)) == Refused(true));
      }
    }

    /** The loop; it ends early when a turn raises. */
    method PublishBatches(answers: seq<Answer>, pace: seq<nat>, ghost from: State, ghost run: seq<Label>)
      returns (ok: bool, ghost more: seq<Label>)
      requires Logged(from, run, state) && state.scanning > 0
      modifies this
      ensures Logged(from, more, state)
      ensures if ok then state.scanning > 0 else state.owing > 0
      ensures old(script) == [] ==>
        var n := FirstRefused(old(state).batches, answers, 0);
        && script == [] && state.job == old(state).job
        && (ok <==> n == |old(state).batches|) && (ok <==> !HasPending(state))
        && Published(old(state), state, n, !ok && AnswerTo(answers, n) == Refused(true))
    {
      more := run;
      ok := true;
      var n := |state.batches|;
      var b := 0;
      PublishedNone(state);
      while b < n
        invariant Logged(from, more, state)
        invariant b <= n == |state.batches| == |old(state).batches| && state.scanning > 0
        invariant old(script) == [] ==>
          && script == [] && state.job == old(state).job
          && Published(old(state), state, b, false)
          && FirstRefused(old(state).batches, answers, 0) == FirstRefused(old(state).batches, answers, b)
      {
        more := Others(Pace(pace, b), state.nextId, Hold(1, 0), from, more);
        ghost var before := state;
        LoggedInv(from, more, before);
        if state.batches[b].status == BatchPending {
          ok, more := PublishOne(b, answers, pace, from, more);
          if !ok {
            if old(script) == [] { LoggedTurn(from, old(state), before, state, b, AnswerTo(answers, b)); }
            return;
          }
          if old(script) == [] { LoggedTurn(from, old(state), before, state, b, Sent); }
        } else if old(script) == [] {
          PublishedSkip(old(state), state, b);
        }
        b := b + 1;
      }
      if old(script) == [] { NothingLeft(old(state), state); }
    }

    /** A turn of that loop: store a fresh id, then publish it or put the batch back. */
    method PublishOne(b: nat, answers: seq<Answer>, pace: seq<nat>, ghost from: State, ghost run: seq<Label>)
      returns (ok: bool, ghost more: seq<Label>)
      requires Logged(from, run, state) && Enabled(state, Store(b))
      modifies this
      ensures Logged(from, more, state) && |state.batches| == |old(state).batches|
      ensures ok <==> AnswerTo(answers, b) == Sent
      ensures if ok then state.scanning > 0 else state.owing > 0 && state.batches[b].status == BatchPending
      ensures var t := old(state).nextId;
        match AnswerTo(answers, b)
        case Sent => t in state.msgs && state.msgs[t] == Message(b, Waiting)
        case Refused(delivered) =>
          (t in state.msgs <==> delivered) && (delivered ==> state.msgs[t] == Message(b, Waiting))
        case Broken => state.msgs == old(state).msgs && state.nextId == t
      ensures old(script) == [] ==> script == [] && TurnLeaves(old(state), state, b, AnswerTo(answers, b))
    {
      var answer := AnswerTo(answers, b);
      LoggedInv(from, run, state);
      TurnLeft(state, b, answer == Refused(true));
      if answer == Broken {
        more := Commit(DispatchError, from, run);
        return false, more;
      }
      var t := state.nextId;
      more := Commit(Store(b), from, run);
      more := Others(Pace(pace, b), t, Hold(0, 0), from, more);
      LoggedStored(from, more, state, t);
      if answer.Refused? {
        more := Commit(PublishFail(t, answer.delivered), from, more);
        ok := false;
      } else {
        more := Commit(PublishOk(t), from, more);
        ok := true;
      }
    }
  }
}
