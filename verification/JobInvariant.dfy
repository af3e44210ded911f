/** The inductive invariant of the job protocol, proved block by block. */
module JobInvariant {
  import opened Prelude
  import opened JobModel
  import opened JobProtocol

  /** What holds of the rows of one batch, whatever the messages are doing. */
  ghost predicate RowsOk(x: Batch) {
    && |x.items| > 0
    && x.totalItems == |x.items|
    && x.interrupted <= x.attempts
    && (forall i :: 0 <= i < |x.items| ==> ItemOk(x.items[i]))
    && (x.status == BatchPending ==> x.taskId == None)
    && (FinishedBatch(x.status) ==> Tally(x.items, ItemPending) == 0)
    && (x.status == BatchFailed ==> x.interrupted == 0)
    && (x.status == BatchCompleted ==> x.counts == TallyAll(x.items) && x.counts.failed == 0)
    && (x.status == BatchCompletedWithErrors ==> x.counts == TallyAll(x.items) && x.counts.failed > 0)
  }

  /** Whether a worker executes an item of a running batch. */
  function ExecutingNow(s: State, b: nat): nat
    requires b < |s.batches|
  {
    var id := s.batches[b].taskId;
    Bit(id.Some? && id.value in s.msgs && s.msgs[id.value].phase.Executing? && s.batches[b].status == BatchRunning)
  }

  /** How the id of a batch, the messages and the dispatch calls fit together. */
  ghost predicate LinkOk(s: State, b: nat)
    requires b < |s.batches|
  {
    var x := s.batches[b];
    && Tally(x.items, ItemRunning) == x.interrupted + ExecutingNow(s, b)
    && (x.taskId.Some? ==>
          var t := x.taskId.value;
          && t < s.nextId
          && (t in s.msgs ==> s.msgs[t].batch == b)
          && (t in s.stored ==> s.stored[t] == b))
    && (x.status == BatchQueued ==>
          && x.taskId.Some?
          && var t := x.taskId.value;
             && t !in s.revocable
             && (t in s.stored <==> t !in s.msgs)
             && (t in s.msgs ==> s.msgs[t].phase in {Waiting, Held}))
    && (x.status == BatchRunning ==>
          && x.taskId.Some?
          && var t := x.taskId.value;
             && t !in s.stored
             && (t !in s.msgs ==> t in s.revocable)
             && (t in s.msgs ==> !Ending(s.msgs[t].phase)))
  }

  /** The batch of the message was ended, by `process` or by `mark_failed`. */
  predicate Ending(phase: Phase) {
    phase in {Closing, Leaving, Marked, Done}
  }

  ghost predicate MessageOk(s: State, t: TaskId)
    requires t in s.msgs
  {
    var m := s.msgs[t];
    && m.batch < |s.batches|
    && t < s.nextId
    && t !in s.stored
    && (m.phase == Claimed || m.phase.Executing? ==>
          && s.batches[m.batch].taskId == Some(t)
          && s.batches[m.batch].status in {BatchRunning, BatchFailed}
          && s.batches[m.batch].interrupted < s.batches[m.batch].attempts)
    && (m.phase.Executing? ==>
          && m.phase.item < |s.batches[m.batch].items|
          && ExecutedItem(s.batches[m.batch].items[m.phase.item], s.batches[m.batch].status))
    && (m.phase in {Closing, Leaving} ==> s.batches[m.batch].taskId == Some(t))
    && (m.phase in {Marked, Done} ==> NothingOpen(s.batches[m.batch]))
    && (Ending(m.phase) && s.batches[m.batch].taskId == Some(t) ==> FinishedBatch(s.batches[m.batch].status))
  }

  /** The item a worker executes: running, or failed by `mark_failed` together with its batch. */
  predicate ExecutedItem(x: Item, status: BatchStatus) {
    x.attempts == 1 && x.status == if status == BatchRunning then ItemRunning else ItemFailed
  }

  /** No item is pending or running; `mark_failed` leaves a batch like this, and it stays so. */
  ghost predicate NothingOpen(x: Batch) {
    Tally(x.items, ItemPending) == 0 && Tally(x.items, ItemRunning) == 0
  }

  ghost predicate StoredOk(s: State, t: TaskId)
    requires t in s.stored
  {
    && s.stored[t] < |s.batches|
    && t < s.nextId
    && t !in s.msgs
    && s.batches[s.stored[t]].taskId == Some(t)
    && s.batches[s.stored[t]].status in {BatchQueued, BatchCancelled, BatchFailed}
  }

  ghost predicate Structure(s: State) {
    && |s.batches| > 0
    && (forall b :: 0 <= b < |s.batches| ==> RowsOk(s.batches[b]))
    && (forall b :: 0 <= b < |s.batches| ==> LinkOk(s, b))
    && (forall t :: t in s.msgs ==> MessageOk(s, t))
    && (forall t :: t in s.stored ==> StoredOk(s, t))
    && (forall t :: t in s.revocable ==> t < s.nextId)
  }

  /** The fast counters of the job row against the recount. */
  ghost predicate Counters(s: State) {
    && s.job.totalItems == ItemCount(s.batches)
    && s.job.totalBatches == |s.batches|
    && s.job.processed == s.job.succeeded + s.job.failed + s.job.cancelled
    && s.job.succeeded == Total(s.batches, ItemSucceeded)
    && (!s.dirty ==> s.job.failed == Total(s.batches, ItemFailed))
    && (!s.dirty ==> s.job.cancelled == Total(s.batches, ItemCancelled))
  }

  /**
   The status of the job row. A failed publication can put a batch of a settled job back; its caller then still
   owes the write that takes the job out of that status.
   */
  ghost predicate Settled(s: State) {
    && (TerminalJob(s.job.status) ==>
          && (AllFinished(s.batches) || s.owing > 0)
          && (s.job.status == JobCancelled <==> s.job.cancelRequested))
    && (TerminalJob(s.job.status) && AllFinished(s.batches) && !s.dirty ==>
          s.job.status == OutcomeStatus(s.job.cancelRequested, s.job.succeeded, s.job.failed))
    && (!s.dirty && AllFinished(s.batches) ==> TerminalJob(s.job.status) || s.job.status == JobDispatchFailed)
    && (CancelSeen(s.job.status) ==> s.job.cancelRequested)
  }

  /** Nothing is cancelled before somebody asks for it. */
  ghost predicate Untouched(s: State) {
    !s.job.cancelRequested ==>
      && Total(s.batches, ItemCancelled) == 0
      && (forall b :: 0 <= b < |s.batches| ==> s.batches[b].status != BatchCancelled)
      && s.revocable == {}
      && s.cancels == 0
  }

  ghost predicate Inv(s: State) {
    Structure(s) && Counters(s) && Settled(s) && Untouched(s)
  }

  // ---------------------------------------------------------------- the first state

  lemma {:induction false} NewTotals(batches: seq<Batch>)
    requires forall b :: 0 <= b < |batches| ==> NewBatch(batches[b])
    ensures Total(batches, ItemSucceeded) == Total(batches, ItemFailed) == Total(batches, ItemCancelled) == 0
    ensures forall b :: 0 <= b < |batches| ==> batches[b].status == BatchPending
  {
    if batches != [] {
      NewTotals(batches[..|batches| - 1]);
      var items := batches[|batches| - 1].items;
      assert NewBatch(batches[|batches| - 1]);
      TallyZero(items, ItemSucceeded);
      TallyZero(items, ItemFailed);
      TallyZero(items, ItemCancelled);
    }
  }

  lemma CreatedInv(s: State)
    requires Created(s)
    ensures Inv(s)
  {
    NewTotals(s.batches);
    forall b | 0 <= b < |s.batches| ensures RowsOk(s.batches[b]) && LinkOk(s, b) {
      assert NewBatch(s.batches[b]);
      TallyZero(s.batches[b].items, ItemRunning);
    }
    assert NewBatch(s.batches[0]);
    assert !FinishedBatch(s.batches[0].status);
  }

  // ---------------------------------------------------------------- dispatch

  lemma StoreStructure(s: State, b: nat)
    requires Structure(s) && Enabled(s, Store(b))
    ensures Structure(ApplyStore(s, b))
  {
    var r := ApplyStore(s, b);
    assert RowsOk(s.batches[b]) && LinkOk(s, b);
    forall c | 0 <= c < |r.batches| ensures RowsOk(r.batches[c]) && LinkOk(r, c) {
      assert RowsOk(s.batches[c]) && LinkOk(s, c);
    }
    forall t | t in r.msgs ensures MessageOk(r, t) { assert MessageOk(s, t); }
    forall t | t in r.stored ensures StoredOk(r, t) { if t != s.nextId { assert StoredOk(s, t); } }
  }

  lemma StoreInv(s: State, b: nat)
    requires Inv(s) && Enabled(s, Store(b))
    ensures Inv(ApplyStore(s, b))
  {
    StoreStructure(s, b);
    SameItemsTotals(s.batches, b, ApplyStore(s, b).batches[b]);
    assert !FinishedBatch(s.batches[b].status) && !FinishedBatch(ApplyStore(s, b).batches[b].status);
  }

  lemma SameItemsTotals(batches: seq<Batch>, b: nat, x: Batch)
    requires b < |batches| && x.items == batches[b].items
    ensures forall st :: Total(batches[b := x], st) == Total(batches, st)
    ensures ItemCount(batches[b := x]) == ItemCount(batches)
  {
    forall st ensures Total(batches[b := x], st) == Total(batches, st) {
      TotalUpdate(batches, b, x, st);
    }
    ItemCountUpdate(batches, b, x);
  }

  lemma PublishOkInv(s: State, t: TaskId)
    requires Inv(s) && Enabled(s, PublishOk(t))
    ensures Inv(Apply(s, PublishOk(t)))
  {
    var r := Apply(s, PublishOk(t));
    assert StoredOk(s, t);
    forall c | 0 <= c < |r.batches| ensures LinkOk(r, c) { assert LinkOk(s, c); }
    forall u | u in r.msgs ensures MessageOk(r, u) { if u != t { assert MessageOk(s, u); } }
    forall u | u in r.stored ensures StoredOk(r, u) { assert StoredOk(s, u); }
  }

  lemma PublishFailStructure(s: State, t: TaskId, delivered: bool)
    requires Structure(s) && Enabled(s, PublishFail(t, delivered))
    ensures Structure(ApplyPublishFail(s, t, delivered))
  {
    var r := ApplyPublishFail(s, t, delivered);
    assert StoredOk(s, t) && RowsOk(s.batches[s.stored[t]]) && LinkOk(s, s.stored[t]);
    forall c | 0 <= c < |r.batches| ensures RowsOk(r.batches[c]) && LinkOk(r, c) {
      assert RowsOk(s.batches[c]) && LinkOk(s, c);
    }
    forall u | u in r.msgs ensures MessageOk(r, u) { PublishFailMessage(s, t, delivered, u); }
    forall u | u in r.stored ensures StoredOk(r, u) { assert StoredOk(s, u); }
  }

  lemma PublishFailMessage(s: State, t: TaskId, delivered: bool, u: TaskId)
    requires Structure(s) && Enabled(s, PublishFail(t, delivered)) && u in ApplyPublishFail(s, t, delivered).msgs
    ensures MessageOk(ApplyPublishFail(s, t, delivered), u)
  {
    assert StoredOk(s, t);
    if u != t { assert MessageOk(s, u); }
  }

  lemma PublishFailInv(s: State, t: TaskId, delivered: bool)
    requires Inv(s) && Enabled(s, PublishFail(t, delivered))
    ensures Inv(ApplyPublishFail(s, t, delivered))
  {
    var r := ApplyPublishFail(s, t, delivered);
    PublishFailStructure(s, t, delivered);
    SameItemsTotals(s.batches, s.stored[t], r.batches[s.stored[t]]);
    assert !FinishedBatch(r.batches[s.stored[t]].status);
  }

  lemma ResumeInv(s: State)
    requires Inv(s) && Enabled(s, Resume)
    ensures Inv(Apply(s, Resume))
  {
    var r := Apply(s, Resume);
    forall c | 0 <= c < |r.batches| ensures LinkOk(r, c) { assert LinkOk(s, c); }
    forall u | u in r.msgs ensures MessageOk(r, u) { assert MessageOk(s, u); }
    forall u | u in r.stored ensures StoredOk(r, u) { assert StoredOk(s, u); }
    var b :| 0 <= b < |s.batches| && s.batches[b].status == BatchPending;
    assert !FinishedBatch(s.batches[b].status);
  }

  /** The end of a dispatch call, and the DISPATCH_FAILED of its caller, whatever the status is by then. */
  lemma DispatchEndInv(s: State, l: Label)
    requires Inv(s) && Enabled(s, l) && (l.DispatchDone? || l.DispatchError? || l.DispatchFailed?)
    ensures Inv(Apply(s, l))
  {
    StructureFrame(s, Apply(s, l));
  }

  // ---------------------------------------------------------------- cancel and recount

  lemma CancelIfIdleOk(x: Batch)
    requires RowsOk(x)
    ensures RowsOk(CancelIfIdle(x))
    ensures Tally(CancelIfIdle(x).items, ItemRunning) == Tally(x.items, ItemRunning)
    ensures NothingOpen(x) ==> NothingOpen(CancelIfIdle(x))
  {
    CancelItemsTally(x.items);
  }

  lemma CancelStructure(s: State)
    requires Structure(s)
    ensures Structure(ApplyCancel(s))
  {
    var r := ApplyCancel(s);
    forall c | 0 <= c < |r.batches| ensures RowsOk(r.batches[c]) && LinkOk(r, c) {
      assert RowsOk(s.batches[c]) && LinkOk(s, c);
      CancelIfIdleOk(s.batches[c]);
    }
    forall u | u in r.msgs ensures MessageOk(r, u) {
      assert MessageOk(s, u);
      CancelIfIdleOk(s.batches[s.msgs[u].batch]);
    }
    forall u | u in r.stored ensures StoredOk(r, u) { assert StoredOk(s, u); }
    forall t | t in r.revocable ensures t < r.nextId {
      if t !in s.revocable {
        var b :| 0 <= b < |s.batches| && s.batches[b].taskId == Some(t);
        assert LinkOk(s, b);
      }
    }
  }

  lemma CancelInv(s: State)
    requires Inv(s) && Enabled(s, Cancel)
    ensures Inv(ApplyCancel(s))
  {
    CancelStructure(s);
    CancelIdleTotals(s.batches);
  }

  /** A recount never takes a settled job back, and settles it when every batch has ended. */
  lemma RecountSettles(s: State, r: State)
    requires Structure(s) && Counters(s) && Settled(s)
    requires r.batches == s.batches && r.revocable == s.revocable && r.owing == s.owing
    requires r.job == Recount(s.job, s.batches) && !r.dirty
    ensures Counters(r) && Settled(r)
  {
    FinishedCountAll(s.batches);
  }

  lemma RefreshNowInv(s: State)
    requires Inv(s) && Enabled(s, RefreshNow)
    ensures Inv(Apply(s, RefreshNow))
  {
    var r := Apply(s, RefreshNow);
    forall c | 0 <= c < |r.batches| ensures LinkOk(r, c) { assert LinkOk(s, c); }
    forall u | u in r.msgs ensures MessageOk(r, u) { assert MessageOk(s, u); }
    forall u | u in r.stored ensures StoredOk(r, u) { assert StoredOk(s, u); }
    RecountSettles(s, r);
  }

  // ---------------------------------------------------------------- messages

  /** Changing only the phase of a message that is neither claimed nor executing afterwards. */
  lemma PhaseInv(s: State, t: TaskId, phase: Phase)
    requires Structure(s) && t in s.msgs && !s.msgs[t].phase.Executing?
    requires phase in {Waiting, Held} || (phase == Leaving && s.msgs[t].phase == Closing)
      || (phase == Done && s.msgs[t].phase == Marked)
    ensures Structure(SetPhase(s, t, phase))
  {
    var r := SetPhase(s, t, phase);
    assert MessageOk(s, t);
    forall c | 0 <= c < |r.batches| ensures LinkOk(r, c) { assert LinkOk(s, c); }
    forall u | u in r.msgs ensures MessageOk(r, u) { assert MessageOk(s, u); }
    forall u | u in r.stored ensures StoredOk(r, u) { assert StoredOk(s, u); }
  }

  lemma RemoveInv(s: State, t: TaskId)
    requires Structure(s) && t in s.msgs && !s.msgs[t].phase.Executing?
    requires Current(s, t) ==>
               FinishedBatch(BatchOf(s, t).status) || (BatchOf(s, t).status == BatchRunning && t in s.revocable)
    ensures Structure(s.(msgs := s.msgs - {t}))
  {
    var r := s.(msgs := s.msgs - {t});
    assert MessageOk(s, t);
    forall c | 0 <= c < |r.batches| ensures LinkOk(r, c) { assert LinkOk(s, c); }
    forall u | u in r.msgs ensures MessageOk(r, u) { assert MessageOk(s, u); }
    forall u | u in r.stored ensures StoredOk(r, u) { assert StoredOk(s, u); }
  }

  lemma AckInv(s: State, t: TaskId)
    requires Inv(s) && Enabled(s, Ack(t))
    ensures Inv(Apply(s, Ack(t)))
  {
    assert MessageOk(s, t);
    RemoveInv(s, t);
  }

  lemma DropRevokedInv(s: State, t: TaskId)
    requires Inv(s) && Enabled(s, DropRevoked(t))
    ensures Inv(Apply(s, DropRevoked(t)))
  {
    assert MessageOk(s, t);
    if Current(s, t) {
      assert LinkOk(s, s.msgs[t].batch) && RowsOk(s.batches[s.msgs[t].batch]);
    }
    RemoveInv(s, t);
  }

  lemma DeliverInv(s: State, t: TaskId)
    requires Inv(s) && Enabled(s, Deliver(t))
    ensures Inv(Apply(s, Deliver(t)))
  {
    PhaseInv(s, t, Held);
  }

  lemma RefreshInv(s: State, t: TaskId)
    requires Inv(s) && Enabled(s, Refresh(t))
    ensures Inv(Apply(s, Refresh(t)))
  {
    var phase := if s.msgs[t].phase == Closing then Leaving else Done;
    PhaseInv(s, t, phase);
    var r := Apply(s, Refresh(t));
    StructureFrame(SetPhase(s, t, phase), r);
    RecountSettles(s, r);
  }

  // ---------------------------------------------------------------- blocks of a worker

  /** What a block of the worker of message `t` may make of its batch. */
  ghost predicate BlockOk(s: State, t: TaskId, x: Batch, phase: Phase) {
    && Current(s, t) && RowsOk(x) && x.taskId == Some(t)
    && t !in s.stored && x.status !in {BatchQueued, BatchPending}
    && Tally(x.items, ItemRunning) == x.interrupted + Bit(phase.Executing? && x.status == BatchRunning)
    && (x.status == BatchRunning ==> !Ending(phase))
    && (phase == Claimed || phase.Executing? ==> x.status in {BatchRunning, BatchFailed} && x.interrupted < x.attempts)
    && (phase.Executing? ==> phase.item < |x.items| && ExecutedItem(x.items[phase.item], x.status))
    && (phase in {Marked, Done} ==> NothingOpen(x))
    && (Ending(phase) ==> FinishedBatch(x.status))
    && (NothingOpen(BatchOf(s, t)) ==> NothingOpen(x))
  }

  lemma BlockLink(s: State, t: TaskId, x: Batch, phase: Phase, c: nat)
    requires Structure(s) && BlockOk(s, t, x, phase) && c < |s.batches|
    ensures RowsOk(SetBatch(s, t, x, phase).batches[c]) && LinkOk(SetBatch(s, t, x, phase), c)
  {
    assert RowsOk(s.batches[c]) && LinkOk(s, c) && LinkOk(s, s.msgs[t].batch);
  }

  lemma BlockMessage(s: State, t: TaskId, x: Batch, phase: Phase, u: TaskId)
    requires Structure(s) && BlockOk(s, t, x, phase) && u in s.msgs
    ensures MessageOk(SetBatch(s, t, x, phase), u)
  {
    assert MessageOk(s, u) && LinkOk(s, s.msgs[t].batch);
  }

  /** A block of the worker of message `t` leaves the other batches, messages and dispatch calls alone. */
  lemma BatchStructure(s: State, t: TaskId, x: Batch, phase: Phase)
    requires Structure(s) && BlockOk(s, t, x, phase)
    ensures Structure(SetBatch(s, t, x, phase))
  {
    var r := SetBatch(s, t, x, phase);
    forall c | 0 <= c < |r.batches| ensures RowsOk(r.batches[c]) && LinkOk(r, c) { BlockLink(s, t, x, phase, c); }
    forall u | u in r.msgs ensures MessageOk(r, u) { BlockMessage(s, t, x, phase, u); }
    forall u | u in r.stored ensures StoredOk(r, u) { assert StoredOk(s, u); }
  }

  /** `Structure` does not look at the job row, at `dirty` or at the dispatch calls. */
  lemma StructureFrame(s: State, r: State)
    requires Structure(s)
    requires r.batches == s.batches && r.msgs == s.msgs && r.stored == s.stored
    requires r.revocable == s.revocable && r.nextId == s.nextId
    ensures Structure(r)
  {
    forall c | 0 <= c < |r.batches| ensures LinkOk(r, c) { assert LinkOk(s, c); }
    forall u | u in r.msgs ensures MessageOk(r, u) { assert MessageOk(s, u); }
    forall u | u in r.stored ensures StoredOk(r, u) { assert StoredOk(s, u); }
  }

  lemma ClaimStructure(s: State, t: TaskId)
    requires Structure(s) && Enabled(s, Claim(t))
    ensures Structure(ApplyClaim(s, t))
  {
    ClaimedStructure(s, t);
    StructureFrame(SetBatch(s, t, ClaimedBatch(BatchOf(s, t)), Claimed), ApplyClaim(s, t));
  }

  lemma ClaimedStructure(s: State, t: TaskId)
    requires Structure(s) && Enabled(s, Claim(t))
    ensures Structure(SetBatch(s, t, ClaimedBatch(BatchOf(s, t)), Claimed))
  {
    assert MessageOk(s, t) && RowsOk(BatchOf(s, t)) && LinkOk(s, s.msgs[t].batch);
    BatchStructure(s, t, ClaimedBatch(BatchOf(s, t)), Claimed);
  }

  lemma ClaimInv(s: State, t: TaskId)
    requires Inv(s) && Enabled(s, Claim(t))
    ensures Inv(ApplyClaim(s, t))
  {
    ClaimStructure(s, t);
    var b := s.msgs[t].batch;
    var r := ApplyClaim(s, t);
    SameItemsTotals(s.batches, b, r.batches[b]);
    assert !FinishedBatch(s.batches[b].status) && !FinishedBatch(r.batches[b].status);
  }

  lemma ItemsOkUpdate(x: Batch, i: nat, y: Item)
    requires RowsOk(x) && i < |x.items| && ItemOk(y) && x.status in {BatchRunning, BatchFailed}
    requires x.items[i].status == ItemPending || y.status != ItemPending
    ensures x.status == BatchRunning ==> RowsOk(x.(items := x.items[i := y]))
    ensures x.status == BatchFailed && y.status != ItemPending ==> RowsOk(x.(items := x.items[i := y]))
  {
    TallyUpdate(x.items, i, y, ItemPending);
  }

  lemma StartItemStructure(s: State, t: TaskId, i: nat)
    requires Structure(s) && Enabled(s, StartItem(t, i))
    ensures Structure(ApplyStartItem(s, t, i))
    ensures BatchOf(s, t).status == BatchRunning
  {
    var b := s.msgs[t].batch;
    var x := s.batches[b];
    assert MessageOk(s, t) && RowsOk(x) && LinkOk(s, b);
    TallyZero(x.items, ItemPending);
    var item := StartedItem(x.items[i]);
    assert ItemOk(x.items[i]);
    ItemsOkUpdate(x, i, item);
    TallyUpdate(x.items, i, item, ItemRunning);
    BatchStructure(s, t, x.(items := x.items[i := item]), Executing(i));
  }

  lemma StartItemInv(s: State, t: TaskId, i: nat)
    requires Inv(s) && Enabled(s, StartItem(t, i))
    ensures Inv(ApplyStartItem(s, t, i))
  {
    StartItemStructure(s, t, i);
    var b := s.msgs[t].batch;
    var x := s.batches[b];
    SameTotals(s.batches, b, x.items, i, StartedItem(x.items[i]));
    var r := ApplyStartItem(s, t, i);
    assert !FinishedBatch(s.batches[b].status) && !FinishedBatch(r.batches[b].status);
  }

  /** An item that moves from pending to running leaves the other columns alone. */
  lemma SameTotals(batches: seq<Batch>, b: nat, items: seq<Item>, i: nat, item: Item)
    requires b < |batches| && items == batches[b].items && i < |items|
    requires items[i].status == ItemPending && item.status == ItemRunning
    ensures var r := batches[b := batches[b].(items := items[i := item])];
      && Total(r, ItemSucceeded) == Total(batches, ItemSucceeded)
      && Total(r, ItemFailed) == Total(batches, ItemFailed)
      && Total(r, ItemCancelled) == Total(batches, ItemCancelled)
      && ItemCount(r) == ItemCount(batches)
  {
    TotalUpdates(batches, b, batches[b].(items := items[i := item]));
    TallyUpdate(items, i, item, ItemSucceeded);
    TallyUpdate(items, i, item, ItemFailed);
    TallyUpdate(items, i, item, ItemCancelled);
  }

  lemma TotalUpdates(batches: seq<Batch>, b: nat, x: Batch)
    requires b < |batches| && |x.items| == |batches[b].items|
    ensures forall st ::
      Total(batches[b := x], st) == Total(batches, st) - Tally(batches[b].items, st) + Tally(x.items, st)
    ensures ItemCount(batches[b := x]) == ItemCount(batches)
  {
    forall st
      ensures Total(batches[b := x], st) == Total(batches, st) - Tally(batches[b].items, st) + Tally(x.items, st)
    {
      TotalUpdate(batches, b, x, st);
    }
    ItemCountUpdate(batches, b, x);
  }

  lemma EndItemStructure(s: State, t: TaskId, success: bool, result: string)
    requires Structure(s) && Enabled(s, EndItem(t, success, result))
    ensures Structure(ApplyEndItem(s, t, success, result))
    ensures BatchOf(s, t).status in {BatchRunning, BatchFailed}
    ensures ExecutedItem(BatchOf(s, t).items[s.msgs[t].phase.item], BatchOf(s, t).status)
  {
    var x := BatchOf(s, t);
    var i := s.msgs[t].phase.item;
    assert MessageOk(s, t) && RowsOk(x) && LinkOk(s, s.msgs[t].batch);
    var item := EndedItem(x.items[i], success, result);
    EndedBlock(s, t, x, i, item, CountEnd(x.counts, success));
    var y := x.(items := x.items[i := item], counts := CountEnd(x.counts, success));
    BatchStructure(s, t, y, Claimed);
    StructureFrame(SetBatch(s, t, y, Claimed), ApplyEndItem(s, t, success, result));
  }

  lemma EndedBlock(s: State, t: TaskId, x: Batch, i: nat, item: Item, counts: Counts)
    requires Current(s, t) && x == BatchOf(s, t) && s.msgs[t].phase == Executing(i) && i < |x.items|
    requires RowsOk(x) && LinkOk(s, s.msgs[t].batch) && MessageOk(s, t)
    requires ItemOk(item) && item.status in {ItemSucceeded, ItemFailed}
    ensures BlockOk(s, t, x.(items := x.items[i := item], counts := counts), Claimed)
  {
    ItemsOkUpdate(x, i, item);
    TallyUpdate(x.items, i, item, ItemRunning);
    TallyUpdate(x.items, i, item, ItemPending);
  }

  lemma EndItemInv(s: State, t: TaskId, success: bool, result: string)
    requires Inv(s) && Enabled(s, EndItem(t, success, result))
    ensures Inv(ApplyEndItem(s, t, success, result))
  {
    EndItemStructure(s, t, success, result);
    EndItemBooks(s, t, success, result);
  }

  lemma EndItemBooks(s: State, t: TaskId, success: bool, result: string)
    requires Counters(s) && Settled(s) && Untouched(s) && Enabled(s, EndItem(t, success, result))
    requires BatchOf(s, t).status in {BatchRunning, BatchFailed}
    requires ExecutedItem(BatchOf(s, t).items[s.msgs[t].phase.item], BatchOf(s, t).status)
    ensures var r := ApplyEndItem(s, t, success, result); Counters(r) && Settled(r) && Untouched(r)
  {
    EndItemTotals(s, t, success, result);
    var b := s.msgs[t].batch;
    SameStatusFinished(s.batches, b, ApplyEndItem(s, t, success, result).batches[b]);
    assert BatchOf(s, t).status == BatchRunning ==> !FinishedBatch(s.batches[b].status);
  }

  lemma EndItemTotals(s: State, t: TaskId, success: bool, result: string)
    requires Enabled(s, EndItem(t, success, result))
    requires BatchOf(s, t).items[s.msgs[t].phase.item].status in {ItemRunning, ItemFailed}
    ensures var r := ApplyEndItem(s, t, success, result);
            var again := Bit(BatchOf(s, t).items[s.msgs[t].phase.item].status == ItemFailed);
      && Total(r.batches, ItemSucceeded) == Total(s.batches, ItemSucceeded) + Bit(success)
      && Total(r.batches, ItemFailed) == Total(s.batches, ItemFailed) + Bit(!success) - again
      && Total(r.batches, ItemCancelled) == Total(s.batches, ItemCancelled)
      && ItemCount(r.batches) == ItemCount(s.batches)
  {
    var b := s.msgs[t].batch;
    var x := s.batches[b];
    var i := s.msgs[t].phase.item;
    var item := EndedItem(x.items[i], success, result);
    TotalUpdates(s.batches, b, ApplyEndItem(s, t, success, result).batches[b]);
    TallyUpdate(x.items, i, item, ItemSucceeded);
    TallyUpdate(x.items, i, item, ItemFailed);
    TallyUpdate(x.items, i, item, ItemCancelled);
  }

  lemma SameStatusFinished(batches: seq<Batch>, b: nat, x: Batch)
    requires b < |batches| && (FinishedBatch(x.status) <==> FinishedBatch(batches[b].status))
    ensures AllFinished(batches[b := x]) <==> AllFinished(batches)
  {
    var r := batches[b := x];
    if AllFinished(r) {
      forall c | 0 <= c < |batches| ensures FinishedBatch(batches[c].status) { assert FinishedBatch(r[c].status); }
    }
  }

  /** Ending a batch keeps the successes and can only raise the other two columns. */
  lemma CloseInv(s: State, t: TaskId, x: Batch)
    requires Inv(s) && Current(s, t) && s.msgs[t].phase in {Held, Claimed}
    requires RowsOk(x) && x.taskId == Some(t) && FinishedBatch(x.status)
    requires |x.items| == |BatchOf(s, t).items|
    requires Tally(x.items, ItemRunning) == x.interrupted
    requires Tally(x.items, ItemRunning) == Tally(BatchOf(s, t).items, ItemRunning)
    requires Tally(x.items, ItemSucceeded) == Tally(BatchOf(s, t).items, ItemSucceeded)
    requires s.job.cancelRequested
          || (x.status != BatchCancelled
              && Tally(x.items, ItemCancelled) == Tally(BatchOf(s, t).items, ItemCancelled))
    ensures Inv(Close(s, t, x))
  {
    CloseStructure(s, t, x);
    CloseBooks(s, t, x);
  }

  lemma CloseBooks(s: State, t: TaskId, x: Batch)
    requires Counters(s) && Settled(s) && Untouched(s) && Current(s, t)
    requires FinishedBatch(x.status) && |x.items| == |BatchOf(s, t).items|
    requires Tally(x.items, ItemSucceeded) == Tally(BatchOf(s, t).items, ItemSucceeded)
    requires s.job.cancelRequested
          || (x.status != BatchCancelled && Tally(x.items, ItemCancelled) == Tally(BatchOf(s, t).items, ItemCancelled))
    ensures var r := Close(s, t, x); Counters(r) && Settled(r) && Untouched(r)
  {
    TotalUpdates(s.batches, s.msgs[t].batch, x);
  }

  lemma CloseStructure(s: State, t: TaskId, x: Batch)
    requires Structure(s) && Current(s, t) && s.msgs[t].phase in {Held, Claimed}
    requires RowsOk(x) && x.taskId == Some(t) && FinishedBatch(x.status)
    requires Tally(x.items, ItemRunning) == x.interrupted == Tally(BatchOf(s, t).items, ItemRunning)
    ensures Structure(Close(s, t, x))
  {
    assert MessageOk(s, t);
    BatchStructure(s, t, x, Closing);
    StructureFrame(SetBatch(s, t, x, Closing), Close(s, t, x));
  }

  lemma CancelledRows(x: Batch, recount: bool)
    requires RowsOk(x)
    ensures var y := CancelledBatch(x, recount);
      && RowsOk(y)
      && Tally(y.items, ItemRunning) == Tally(x.items, ItemRunning)
      && Tally(y.items, ItemSucceeded) == Tally(x.items, ItemSucceeded)
      && Tally(y.items, ItemFailed) == Tally(x.items, ItemFailed)
      && Tally(y.items, ItemCancelled) >= Tally(x.items, ItemCancelled)
  {
    CancelItemsTally(x.items);
  }

  lemma CancelRestInv(s: State, t: TaskId)
    requires Inv(s) && (Enabled(s, CancelRest(t)) || Enabled(s, EarlyCancel(t)))
    ensures Inv(Close(s, t, CancelledBatch(BatchOf(s, t), s.early)))
  {
    assert MessageOk(s, t) && RowsOk(BatchOf(s, t)) && LinkOk(s, s.msgs[t].batch);
    CancelledRows(BatchOf(s, t), s.early);
    CloseInv(s, t, CancelledBatch(BatchOf(s, t), s.early));
  }

  lemma EndBatchInv(s: State, t: TaskId)
    requires Inv(s) && Enabled(s, EndBatch(t))
    ensures Inv(Apply(s, EndBatch(t)))
  {
    EndedRows(s, t);
    CloseInv(s, t, EndedBatch(BatchOf(s, t)));
  }

  lemma EndedRows(s: State, t: TaskId)
    requires Inv(s) && Enabled(s, EndBatch(t))
    ensures var x := BatchOf(s, t); var y := EndedBatch(x);
      RowsOk(y) && y.taskId == Some(t) && Tally(x.items, ItemRunning) == y.interrupted
  {
    var x := BatchOf(s, t);
    assert MessageOk(s, t) && RowsOk(x) && LinkOk(s, s.msgs[t].batch);
    TallyZero(x.items, ItemPending);
  }

  lemma FailedRows(x: Batch)
    requires RowsOk(x)
    ensures RowsOk(FailedBatch(x)) && NothingOpen(FailedBatch(x)) && |FailedBatch(x).items| == |x.items|
  {
    FailItemsTally(x.items);
    assert forall i :: 0 <= i < |x.items| ==> ItemOk(x.items[i]);
  }

  lemma MarkFailedLink(s: State, t: TaskId, c: nat)
    requires Structure(s) && Enabled(s, MarkFailed(t)) && c < |s.batches|
    ensures RowsOk(ApplyMarkFailed(s, t).batches[c]) && LinkOk(ApplyMarkFailed(s, t), c)
  {
    assert RowsOk(s.batches[c]) && LinkOk(s, c) && MessageOk(s, t);
    if c == s.msgs[t].batch { FailedRows(s.batches[c]); }
  }

  lemma MarkFailedMessage(s: State, t: TaskId, u: TaskId)
    requires Structure(s) && Enabled(s, MarkFailed(t)) && u in s.msgs
    ensures MessageOk(ApplyMarkFailed(s, t), u)
  {
    assert MessageOk(s, u) && MessageOk(s, t) && RowsOk(s.batches[s.msgs[u].batch]);
    if s.msgs[u].batch == s.msgs[t].batch { FailedRows(s.batches[s.msgs[u].batch]); }
  }

  lemma MarkFailedStructure(s: State, t: TaskId)
    requires Structure(s) && Enabled(s, MarkFailed(t))
    ensures Structure(ApplyMarkFailed(s, t))
  {
    var r := ApplyMarkFailed(s, t);
    forall c | 0 <= c < |r.batches| ensures RowsOk(r.batches[c]) && LinkOk(r, c) { MarkFailedLink(s, t, c); }
    forall u | u in r.msgs ensures MessageOk(r, u) { MarkFailedMessage(s, t, u); }
    forall u | u in r.stored ensures StoredOk(r, u) { assert StoredOk(s, u) && MessageOk(s, t); }
  }

  /** `mark_failed` by any message, on any batch. */
  lemma MarkFailedInv(s: State, t: TaskId)
    requires Inv(s) && Enabled(s, MarkFailed(t))
    ensures Inv(ApplyMarkFailed(s, t))
  {
    MarkFailedStructure(s, t);
    MarkFailedBooks(s, t);
  }

  lemma MarkFailedBooks(s: State, t: TaskId)
    requires Counters(s) && Settled(s) && Untouched(s) && Enabled(s, MarkFailed(t))
    ensures var r := ApplyMarkFailed(s, t); Counters(r) && Settled(r) && Untouched(r)
  {
    var b := s.msgs[t].batch;
    FailItemsTally(s.batches[b].items);
    TotalUpdates(s.batches, b, FailedBatch(s.batches[b]));
  }

  lemma CrashStructure(s: State, t: TaskId)
    requires Structure(s) && Enabled(s, Crash(t))
    ensures Structure(ApplyCrash(s, t))
  {
    if Interrupts(s, t) { InterruptStructure(s, t); } else { WaitingStructure(s, t); }
  }

  lemma InterruptStructure(s: State, t: TaskId)
    requires Structure(s) && t in s.msgs && Interrupts(s, t)
    ensures Structure(ApplyCrash(s, t))
  {
    assert MessageOk(s, t) && RowsOk(BatchOf(s, t)) && LinkOk(s, s.msgs[t].batch);
    InterruptedBlock(s, t);
    BatchStructure(s, t, BatchOf(s, t).(interrupted := BatchOf(s, t).interrupted + 1), Waiting);
  }

  lemma InterruptedBlock(s: State, t: TaskId)
    requires t in s.msgs && Interrupts(s, t)
    requires MessageOk(s, t) && RowsOk(BatchOf(s, t)) && LinkOk(s, s.msgs[t].batch)
    ensures BlockOk(s, t, BatchOf(s, t).(interrupted := BatchOf(s, t).interrupted + 1), Waiting)
  {
    TallyZero(BatchOf(s, t).items, ItemRunning);
  }

  /** A message that interrupts nothing goes back to the queue. */
  lemma WaitingStructure(s: State, t: TaskId)
    requires Structure(s) && t in s.msgs && !Interrupts(s, t)
    ensures Structure(SetPhase(s, t, Waiting))
  {
    var r := SetPhase(s, t, Waiting);
    assert MessageOk(s, t);
    forall c | 0 <= c < |r.batches| ensures LinkOk(r, c) { assert LinkOk(s, c); }
    forall u | u in r.msgs ensures MessageOk(r, u) { assert MessageOk(s, u); }
    forall u | u in r.stored ensures StoredOk(r, u) { assert StoredOk(s, u); }
  }

  lemma CrashInv(s: State, t: TaskId)
    requires Inv(s) && Enabled(s, Crash(t))
    ensures Inv(ApplyCrash(s, t))
  {
    assert MessageOk(s, t);
    CrashStructure(s, t);
    if Interrupts(s, t) {
      var b := s.msgs[t].batch;
      SameItemsTotals(s.batches, b, ApplyCrash(s, t).batches[b]);
      SameStatusFinished(s.batches, b, ApplyCrash(s, t).batches[b]);
    }
  }

  // ---------------------------------------------------------------- every label, every run

  /** Every commit keeps the invariant. */
  lemma StepInv(s: State, l: Label)
    requires Inv(s) && Enabled(s, l)
    ensures Inv(Apply(s, l))
  {
    match l
    case Store(b) => StoreInv(s, b);
    case PublishOk(t) => PublishOkInv(s, t);
    case PublishFail(t, delivered) => PublishFailInv(s, t, delivered);
    case DispatchError => DispatchEndInv(s, l);
    case DispatchFailed => DispatchEndInv(s, l);
    case DispatchDone => DispatchEndInv(s, l);
    case Resume => ResumeInv(s);
    case Cancel => CancelInv(s);
    case RefreshNow => RefreshNowInv(s);
    case Deliver(t) => DeliverInv(s, t);
    case Ack(t) => AckInv(s, t);
    case DropRevoked(t) => DropRevokedInv(s, t);
    case EarlyCancel(t) => CancelRestInv(s, t);
    case Claim(t) => ClaimInv(s, t);
    case StartItem(t, i) => StartItemInv(s, t, i);
    case EndItem(t, success, result) => EndItemInv(s, t, success, result);
    case CancelRest(t) => CancelRestInv(s, t);
    case EndBatch(t) => EndBatchInv(s, t);
    case MarkFailed(t) => MarkFailedInv(s, t);
    case Refresh(t) => RefreshInv(s, t);
    case Crash(t) => CrashInv(s, t);
  }

  /** Every state of every run keeps the invariant. */
  lemma {:induction false} RunInv(s: State, run: seq<Label>)
    requires Inv(s) && Valid(s, run)
    ensures Inv(Exec(s, run))
    decreases |run|
  {
    if run != [] {
      StepInv(s, run[0]);
      RunInv(Apply(s, run[0]), run[1..]);
    }
  }
}
