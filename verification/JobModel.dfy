/**
 The rows of the job tables (jobs, job_batches, job_items) and the blocks of assignments that the
 service and the batch processors commit as one transaction.
 */
module JobModel {
  import opened Prelude

  datatype JobStatus =
    | JobQueued
    | JobDispatchFailed
    | JobRunning
    | JobCancelRequested
    | JobCancelled
    | JobCompleted
    | JobCompletedWithErrors
    | JobFailed

  datatype BatchStatus =
    | BatchPending
    | BatchQueued
    | BatchRunning
    | BatchCompleted
    | BatchCompletedWithErrors
    | BatchFailed
    | BatchCancelled

  datatype ItemStatus = ItemPending | ItemRunning | ItemSucceeded | ItemFailed | ItemCancelled

  type Payload = Option<string>
  type TaskId = nat

  /** `origin` is the payload the item was created with; `payload` is the column `result_data`. */
  datatype Item = Item(reference: string, status: ItemStatus, attempts: nat, payload: Payload, origin: Payload)

  datatype Counts = Counts(succeeded: nat, failed: nat, cancelled: nat)

  /** `interrupted` counts the items that lost workers left running since the last `mark_failed` of the batch. */
  datatype Batch = Batch(
    status: BatchStatus,
    taskId: Option<TaskId>,
    attempts: nat,
    interrupted: nat,
    totalItems: nat,
    counts: Counts,
    items: seq<Item>)

  /** `cancelRequested` says that the column `cancel_requested_at` is set. */
  datatype Job = Job(
    status: JobStatus,
    cancelRequested: bool,
    totalItems: nat,
    processed: nat,
    succeeded: nat,
    failed: nat,
    cancelled: nat,
    totalBatches: nat,
    finishedBatches: nat)

  predicate TerminalJob(st: JobStatus) {
    st in {JobCancelled, JobCompleted, JobCompletedWithErrors, JobFailed}
  }

  predicate FinishedBatch(st: BatchStatus) {
    st in {BatchCompleted, BatchCompletedWithErrors, BatchFailed, BatchCancelled}
  }

  /** What `_is_cancel_requested` reads. */
  predicate CancelSeen(st: JobStatus) {
    st in {JobCancelRequested, JobCancelled}
  }

  predicate TerminalItem(st: ItemStatus) {
    st in {ItemSucceeded, ItemFailed, ItemCancelled}
  }

  // ---------------------------------------------------------------- counting

  function Bit(b: bool): nat { if b then 1 else 0 }

  /** How many items of `items` have status `st`. */
  function Tally(items: seq<Item>, st: ItemStatus): nat {
    if items == [] then 0
    else Tally(items[..|items| - 1], st) + Bit(items[|items| - 1].status == st)
  }

  function TallyAll(items: seq<Item>): Counts {
    Counts(Tally(items, ItemSucceeded), Tally(items, ItemFailed), Tally(items, ItemCancelled))
  }

  /** How many items of the whole job have status `st`: the group-by count of `refresh_progress`. */
  function Total(batches: seq<Batch>, st: ItemStatus): nat {
    if batches == [] then 0
    else Total(batches[..|batches| - 1], st) + Tally(batches[|batches| - 1].items, st)
  }

  function ItemCount(batches: seq<Batch>): nat {
    if batches == [] then 0
    else ItemCount(batches[..|batches| - 1]) + |batches[|batches| - 1].items|
  }

  function FinishedCount(batches: seq<Batch>): nat {
    if batches == [] then 0
    else FinishedCount(batches[..|batches| - 1]) + Bit(FinishedBatch(batches[|batches| - 1].status))
  }

  ghost predicate AllFinished(batches: seq<Batch>) {
    forall b :: 0 <= b < |batches| ==> FinishedBatch(batches[b].status)
  }

  lemma {:induction false} TallyUpdate(items: seq<Item>, i: nat, x: Item, st: ItemStatus)
    requires i < |items|
    ensures Tally(items[i := x], st) == Tally(items, st) - Bit(items[i].status == st) + Bit(x.status == st)
    ensures Tally(items, st) >= Bit(items[i].status == st)
  {
    var n := |items| - 1;
    if i == n {
      assert items[i := x][..n] == items[..n];
    } else {
      assert items[i := x][..n] == items[..n][i := x];
      TallyUpdate(items[..n], i, x, st);
    }
  }

  /** A tally is zero exactly when no item has the status. */
  lemma {:induction false} TallyZero(items: seq<Item>, st: ItemStatus)
    ensures Tally(items, st) == 0 <==> forall i :: 0 <= i < |items| ==> items[i].status != st
  {
    if items != [] {
      TallyZero(items[..|items| - 1], st);
    }
  }

  /** Every item is in exactly one of the five columns of the group-by. */
  lemma {:induction false} TallyPartition(items: seq<Item>)
    ensures Tally(items, ItemPending) + Tally(items, ItemRunning) + Tally(items, ItemSucceeded)
         + Tally(items, ItemFailed) + Tally(items, ItemCancelled) == |items|
  {
    if items != [] {
      TallyPartition(items[..|items| - 1]);
    }
  }

  lemma {:induction false} TotalPartition(batches: seq<Batch>)
    ensures Total(batches, ItemPending) + Total(batches, ItemRunning) + Total(batches, ItemSucceeded)
         + Total(batches, ItemFailed) + Total(batches, ItemCancelled) == ItemCount(batches)
  {
    if batches != [] {
      TotalPartition(batches[..|batches| - 1]);
      TallyPartition(batches[|batches| - 1].items);
    }
  }

  lemma {:induction false} TotalUpdate(batches: seq<Batch>, b: nat, x: Batch, st: ItemStatus)
    requires b < |batches|
    ensures Total(batches[b := x], st) == Total(batches, st) - Tally(batches[b].items, st) + Tally(x.items, st)
    ensures Total(batches, st) >= Tally(batches[b].items, st)
  {
    var n := |batches| - 1;
    if b == n {
      assert batches[b := x][..n] == batches[..n];
    } else {
      assert batches[b := x][..n] == batches[..n][b := x];
      TotalUpdate(batches[..n], b, x, st);
    }
  }

  lemma {:induction false} ItemCountUpdate(batches: seq<Batch>, b: nat, x: Batch)
    requires b < |batches| && |x.items| == |batches[b].items|
    ensures ItemCount(batches[b := x]) == ItemCount(batches)
  {
    var n := |batches| - 1;
    if b == n {
      assert batches[b := x][..n] == batches[..n];
    } else {
      assert batches[b := x][..n] == batches[..n][b := x];
      ItemCountUpdate(batches[..n], b, x);
    }
  }

  /** The comparison `finished_batches == total_batches` says that every batch has ended. */
  lemma {:induction false} FinishedCountAll(batches: seq<Batch>)
    ensures FinishedCount(batches) <= |batches|
    ensures FinishedCount(batches) == |batches| <==> AllFinished(batches)
  {
    if batches != [] {
      var n := |batches| - 1;
      FinishedCountAll(batches[..n]);
      if AllFinished(batches[..n]) && FinishedBatch(batches[n].status) {
        forall b | 0 <= b < |batches| ensures FinishedBatch(batches[b].status) {
          if b < n { assert batches[..n][b] == batches[b]; }
        }
      }
      if AllFinished(batches) {
        forall b | 0 <= b < n ensures FinishedBatch(batches[..n][b].status) {
          assert batches[..n][b] == batches[b];
        }
      }
    }
  }

  // ---------------------------------------------------------------- blocks on items and batches

  function CancelItem(x: Item): Item {
    if x.status == ItemPending then x.(status := ItemCancelled) else x
  }

  function FailItem(x: Item): Item {
    if x.status in {ItemPending, ItemRunning} then x.(status := ItemFailed) else x
  }

  function CancelItems(items: seq<Item>): (r: seq<Item>)
    ensures |r| == |items|
    ensures forall i :: 0 <= i < |items| && items[i].status != ItemPending ==> r[i] == items[i]
    ensures forall i ::
      0 <= i < |items| && items[i].status == ItemPending ==> r[i] == items[i].(status := ItemCancelled)
  {
    seq(|items|, i requires 0 <= i < |items| => CancelItem(items[i]))
  }

  function FailItems(items: seq<Item>): (r: seq<Item>)
    ensures |r| == |items|
    ensures forall i :: 0 <= i < |items| && items[i].status !in {ItemPending, ItemRunning} ==> r[i] == items[i]
    ensures forall i ::
      0 <= i < |items| && items[i].status in {ItemPending, ItemRunning} ==> r[i] == items[i].(status := ItemFailed)
  {
    seq(|items|, i requires 0 <= i < |items| => FailItem(items[i]))
  }

  /** `_cancel_pending`: the email processor leaves the batch counters as they are. */
  function CancelledBatch(x: Batch, recount: bool): Batch {
    var items := CancelItems(x.items);
    x.(status := BatchCancelled, items := items, counts := if recount then TallyAll(items) else x.counts)
  }

  /** `mark_failed`: whatever the batch was doing, and also when it had ended. */
  function FailedBatch(x: Batch): Batch {
    x.(status := BatchFailed, items := FailItems(x.items), interrupted := 0)
  }

  /** `_finish_batch`. */
  function EndedBatch(x: Batch): Batch {
    var counts := TallyAll(x.items);
    x.(status := if counts.failed > 0 then BatchCompletedWithErrors else BatchCompleted, counts := counts)
  }

  /** The update that claims a batch. */
  function ClaimedBatch(x: Batch): Batch {
    x.(status := BatchRunning, attempts := x.attempts + 1)
  }

  predicate Idle(st: BatchStatus) {
    st in {BatchPending, BatchQueued}
  }

  /** What `cancel_job` does to one batch. */
  function CancelIfIdle(x: Batch): Batch {
    if Idle(x.status) then CancelledBatch(x, true) else x
  }

  function CancelIdle(batches: seq<Batch>): (r: seq<Batch>)
    ensures |r| == |batches|
  {
    seq(|batches|, b requires 0 <= b < |batches| => CancelIfIdle(batches[b]))
  }

  /** The first item block of `_process_item`. */
  function StartedItem(x: Item): Item {
    x.(status := ItemRunning, attempts := x.attempts + 1)
  }

  /** The second item block: a success replaces the payload by the result, a failure keeps it. */
  function EndedItem(x: Item, success: bool, result: string): Item {
    if success then x.(status := ItemSucceeded, payload := Some(result)) else x.(status := ItemFailed)
  }

  function CountEnd(c: Counts, success: bool): Counts {
    if success then c.(succeeded := c.succeeded + 1) else c.(failed := c.failed + 1)
  }

  /** `_increment_progress`, on the job row. */
  function IncrementProgress(j: Job, success: bool): Job {
    if success then j.(processed := j.processed + 1, succeeded := j.succeeded + 1)
    else j.(processed := j.processed + 1, failed := j.failed + 1)
  }

  /** `_mark_job_running`: a cancelled job keeps its status and so does a failed dispatch. */
  function MarkRunning(st: JobStatus): JobStatus {
    if CancelSeen(st) || st == JobDispatchFailed then st else JobRunning
  }

  function OutcomeStatus(cancelRequested: bool, succeeded: nat, failed: nat): JobStatus {
    if cancelRequested then JobCancelled
    else if failed > 0 && succeeded > 0 then JobCompletedWithErrors
    else if failed > 0 then JobFailed
    else JobCompleted
  }

  /** `refresh_progress`: recount from the items and, when every batch has ended, settle the job. */
  function Recount(j: Job, batches: seq<Batch>): Job {
    var s := Total(batches, ItemSucceeded);
    var f := Total(batches, ItemFailed);
    var c := Total(batches, ItemCancelled);
    var done := FinishedCount(batches);
    j.(succeeded := s, failed := f, cancelled := c, processed := s + f + c, finishedBatches := done,
       status := if done == j.totalBatches then OutcomeStatus(j.cancelRequested, s, f) else j.status)
  }

  // ---------------------------------------------------------------- what the blocks keep

  /** The only ways one block may change an item. */
  predicate ItemMove(x: Item, y: Item) {
    && y.reference == x.reference
    && y.origin == x.origin
    && (|| y == x
        || (x.status == ItemPending && y == StartedItem(x))
        || (x.status == ItemPending && y == x.(status := ItemCancelled))
        || (x.status in {ItemPending, ItemRunning} && y == x.(status := ItemFailed))
        || (x.status in {ItemRunning, ItemFailed} && y.status == ItemSucceeded && y.attempts == x.attempts))
  }

  /** Facts that hold of every item of every reachable state. */
  predicate ItemOk(x: Item) {
    && (x.status in {ItemPending, ItemCancelled} ==> x.attempts == 0)
    && (x.status in {ItemRunning, ItemSucceeded} ==> x.attempts == 1)
    && x.attempts <= 1
    && (x.status != ItemSucceeded ==> x.payload == x.origin)
  }

  lemma {:induction false} CancelItemsTally(items: seq<Item>)
    ensures var r := CancelItems(items);
      && Tally(r, ItemPending) == 0
      && Tally(r, ItemRunning) == Tally(items, ItemRunning)
      && Tally(r, ItemSucceeded) == Tally(items, ItemSucceeded)
      && Tally(r, ItemFailed) == Tally(items, ItemFailed)
      && Tally(r, ItemCancelled) == Tally(items, ItemCancelled) + Tally(items, ItemPending)
  {
    if items != [] {
      var n := |items| - 1;
      CancelItemsTally(items[..n]);
      assert CancelItems(items)[..n] == CancelItems(items[..n]);
    }
  }

  lemma {:induction false} FailItemsTally(items: seq<Item>)
    ensures var r := FailItems(items);
      && Tally(r, ItemPending) == 0
      && Tally(r, ItemRunning) == 0
      && Tally(r, ItemSucceeded) == Tally(items, ItemSucceeded)
      && Tally(r, ItemFailed) == Tally(items, ItemFailed) + Tally(items, ItemPending) + Tally(items, ItemRunning)
      && Tally(r, ItemCancelled) == Tally(items, ItemCancelled)
  {
    if items != [] {
      var n := |items| - 1;
      FailItemsTally(items[..n]);
      assert FailItems(items)[..n] == FailItems(items[..n]);
    }
  }

  /** How many items are pending in batches that nobody has claimed. */
  function IdlePending(batches: seq<Batch>): nat {
    if batches == [] then 0
    else
      var x := batches[|batches| - 1];
      IdlePending(batches[..|batches| - 1]) + if Idle(x.status) then Tally(x.items, ItemPending) else 0
  }

  /**
   `cancel_job` moves exactly the pending items of idle batches into the cancelled column, and ends no other batch.
   */
  lemma {:induction false} CancelIdleTotals(batches: seq<Batch>)
    ensures Total(CancelIdle(batches), ItemSucceeded) == Total(batches, ItemSucceeded)
    ensures Total(CancelIdle(batches), ItemFailed) == Total(batches, ItemFailed)
    ensures Total(CancelIdle(batches), ItemRunning) == Total(batches, ItemRunning)
    ensures Total(CancelIdle(batches), ItemCancelled) == Total(batches, ItemCancelled) + IdlePending(batches)
    ensures Total(CancelIdle(batches), ItemPending) == Total(batches, ItemPending) - IdlePending(batches)
    ensures ItemCount(CancelIdle(batches)) == ItemCount(batches)
    ensures forall b :: 0 <= b < |batches| && !Idle(batches[b].status) ==> CancelIdle(batches)[b] == batches[b]
  {
    if batches != [] {
      var n := |batches| - 1;
      CancelIdleTotals(batches[..n]);
      CancelItemsTally(batches[n].items);
      assert CancelIdle(batches)[..n] == CancelIdle(batches[..n]);
    }
  }
}
