/**
 The loops of the job service and of the batch processors over the rows they hold in a session. Each
 method is proved to compute the corresponding block of JobModel, so that what is proved about the
 protocol holds of these loops.
 */
module JobBlocks {
  import opened Prelude
  import opened JobModel
  import opened JobProtocol

  datatype JobError = AlreadyFinished

  class JobRows {
    var job: Job
    var batches: seq<Batch>

    constructor (job: Job, batches: seq<Batch>)
      ensures this.job == job && this.batches == batches
    {
      this.job := job;
      this.batches := batches;
    }

    /** The item loop of `_cancel_pending` and of `cancel_job`. */
    method CancelItemsOf(b: nat)
      requires b < |batches|
      modifies this`batches
      ensures batches == old(batches)[b := old(batches)[b].(items := CancelItems(old(batches)[b].items))]
    {
      ghost var was := batches[b].items;
      var n := |batches[b].items|;
      var i := 0;
      while i < n
        invariant i <= n == |was|
        invariant |batches| == |old(batches)|
        invariant batches == old(batches)[b := old(batches)[b].(items := batches[b].items)]
        invariant |batches[b].items| == n
        invariant forall k :: 0 <= k < i ==> batches[b].items[k] == CancelItems(was)[k]
        invariant forall k :: i <= k < n ==> batches[b].items[k] == was[k]
      {
        var x := batches[b].items[i];
        if x.status == ItemPending {
          batches := batches[b := batches[b].(items := batches[b].items[i := x.(status := ItemCancelled)])];
        }
        i := i + 1;
      }
      assert batches[b].items == CancelItems(was);
    }

    /** `_cancel_pending`; only the processors that check early recount the batch. */
    method CancelPending(b: nat, recount: bool)
      requires b < |batches|
      modifies this`batches
      ensures batches == old(batches)[b := CancelledBatch(old(batches)[b], recount)]
    {
      CancelItemsOf(b);
      var x := batches[b].(status := BatchCancelled);
      if recount {
        x := x.(counts := TallyAll(x.items));
      }
      batches := batches[b := x];
    }

    /** The body of the batch loop of `cancel_job`. */
    method CancelBatchIfIdle(b: nat)
      requires b < |batches|
      modifies this`batches
      ensures batches == old(batches)[b := CancelIfIdle(old(batches)[b])]
    {
      if Idle(batches[b].status) {
        CancelPending(b, true);
      } else {
        assert batches == batches[b := batches[b]];
      }
    }

    /** The block of `cancel_job` up to its commit. The ids are the ones handed to `revoke`. */
    method CancelJob() returns (r: Result<set<TaskId>, JobError>)
      modifies this
      ensures r.Err? <==> TerminalJob(old(job).status)
      ensures r.Err? ==> job == old(job) && batches == old(batches)
      ensures r.Ok? ==>
        && job == old(job).(status := JobCancelRequested, cancelRequested := true)
        && batches == CancelIdle(old(batches))
        && r.value == TaskIds(old(batches))
    {
      if TerminalJob(job.status) {
        return Err(AlreadyFinished);
      }
      job := job.(status := JobCancelRequested, cancelRequested := true);
      ghost var was := batches;
      var ids: set<TaskId> := {};
      var b := 0;
      while b < |batches|
        invariant b <= |batches| == |was|
        invariant forall c :: 0 <= c < b ==> batches[c] == CancelIfIdle(was[c])
        invariant forall c :: b <= c < |was| ==> batches[c] == was[c]
        invariant ids == TaskIds(was[..b])
        invariant job == old(job).(status := JobCancelRequested, cancelRequested := true)
      {
        assert was[..b + 1] == was[..b] + [was[b]];
        TaskIdsSnoc(was[..b], was[b]);
        if batches[b].taskId.Some? {
          ids := ids + {batches[b].taskId.value};
        }
        CancelBatchIfIdle(b);
        b := b + 1;
      }
      assert was[..b] == was;
      assert batches == CancelIdle(was);
      return Ok(ids);
    }

    /** The item loop of `mark_failed`. */
    method FailItemsOf(b: nat)
      requires b < |batches|
      modifies this`batches
      ensures batches == old(batches)[b := old(batches)[b].(items := FailItems(old(batches)[b].items))]
    {
      ghost var was := batches[b].items;
      var n := |batches[b].items|;
      var i := 0;
      while i < n
        invariant i <= n == |was|
        invariant |batches| == |old(batches)|
        invariant batches == old(batches)[b := old(batches)[b].(items := batches[b].items)]
        invariant |batches[b].items| == n
        invariant forall k :: 0 <= k < i ==> batches[b].items[k] == FailItems(was)[k]
        invariant forall k :: i <= k < n ==> batches[b].items[k] == was[k]
      {
        var x := batches[b].items[i];
        if x.status == ItemPending || x.status == ItemRunning {
          batches := batches[b := batches[b].(items := batches[b].items[i := x.(status := ItemFailed)])];
        }
        i := i + 1;
      }
      assert batches[b].items == FailItems(was);
    }

    /** `mark_failed` up to its commit. */
    method MarkFailed(b: nat)
      requires b < |batches|
      modifies this`batches
      ensures batches == old(batches)[b := FailedBatch(old(batches)[b])]
    {
      FailItemsOf(b);
      batches := batches[b := batches[b].(status := BatchFailed, interrupted := 0)];
    }

    /** `_finish_batch` up to its commit: the three counts are taken from the list of statuses. */
    method FinishBatch(b: nat)
      requires b < |batches|
      modifies this`batches
      ensures batches == old(batches)[b := EndedBatch(old(batches)[b])]
    {
      var items := batches[b].items;
      var counts := Counts(0, 0, 0);
      var i := 0;
      while i < |items|
        invariant i <= |items|
        invariant counts == TallyAll(items[..i])
      {
        assert items[..i + 1][..i] == items[..i];
        match items[i].status {
          case ItemSucceeded => counts := counts.(succeeded := counts.succeeded + 1);
          case ItemFailed => counts := counts.(failed := counts.failed + 1);
          case ItemCancelled => counts := counts.(cancelled := counts.cancelled + 1);
          case _ =>
        }
        i := i + 1;
      }
      assert items[..i] == items;
      var status := if counts.failed > 0 then BatchCompletedWithErrors else BatchCompleted;
      batches := batches[b := batches[b].(counts := counts, status := status)];
    }

    /** `refresh_progress`: the group-by query, the count of ended batches, and the settled status. */
    method RefreshProgress()
      modifies this`job
      ensures job == Recount(old(job), batches)
    {
      job := job.(succeeded := Total(batches, ItemSucceeded),
                  failed := Total(batches, ItemFailed),
                  cancelled := Total(batches, ItemCancelled));
      job := job.(processed := job.succeeded + job.failed + job.cancelled);
      job := job.(finishedBatches := FinishedCount(batches));
      if job.finishedBatches == job.totalBatches {
        if job.cancelRequested {
          job := job.(status := JobCancelled);
        } else if job.failed > 0 && job.succeeded > 0 {
          job := job.(status := JobCompletedWithErrors);
        } else if job.failed > 0 {
          job := job.(status := JobFailed);
        } else {
          job := job.(status := JobCompleted);
        }
      }
    }
  }

  lemma TaskIdsSnoc(batches: seq<Batch>, x: Batch)
    ensures TaskIds(batches + [x]) == TaskIds(batches) + if x.taskId.Some? then {x.taskId.value} else {}
  {
    var all := batches + [x];
    forall t | t in TaskIds(batches) ensures t in TaskIds(all) {
      var b :| 0 <= b < |batches| && batches[b].taskId == Some(t);
      assert all[b] == batches[b];
    }
    if x.taskId.Some? {
      assert all[|batches|] == x;
    }
  }
}
