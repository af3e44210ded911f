/** Cancellation and resumption of a failed dispatch, each with its exact condition. */
module JobCancellation {
  import opened Prelude
  import opened JobModel
  import opened JobProtocol
  import opened JobInvariant
  import opened JobTheorems
  import opened JobOutcomes

  // ---------------------------------------------------------------- cancellation

  /** A cancelled job that no dispatch call can bring back. */
  ghost predicate Stopped(s: State) {
    && Inv(s)
    && s.job.cancelRequested
    && CancelSeen(s.job.status)
    && DispatchIdle(s)
    && !HasPending(s)
  }

  lemma StoppedStep(s: State, l: Label)
    requires Stopped(s) && Enabled(s, l)
    ensures Stopped(Apply(s, l))
    ensures !l.StartItem? && !l.Store?
  {
    StepInv(s, l);
    if MessageOf(l).Some? { WorkersStayStopped(s, l); }
  }

  lemma WorkersStayStopped(s: State, l: Label)
    requires Enabled(s, l) && MessageOf(l).Some?
    requires s.job.cancelRequested && CancelSeen(s.job.status) && !HasPending(s)
    ensures var r := Apply(s, l);
      r.job.cancelRequested && CancelSeen(r.job.status) && SameDispatch(s, r) && !HasPending(r) && !l.StartItem?
  {
    WorkersKeepMessages(s, l);
    WorkersAddNoPending(s, l);
    WorkersKeepCancelled(s, l);
  }

  lemma WorkersKeepCancelled(s: State, l: Label)
    requires Enabled(s, l) && MessageOf(l).Some? && s.job.cancelRequested && CancelSeen(s.job.status)
    ensures var r := Apply(s, l);
      r.job.cancelRequested && CancelSeen(r.job.status) && SameDispatch(s, r) && !l.StartItem?
  {
  }

  lemma {:induction false} StoppedRun(s: State, run: seq<Label>)
    requires Stopped(s) && Valid(s, run)
    ensures Stopped(Exec(s, run))
    ensures forall b, i :: Executions(s, run, b, i) == 0
    decreases |run|
  {
    if run != [] {
      StoppedStep(s, run[0]);
      StoppedRun(Apply(s, run[0]), run[1..]);
    }
  }

  lemma CancelStops(s: State)
    requires Inv(s) && Enabled(s, Cancel) && DispatchIdle(s)
    ensures Stopped(ApplyCancel(s))
  {
    StepInv(s, Cancel);
  }

  lemma StoppedExactly(s: State)
    requires Inv(s) && Enabled(s, Cancel)
    ensures (forall run | Valid(ApplyCancel(s), run) :: CancelSeen(Exec(ApplyCancel(s), run).job.status))
       <==> DispatchIdle(s)
  {
    var c := ApplyCancel(s);
    if DispatchIdle(s) {
      CancelStops(s);
      forall run | Valid(c, run) ensures CancelSeen(Exec(c, run).job.status) { StoppedRun(c, run); }
    } else {
      StepInv(s, Cancel);
      var run := DispatchCanOverwrite(c);
      assert !CancelSeen(Exec(c, run).job.status);
    }
  }

  /**
   Cancellation is irrevocable, for both orders of claim and cancel check, whether or not the broker revokes
   anything and whatever `mark_failed` is called for, exactly when no dispatch call is under way when `cancel_job`
   commits: none that scans, none that is between its store and its publication, and none whose caller still has to
   write DISPATCH_FAILED.
   */
  lemma CancelIsIrrevocableExactly(s: State)
    requires Reachable(s) && Enabled(s, Cancel)
    ensures var c := ApplyCancel(s);
      (forall run | Valid(c, run) :: CancelSeen(Exec(c, run).job.status)) <==> DispatchIdle(s)
  {
    ReachableInv(s);
    StoppedExactly(s);
  }

  /** A worker moves its message or takes it away, and stores nothing. */
  lemma WorkersKeepMessages(s: State, l: Label)
    requires Enabled(s, l) && MessageOf(l).Some?
    ensures var r := Apply(s, l);
      && |r.batches| == |s.batches| && r.stored == s.stored
      && forall t :: t in r.msgs ==> t in s.msgs && r.msgs[t].batch == s.msgs[t].batch
  {
  }

  lemma WorkersAddNoPending(s: State, l: Label)
    requires Enabled(s, l) && MessageOf(l).Some?
    ensures var r := Apply(s, l);
      forall b :: 0 <= b < |s.batches| && b < |r.batches| && r.batches[b].status == BatchPending ==>
        s.batches[b].status == BatchPending
  {
  }

  // ---------------------------------------------------------------- what a cancellation stops

  /** Nothing is to be published, and nothing can be put back. */
  predicate NothingToPublish(s: State) {
    s.stored == map[] && !HasPending(s)
  }

  lemma NothingToPublishStep(s: State, l: Label)
    requires NothingToPublish(s) && Enabled(s, l)
    ensures NothingToPublish(Apply(s, l))
  {
    if MessageOf(l).Some? {
      WorkersKeepMessages(s, l);
      WorkersAddNoPending(s, l);
    }
  }

  lemma {:induction false} NothingToPublishRun(s: State, run: seq<Label>)
    requires NothingToPublish(s) && Valid(s, run)
    ensures NothingToPublish(Exec(s, run))
    decreases |run|
  {
    if run != [] {
      NothingToPublishStep(s, run[0]);
      NothingToPublishRun(Apply(s, run[0]), run[1..]);
    }
  }

  /** No later state has a batch to publish. */
  ghost predicate NeverPending(s: State) {
    forall run | Valid(s, run) :: !HasPending(Exec(s, run))
  }

  /** No later state can be resumed. */
  ghost predicate NeverResumed(s: State) {
    forall run | Valid(s, run) :: !Enabled(Exec(s, run), Resume)
  }

  /** A stored batch can be put back, and once its caller has written DISPATCH_FAILED the job can be resumed. */
  lemma PutBackRun(s: State)
    requires Inv(s) && s.stored != map[]
    ensures !NeverPending(s) && !NeverResumed(s)
  {
    var t := PickStored(s);
    var run := FailTwice(s, PublishFail(t, false));
    assert Exec(s, run).batches[s.stored[t]].status == BatchPending;
    assert Enabled(Exec(s, run), Resume);
  }

  /**
   After a cancellation no batch is ever to be published again, and the job can never be resumed, exactly when no
   batch is between its store and its publication when `cancel_job` commits.
   */
  lemma CancelStopsDispatchExactly(s: State)
    requires Reachable(s) && Enabled(s, Cancel)
    ensures var c := ApplyCancel(s);
      (NeverPending(c) <==> s.stored == map[]) && (NeverResumed(c) <==> s.stored == map[])
  {
    ReachableInv(s);
    StepInv(s, Cancel);
    var c := ApplyCancel(s);
    if s.stored == map[] {
      NeverPublishes(c);
    } else {
      PutBackRun(c);
    }
  }

  lemma NeverPublishes(c: State)
    requires NothingToPublish(c)
    ensures NeverPending(c) && NeverResumed(c)
  {
    forall run | Valid(c, run) ensures !HasPending(Exec(c, run)) && !Enabled(Exec(c, run), Resume) {
      NothingToPublishRun(c, run);
    }
  }

  /** Item `i` of batch `b` waits for the worker that holds, or will get, the message of the batch. */
  predicate Startable(s: State, b: nat, i: nat) {
    && b < |s.batches| && s.batches[b].status == BatchRunning
    && s.batches[b].taskId.Some? && s.batches[b].taskId.value in s.msgs
    && i < |s.batches[b].items| && s.batches[b].items[i].status == ItemPending
  }

  /** If a batch has pending items, it is running and its message is gone. */
  predicate OutOfReach(s: State, b: nat)
    requires b < |s.batches|
  {
    var x := s.batches[b];
    Tally(x.items, ItemPending) > 0 ==> x.status == BatchRunning && x.taskId.Some? && x.taskId.value !in s.msgs
  }

  ghost predicate AllOutOfReach(s: State) {
    forall b :: 0 <= b < |s.batches| ==> OutOfReach(s, b)
  }

  lemma OutOfReachStep(s: State, l: Label, b: nat)
    requires Inv(s) && Enabled(s, l) && b < |s.batches| && OutOfReach(s, b)
    ensures b < |Apply(s, l).batches| && OutOfReach(Apply(s, l), b)
  {
    assert RowsOk(s.batches[b]) && LinkOk(s, b);
    if MessageOf(l).Some? {
      assert MessageOk(s, l.t);
      if s.msgs[l.t].batch != b {
        OtherOutOfReach(s, l, b);
      } else if s.batches[b].taskId == Some(l.t) {
        NothingPending(s, l, b);
      } else {
        StaleOutOfReach(s, l, b);
      }
    } else {
      if l.PublishOk? || l.PublishFail? { assert StoredOk(s, l.t); }
      UserOutOfReach(s, l, b);
    }
  }

  lemma UserOutOfReach(s: State, l: Label, b: nat)
    requires Enabled(s, l) && MessageOf(l).None? && b < |s.batches| && OutOfReach(s, b)
    requires RowsOk(s.batches[b]) && LinkOk(s, b)
    requires l.PublishOk? || l.PublishFail? ==> StoredOk(s, l.t)
    ensures b < |Apply(s, l).batches| && OutOfReach(Apply(s, l), b)
  {
    if l.Cancel? { CancelItemsTally(s.batches[b].items); }
  }

  lemma OtherOutOfReach(s: State, l: Label, b: nat)
    requires Enabled(s, l) && MessageOf(l).Some? && l.t in s.msgs && s.msgs[l.t].batch != b
    requires b < |s.batches| && OutOfReach(s, b) && (s.batches[b].taskId.Some? ==> LinkOk(s, b))
    ensures b < |Apply(s, l).batches| && OutOfReach(Apply(s, l), b)
  {
    OtherBatch(s, l, b);
    NoNewMessage(s, l);
  }

  lemma NoNewMessage(s: State, l: Label)
    requires Enabled(s, l) && MessageOf(l).Some?
    ensures forall t :: t in Apply(s, l).msgs ==> t in s.msgs
  {
  }

  lemma StaleOutOfReach(s: State, l: Label, b: nat)
    requires Enabled(s, l) && MessageOf(l).Some? && l.t in s.msgs && s.msgs[l.t].batch == b
    requires b < |s.batches| && s.batches[b].taskId != Some(l.t) && OutOfReach(s, b)
    ensures b < |Apply(s, l).batches| && OutOfReach(Apply(s, l), b) && !l.StartItem?
  {
    FailItemsTally(s.batches[b].items);
  }

  ghost predicate NothingStarts(s: State, run: seq<Label>)
    requires Valid(s, run)
  {
    forall b: nat, i: nat :: Executions(s, run, b, i) == 0
  }

  lemma {:induction false} OutOfReachRun(s: State, run: seq<Label>)
    requires Inv(s) && AllOutOfReach(s) && Valid(s, run)
    ensures NothingStarts(s, run)
    decreases |run|
  {
    if run != [] {
      AllOutOfReachStep(s, run[0]);
      StepInv(s, run[0]);
      OutOfReachRun(Apply(s, run[0]), run[1..]);
    }
  }

  lemma AllOutOfReachStep(s: State, l: Label)
    requires Inv(s) && AllOutOfReach(s) && Enabled(s, l)
    ensures AllOutOfReach(Apply(s, l))
    ensures !l.StartItem?
  {
    StepInterruptions(s, l, 0);
    forall b | 0 <= b < |s.batches| ensures OutOfReach(Apply(s, l), b) { OutOfReachStep(s, l, b); }
    if l.StartItem? { StartReaches(s, l); }
  }

  lemma StartReaches(s: State, l: Label)
    requires Enabled(s, l) && l.StartItem?
    ensures !OutOfReach(s, s.msgs[l.t].batch)
  {
    TallyZero(BatchOf(s, l.t).items, ItemPending);
  }

  lemma CancelLeavesOutOfReach(s: State)
    requires Inv(s) && Enabled(s, Cancel) && forall b, i :: !Startable(s, b, i)
    ensures AllOutOfReach(ApplyCancel(s))
  {
    var c := ApplyCancel(s);
    forall b | 0 <= b < |c.batches| ensures OutOfReach(c, b) {
      var x := s.batches[b];
      assert RowsOk(x) && LinkOk(s, b);
      CancelItemsTally(x.items);
      if Tally(c.batches[b].items, ItemPending) > 0 {
        TallyZero(x.items, ItemPending);
        var i :| 0 <= i < |x.items| && x.items[i].status == ItemPending;
        assert !Startable(s, b, i);
      }
    }
  }

  /** While the job does not look cancelled, the worker of a startable item can be driven to its start. */
  lemma StartRun(s: State, b: nat, i: nat) returns (run: seq<Label>)
    requires Inv(s) && Startable(s, b, i) && !CancelSeen(s.job.status)
    ensures Valid(s, run) && Executions(s, run, b, i) > 0
    decreases var phase := s.msgs[s.batches[b].taskId.value].phase;
      if phase == Waiting then 3 else if phase == Held then 2 else if phase.Executing? then 1 else 0
  {
    var t := s.batches[b].taskId.value;
    assert LinkOk(s, b) && MessageOk(s, t);
    var phase := s.msgs[t].phase;
    var l := if phase == Waiting then Deliver(t)
             else if phase == Held then Claim(t)
             else if phase.Executing? then EndItem(t, true, "")
             else StartItem(t, i);
    var rest: seq<Label>;
    if phase == Claimed {
      rest := [];
    } else {
      StepInv(s, l);
      NearerStart(s, l, b, i);
      rest := StartRun(Apply(s, l), b, i);
    }
    RunCons(s, l, rest);
    run := [l] + rest;
    assert run[0] == l && run[1..] == rest;
  }

  lemma NearerStart(s: State, l: Label, b: nat, i: nat)
    requires Inv(s) && Startable(s, b, i) && !CancelSeen(s.job.status) && Enabled(s, l)
    requires var t := s.batches[b].taskId.value; l in {Deliver(t), Claim(t)} || (l.EndItem? && l.t == t)
    ensures var r := Apply(s, l); var t := s.batches[b].taskId.value;
      && Startable(r, b, i) && !CancelSeen(r.job.status) && r.batches[b].taskId == Some(t)
      && r.msgs[t].phase == if l.Deliver? then Held else Claimed
  {
    assert LinkOk(s, b) && MessageOk(s, l.t);
  }

  lemma {:induction false} ExecutionsAppend(s: State, run: seq<Label>, more: seq<Label>, b: nat, i: nat)
    requires Valid(s, run) && Valid(Exec(s, run), more)
    ensures Valid(s, run + more)
    ensures Executions(s, run + more, b, i) == Executions(s, run, b, i) + Executions(Exec(s, run), more, b, i)
    decreases |run|
  {
    ExecAppend(s, run, more);
    if run == [] {
      assert run + more == more;
    } else {
      ExecutionsAppend(Apply(s, run[0]), run[1..], more, b, i);
      ConsAppend(run, more);
      ExecutionsCons(s, run[0], run[1..] + more, b, i);
    }
  }

  lemma ExecutionsCons(s: State, l: Label, rest: seq<Label>, b: nat, i: nat)
    requires Enabled(s, l) && Valid(Apply(s, l), rest)
    ensures Valid(s, [l] + rest)
    ensures Executions(s, [l] + rest, b, i) == Bit(StartsItem(s, l, b, i)) + Executions(Apply(s, l), rest, b, i)
  {
    assert ([l] + rest)[0] == l && ([l] + rest)[1..] == rest;
  }

  /** A dispatch call under way can fail after the cancellation, and then a waiting item starts. */
  lemma StartsAfterCancel(s: State, b: nat, i: nat) returns (run: seq<Label>)
    requires Inv(s) && Enabled(s, Cancel) && !DispatchIdle(s) && Startable(s, b, i)
    ensures Valid(ApplyCancel(s), run) && !NothingStarts(ApplyCancel(s), run)
  {
    var c := ApplyCancel(s);
    StepInv(s, Cancel);
    var fail := DispatchCanOverwrite(c);
    RunInv(c, fail);
    var start := StartRun(Exec(c, fail), b, i);
    ExecutionsAppend(c, fail, start, b, i);
    run := fail + start;
  }

  /**
   After a cancellation no payload ever starts exactly when no dispatch call is under way when `cancel_job` commits,
   or no running batch has both its message and a pending item.
   */
  lemma CancelStopsWorkExactly(s: State)
    requires Reachable(s) && Enabled(s, Cancel)
    ensures var c := ApplyCancel(s);
      (forall run | Valid(c, run) :: NothingStarts(c, run)) <==> DispatchIdle(s) || forall b, i :: !Startable(s, b, i)
  {
    ReachableInv(s);
    var c := ApplyCancel(s);
    if DispatchIdle(s) {
      CancelStops(s);
      forall run | Valid(c, run) ensures NothingStarts(c, run) { StoppedRun(c, run); }
    } else if b, i :| Startable(s, b, i) {
      var run := StartsAfterCancel(s, b, i);
    } else {
      StepInv(s, Cancel);
      CancelLeavesOutOfReach(s);
      forall run | Valid(c, run) ensures NothingStarts(c, run) { OutOfReachRun(c, run); }
    }
  }

  /**
   The request itself is never forgotten: whatever happens, a job that was asked to stop can only settle as CANCELLED.
   */
  lemma {:induction false} RequestIsRemembered(s: State, run: seq<Label>)
    requires Inv(s) && Valid(s, run) && s.job.cancelRequested
    ensures Exec(s, run).job.cancelRequested
    ensures TerminalJob(Exec(s, run).job.status) ==> Exec(s, run).job.status == JobCancelled
    decreases |run|
  {
    if run != [] {
      StepInv(s, run[0]);
      RequestStays(s, run[0]);
      RequestIsRemembered(Apply(s, run[0]), run[1..]);
    }
  }

  // ---------------------------------------------------------------- can a cancelled job always end

  /** A running batch without any message: the broker honoured the revocation after the worker was lost. */
  predicate Lost(s: State, b: nat) {
    b < |s.batches| && s.batches[b].status == BatchRunning && forall t :: t in s.msgs ==> s.msgs[t].batch != b
  }

  lemma LostStep(s: State, l: Label, b: nat)
    requires Inv(s) && Enabled(s, l) && Lost(s, b)
    ensures Lost(Apply(s, l), b)
  {
    match MessageOf(l)
    case Some(t) => WorkerLeavesLost(s, l, t, b);
    case None =>
      if l.PublishOk? || l.PublishFail? { assert StoredOk(s, l.t); }
  }

  lemma WorkerLeavesLost(s: State, l: Label, t: TaskId, b: nat)
    requires Enabled(s, l) && MessageOf(l) == Some(t) && Lost(s, b)
    ensures Lost(Apply(s, l), b)
  {
  }

  lemma {:induction false} LostForever(s: State, run: seq<Label>, b: nat)
    requires Inv(s) && Valid(s, run) && Lost(s, b) && !TerminalJob(s.job.status)
    ensures Lost(Exec(s, run), b) && !TerminalJob(Exec(s, run).job.status)
    decreases |run|
  {
    if run != [] {
      LostStep(s, run[0], b);
      StepInv(s, run[0]);
      if TerminalJob(Apply(s, run[0]).job.status) { NewlySettled(s, run[0]); }
      assert !FinishedBatch(Apply(s, run[0]).batches[b].status);
      LostForever(Apply(s, run[0]), run[1..], b);
    }
  }

  /** After a cancellation was committed, what is left is running batches with their messages. */
  ghost predicate Draining(s: State) {
    && Inv(s)
    && CancelSeen(s.job.status)
    && s.cancels > 0
    && (forall b :: 0 <= b < |s.batches| ==> FinishedBatch(s.batches[b].status) || s.batches[b].status == BatchRunning)
    && (forall b :: 0 <= b < |s.batches| ==> !Lost(s, b))
  }

  function RunningCount(batches: seq<Batch>): nat {
    if batches == [] then 0
    else RunningCount(batches[..|batches| - 1]) + Bit(batches[|batches| - 1].status == BatchRunning)
  }

  lemma {:induction false} RunningCountUpdate(batches: seq<Batch>, b: nat, x: Batch)
    requires b < |batches|
    ensures RunningCount(batches[b := x])
         == RunningCount(batches) - Bit(batches[b].status == BatchRunning) + Bit(x.status == BatchRunning)
  {
    var n := |batches| - 1;
    if b == n {
      assert batches[b := x][..n] == batches[..n];
    } else {
      assert batches[b := x][..n] == batches[..n][b := x];
      RunningCountUpdate(batches[..n], b, x);
    }
  }

  /** One commit of the worker of batch `b` in a draining job leaves it draining. */
  lemma DrainStep(s: State, l: Label, t: TaskId)
    requires Draining(s) && Enabled(s, l) && Current(s, t) && BatchOf(s, t).status == BatchRunning
    requires l in {Deliver(t), EarlyCancel(t), Claim(t), CancelRest(t)} || (l.EndItem? && l.t == t)
    ensures var r := Apply(s, l);
      && Draining(r)
      && RunningCount(r.batches) == RunningCount(s.batches) - Bit(l in {EarlyCancel(t), CancelRest(t)})
      && Current(r, t)
      && (l !in {EarlyCancel(t), CancelRest(t)} ==> BatchOf(r, t).status == BatchRunning)
      && r.early == s.early
      && (l == Deliver(t) ==> r.msgs[t].phase == Held)
      && (l == Claim(t) || l.EndItem? ==> r.msgs[t].phase == Claimed)
  {
    var r := Apply(s, l);
    var b := s.msgs[t].batch;
    DrainingStep(s, l, t);
    if !l.Deliver? { RunningCountUpdate(s.batches, b, r.batches[b]); }
  }

  lemma DrainingStep(s: State, l: Label, t: TaskId)
    requires Draining(s) && Enabled(s, l) && Current(s, t) && BatchOf(s, t).status == BatchRunning
    requires l in {Deliver(t), EarlyCancel(t), Claim(t), CancelRest(t)} || (l.EndItem? && l.t == t)
    ensures Draining(Apply(s, l))
  {
    StepInv(s, l);
    var r := Apply(s, l);
    forall c | 0 <= c < |r.batches|
      ensures FinishedBatch(r.batches[c].status) || r.batches[c].status == BatchRunning
      ensures !Lost(r, c)
    {
      assert FinishedBatch(s.batches[c].status) || s.batches[c].status == BatchRunning;
      assert !Lost(s, c);
      DrainingBatch(s, l, t, c);
    }
  }

  lemma DrainingBatch(s: State, l: Label, t: TaskId, c: nat)
    requires Enabled(s, l) && Current(s, t) && BatchOf(s, t).status == BatchRunning && c < |s.batches| && !Lost(s, c)
    requires l in {Deliver(t), EarlyCancel(t), Claim(t), CancelRest(t)} || (l.EndItem? && l.t == t)
    requires FinishedBatch(s.batches[c].status) || s.batches[c].status == BatchRunning
    ensures var r := Apply(s, l);
      !Lost(r, c) && (FinishedBatch(r.batches[c].status) || r.batches[c].status == BatchRunning)
  {
    var r := Apply(s, l);
    if s.batches[c].status == BatchRunning {
      var u :| u in s.msgs && s.msgs[u].batch == c;
      assert u in r.msgs && r.msgs[u].batch == c;
    }
  }

  /** The worker of message `t` can be driven to the end of its batch. */
  lemma DriveBatch(s: State, t: TaskId) returns (run: seq<Label>)
    requires Draining(s) && Current(s, t) && BatchOf(s, t).status == BatchRunning
    ensures Valid(s, run) && Draining(Exec(s, run))
    ensures RunningCount(Exec(s, run).batches) < RunningCount(s.batches)
    decreases if s.msgs[t].phase == Waiting then 3 else if s.msgs[t].phase == Held then 2
              else if s.msgs[t].phase.Executing? then 1 else 0
  {
    assert MessageOk(s, t) && LinkOk(s, s.msgs[t].batch);
    var phase := s.msgs[t].phase;
    var l := if phase == Waiting then Deliver(t)
             else if phase == Held then (if s.early then EarlyCancel(t) else Claim(t))
             else if phase.Executing? then EndItem(t, true, "")
             else CancelRest(t);
    DrainStep(s, l, t);
    var rest: seq<Label>;
    if l in {EarlyCancel(t), CancelRest(t)} {
      rest := [];
    } else {
      rest := DriveBatch(Apply(s, l), t);
    }
    RunCons(s, l, rest);
    run := [l] + rest;
  }

  lemma {:induction false} NoneRunning(batches: seq<Batch>)
    requires forall b :: 0 <= b < |batches| ==> FinishedBatch(batches[b].status) || batches[b].status == BatchRunning
    ensures RunningCount(batches) == 0 ==> AllFinished(batches)
    ensures RunningCount(batches) > 0 ==> exists b :: 0 <= b < |batches| && batches[b].status == BatchRunning
  {
    if batches != [] {
      var n := |batches| - 1;
      NoneRunning(batches[..n]);
      if RunningCount(batches[..n]) > 0 {
        var b :| 0 <= b < n && batches[..n][b].status == BatchRunning;
        assert batches[b].status == BatchRunning;
      } else {
        forall b | 0 <= b < n ensures FinishedBatch(batches[b].status) {
          assert FinishedBatch(batches[..n][b].status);
        }
      }
    }
  }

  /** When a batch has lost its own message, the handling of an older one can still make it end. */
  lemma FailBatch(s: State, t: TaskId) returns (run: seq<Label>)
    requires Draining(s) && t in s.msgs && s.msgs[t].batch < |s.batches|
    requires s.batches[s.msgs[t].batch].status == BatchRunning
    ensures Valid(s, run) && Draining(Exec(s, run))
    ensures RunningCount(Exec(s, run).batches) < RunningCount(s.batches)
  {
    run := ReachMark(s, t);
    RunInv(s, run);
    var r := ApplyMarkFailed(s, t);
    RunningCountUpdate(s.batches, s.msgs[t].batch, r.batches[s.msgs[t].batch]);
    forall b | 0 <= b < |r.batches|
      ensures !Lost(r, b) && (FinishedBatch(r.batches[b].status) || r.batches[b].status == BatchRunning)
    {
      assert !Lost(s, b);
      if s.batches[b].status == BatchRunning {
        var u :| u in s.msgs && s.msgs[u].batch == b;
        assert u in r.msgs && r.msgs[u].batch == b;
      }
    }
  }

  lemma DrainOne(s: State, b: nat) returns (run: seq<Label>)
    requires Draining(s) && b < |s.batches| && s.batches[b].status == BatchRunning
    ensures Valid(s, run) && Draining(Exec(s, run))
    ensures RunningCount(Exec(s, run).batches) < RunningCount(s.batches)
  {
    assert !Lost(s, b) && LinkOk(s, b);
    var t := s.batches[b].taskId.value;
    if t in s.msgs {
      run := DriveBatch(s, t);
    } else {
      var u :| u in s.msgs && s.msgs[u].batch == b;
      run := FailBatch(s, u);
    }
  }

  lemma {:induction false} DrainAll(s: State) returns (run: seq<Label>)
    requires Draining(s)
    ensures Valid(s, run) && Exec(s, run).job.status == JobCancelled
    decreases RunningCount(s.batches)
  {
    NoneRunning(s.batches);
    if RunningCount(s.batches) == 0 {
      run := [RefreshNow];
      RunOne(s, RefreshNow);
      FinishedCountAll(s.batches);
    } else {
      var b :| 0 <= b < |s.batches| && s.batches[b].status == BatchRunning;
      var first := DrainOne(s, b);
      var rest := DrainAll(Exec(s, first));
      ExecAppend(s, first, rest);
      run := first + rest;
    }
  }

  lemma CanFinish(s: State) returns (run: seq<Label>)
    requires Inv(s) && Enabled(s, Cancel) && forall b :: !Lost(s, b)
    ensures Valid(s, run) && Exec(s, run).job.status == JobCancelled
  {
    var c := ApplyCancel(s);
    StepInv(s, Cancel);
    forall b | 0 <= b < |c.batches|
      ensures !Lost(c, b) && (FinishedBatch(c.batches[b].status) || c.batches[b].status == BatchRunning)
    {
      assert !Lost(s, b);
    }
    var rest := DrainAll(c);
    RunCons(s, Cancel, rest);
    run := [Cancel] + rest;
  }

  /**
   A job that has not ended can be brought to CANCELLED exactly when every running batch has some message left;
   a batch that has none stays running, and the job stays open, on every later run.
   */
  lemma CancelCanFinishExactly(s: State)
    requires Reachable(s) && !TerminalJob(s.job.status)
    ensures (exists run :: Valid(s, run) && Exec(s, run).job.status == JobCancelled) <==> forall b :: !Lost(s, b)
  {
    ReachableInv(s);
    if b :| Lost(s, b) {
      forall run | Valid(s, run) ensures Exec(s, run).job.status != JobCancelled { LostForever(s, run, b); }
    } else {
      var run := CanFinish(s);
    }
  }
}
