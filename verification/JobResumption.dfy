/** Resuming a job whose dispatch failed: when is a batch left to publish, and for how long. */
module JobResumption {
  import opened Prelude
  import opened JobModel
  import opened JobProtocol
  import opened JobInvariant
  import opened JobTheorems
  import opened JobOutcomes
  import opened JobCancellation

  // ---------------------------------------------------------------- where DISPATCH_FAILED comes from

  /** How many dispatch calls an exception leaves on `run`. */
  ghost function Failures(run: seq<Label>): nat {
    if run == [] then 0 else Bit(run[0].PublishFail? || run[0].DispatchError?) + Failures(run[1..])
  }

  /** How often a caller writes DISPATCH_FAILED on `run`. */
  ghost function Writes(run: seq<Label>): nat {
    if run == [] then 0 else Bit(run[0].DispatchFailed?) + Writes(run[1..])
  }

  /** Every failed dispatch call is recorded once, or still to be recorded. */
  lemma {:induction false} FailuresAreRecorded(s: State, run: seq<Label>)
    requires Valid(s, run)
    ensures s.owing + Failures(run) == Writes(run) + Exec(s, run).owing
    decreases |run|
  {
    if run != [] { FailuresAreRecorded(Apply(s, run[0]), run[1..]); }
  }

  /** Only the caller of a failed dispatch call puts a job into DISPATCH_FAILED; a recount never does. */
  lemma NewlyFailed(s: State, l: Label)
    requires Enabled(s, l) && !l.DispatchFailed?
    ensures Apply(s, l).job.status == JobDispatchFailed ==> s.job.status == JobDispatchFailed
    ensures l.Resume? || l.Cancel? ==> Apply(s, l).job.status != JobDispatchFailed
  {
  }

  // ---------------------------------------------------------------- resuming a failed dispatch

  ghost predicate Resumable(s: State) {
    s.job.status == JobDispatchFailed ==> HasPending(s)
  }

  /** Until somebody resumes or cancels, DISPATCH_FAILED comes with a batch that `retry_job` can publish. */
  ghost predicate StaysResumable(s: State) {
    forall run | Valid(s, run) && HandsOff(run) :: Resumable(Exec(s, run))
  }

  lemma HandsOffTail(run: seq<Label>)
    requires HandsOff(run) && run != []
    ensures HandsOff(run[1..])
  {
    forall k | 0 <= k < |run[1..]| ensures !run[1..][k].Resume? && !run[1..][k].Cancel? {
      assert run[1..][k] == run[k + 1];
    }
  }

  /** A batch to publish that no message can make anybody call `mark_failed` for. */
  predicate SafePending(s: State, b: nat) {
    b < |s.batches| && s.batches[b].status == BatchPending && forall t :: t in s.msgs ==> s.msgs[t].batch != b
  }

  lemma SafeStep(s: State, l: Label, b: nat)
    requires Inv(s) && Enabled(s, l) && !l.Resume? && !l.Cancel? && NothingPublishing(s) && SafePending(s, b)
    ensures NothingPublishing(Apply(s, l)) && SafePending(Apply(s, l), b)
  {
    if MessageOf(l).Some? { WorkerLeavesPending(s, l, b); }
  }

  lemma WorkerLeavesPending(s: State, l: Label, b: nat)
    requires Enabled(s, l) && MessageOf(l).Some? && SafePending(s, b)
    ensures SafePending(Apply(s, l), b) && SameDispatch(s, Apply(s, l))
  {
  }

  lemma {:induction false} SafeRun(s: State, run: seq<Label>, b: nat)
    requires Inv(s) && Valid(s, run) && HandsOff(run) && NothingPublishing(s) && SafePending(s, b)
    ensures SafePending(Exec(s, run), b)
    decreases |run|
  {
    if run != [] {
      assert !run[0].Resume? && !run[0].Cancel?;
      SafeStep(s, run[0], b);
      StepInv(s, run[0]);
      HandsOffTail(run);
      SafeRun(Apply(s, run[0]), run[1..], b);
    }
  }

  /** Without a dispatch call and without a resumption nobody writes DISPATCH_FAILED. */
  lemma {:induction false} IdleRun(s: State, run: seq<Label>)
    requires Valid(s, run) && HandsOff(run) && DispatchIdle(s) && s.job.status != JobDispatchFailed
    ensures Exec(s, run).job.status != JobDispatchFailed
    decreases |run|
  {
    if run != [] {
      assert !run[0].Resume?;
      IdleStep(s, run[0]);
      HandsOffTail(run);
      IdleRun(Apply(s, run[0]), run[1..]);
    }
  }

  lemma IdleStep(s: State, l: Label)
    requires Enabled(s, l) && !l.Resume? && DispatchIdle(s) && s.job.status != JobDispatchFailed
    ensures DispatchIdle(Apply(s, l)) && Apply(s, l).job.status != JobDispatchFailed
  {
    NewlyFailed(s, l);
  }

  function PendingCount(batches: seq<Batch>): nat {
    if batches == [] then 0
    else PendingCount(batches[..|batches| - 1]) + Bit(batches[|batches| - 1].status == BatchPending)
  }

  lemma {:induction false} PendingCountUpdate(batches: seq<Batch>, b: nat, x: Batch)
    requires b < |batches|
    ensures PendingCount(batches[b := x])
         == PendingCount(batches) - Bit(batches[b].status == BatchPending) + Bit(x.status == BatchPending)
  {
    var n := |batches| - 1;
    if b == n {
      assert batches[b := x][..n] == batches[..n];
    } else {
      assert batches[b := x][..n] == batches[..n][b := x];
      PendingCountUpdate(batches[..n], b, x);
    }
  }

  /** A dispatch call that scans can publish every batch that is left. */
  lemma {:induction false} PublishAll(s: State) returns (run: seq<Label>)
    requires s.scanning > 0
    ensures Valid(s, run) && HandsOff(run) && Exec(s, run).scanning > 0 && !HasPending(Exec(s, run))
    decreases PendingCount(s.batches)
  {
    if b :| 0 <= b < |s.batches| && s.batches[b].status == BatchPending {
      var t := s.nextId;
      var s1 := ApplyStore(s, b);
      PendingCountUpdate(s.batches, b, s1.batches[b]);
      var rest := PublishAll(ApplyPublishOk(s1, t));
      RunCons(s1, PublishOk(t), rest);
      RunCons(s, Store(b), [PublishOk(t)] + rest);
      run := [Store(b)] + ([PublishOk(t)] + rest);
    } else {
      run := [];
    }
  }

  /** And then raise, so that its caller writes DISPATCH_FAILED although nothing is left to publish. */
  lemma StrandByCall(s: State)
    requires Inv(s) && !NothingPublishing(s)
    ensures !StaysResumable(s)
  {
    if s.scanning > 0 {
      var run := StrandRun(s);
    } else {
      var t := PickStored(s);
      var rest := StrandRun(ApplyPublishOk(s, t));
      RunCons(s, PublishOk(t), rest);
      assert HandsOff([PublishOk(t)] + rest);
    }
  }

  lemma StrandRun(s: State) returns (run: seq<Label>)
    requires s.scanning > 0
    ensures Valid(s, run) && HandsOff(run) && !Resumable(Exec(s, run))
  {
    var first := PublishAll(s);
    var fail := FailTwice(Exec(s, first), DispatchError);
    ExecAppend(s, first, fail);
    HandsOffAppend(first, fail);
    run := first + fail;
  }

  /** If every batch to publish has an old message, all of them can be failed. */
  lemma {:induction false} FailAll(s: State) returns (run: seq<Label>)
    requires forall b :: !SafePending(s, b)
    ensures Valid(s, run) && HandsOff(run) && !HasPending(Exec(s, run))
    ensures Exec(s, run).job == s.job && SameDispatch(s, Exec(s, run))
    decreases PendingCount(s.batches)
  {
    if b :| 0 <= b < |s.batches| && s.batches[b].status == BatchPending {
      assert !SafePending(s, b);
      var t :| t in s.msgs && s.msgs[t].batch == b;
      var first := ReachMark(s, t);
      var r := FailPending(s, t);
      var rest := FailAll(r);
      ExecAppend(s, first, rest);
      HandsOffAppend(first, rest);
      run := first + rest;
    } else {
      run := [];
    }
  }

  lemma FailPending(s: State, t: TaskId) returns (r: State)
    requires forall b :: !SafePending(s, b)
    requires t in s.msgs && s.msgs[t].batch < |s.batches| && s.batches[s.msgs[t].batch].status == BatchPending
    ensures r == ApplyMarkFailed(s, t) && r.job == s.job && SameDispatch(s, r) && forall b :: !SafePending(r, b)
    ensures PendingCount(r.batches) < PendingCount(s.batches)
  {
    r := ApplyMarkFailed(s, t);
    PendingCountUpdate(s.batches, s.msgs[t].batch, r.batches[s.msgs[t].batch]);
    forall b: nat ensures !SafePending(r, b) {
      if b < |r.batches| && r.batches[b].status == BatchPending {
        assert !SafePending(s, b);
        var u :| u in s.msgs && s.msgs[u].batch == b;
        assert u in r.msgs && r.msgs[u].batch == b;
      }
    }
  }

  lemma StrandByMarks(s: State)
    requires (forall b :: !SafePending(s, b)) && (s.owing > 0 || s.job.status == JobDispatchFailed)
    ensures !StaysResumable(s)
  {
    var run := FailAll(s);
    if s.job.status != JobDispatchFailed {
      RunSnoc(s, run, DispatchFailed);
      assert HandsOff(run + [DispatchFailed]);
      assert !Resumable(Exec(s, run + [DispatchFailed]));
    }
  }

  /**
   Until somebody resumes or cancels, DISPATCH_FAILED comes with a batch that `retry_job` can publish, exactly when
   no dispatch call publishes and some batch to publish has no message from an earlier publication, or when there is
   no DISPATCH_FAILED and nobody who could write it.
   */
  lemma FailedDispatchResumableExactly(s: State)
    requires Reachable(s)
    ensures StaysResumable(s)
      <==> || (s.job.status != JobDispatchFailed && DispatchIdle(s))
           || (NothingPublishing(s) && exists b :: SafePending(s, b))
  {
    ReachableInv(s);
    if !NothingPublishing(s) {
      StrandByCall(s);
    } else if b :| SafePending(s, b) {
      forall run | Valid(s, run) && HandsOff(run) ensures Resumable(Exec(s, run)) { SafeRun(s, run, b); }
    } else if s.job.status != JobDispatchFailed && DispatchIdle(s) {
      forall run | Valid(s, run) && HandsOff(run) ensures Resumable(Exec(s, run)) { IdleRun(s, run); }
    } else {
      StrandByMarks(s);
    }
  }

  /**
   A failed publication puts its batch back at once. Between that commit and the DISPATCH_FAILED of the caller, and
   after it, a batch to publish remains, until somebody resumes or cancels, exactly when the call was the only one
   and some batch to publish has no message. If nothing came in between, the job can be resumed, and resuming it
   publishes only batches that are still pending.
   */
  lemma PublishFailResumable(s: State, t: TaskId, delivered: bool)
    requires Reachable(s) && Enabled(s, PublishFail(t, delivered))
    ensures var r := Apply(s, PublishFail(t, delivered));
      && r.owing > 0 && r.batches[s.stored[t]].status == BatchPending
      && (StaysResumable(r)
          <==> s.scanning == 0 && s.stored.Keys == {t} && exists b :: SafePending(r, b))
    ensures var d := Apply(Apply(s, PublishFail(t, delivered)), DispatchFailed);
      && d.job.status == JobDispatchFailed && HasPending(d) && Enabled(d, Resume)
      && (forall b: nat | Enabled(Apply(d, Resume), Store(b)) :: d.batches[b].status == BatchPending)
  {
    var r := Apply(s, PublishFail(t, delivered));
    ReachableStep(s, PublishFail(t, delivered));
    FailedDispatchResumableExactly(r);
    assert r.stored.Keys == s.stored.Keys - {t};
    assert r.stored == map[] <==> r.stored.Keys == {};
    var d := Apply(r, DispatchFailed);
    assert d.batches[s.stored[t]].status == BatchPending;
  }

  // ---------------------------------------------------------------- one dispatch call at a time

  /** What a run may do that can leave DISPATCH_FAILED without a batch to publish. */
  datatype Lapse = NoLapse | Overlap | Delivered | CancelDuring | EmptyError

  /**
   Dispatch calls do not overlap, no publication that raises has reached the broker, nobody cancels during a call,
   and a call raises between two batches only while some batch is to be published; `x` is not asked for.
   */
  predicate SerialLabel(s: State, l: Label, x: Lapse) {
    && (l.Resume? && x != Overlap ==> DispatchIdle(s))
    && (l.PublishFail? && x != Delivered ==> !l.delivered)
    && (l.Cancel? && x != CancelDuring ==> DispatchIdle(s))
    && (l.DispatchError? && x != EmptyError ==> HasPending(s))
  }

  ghost predicate Serial(s: State, run: seq<Label>, x: Lapse)
    requires Valid(s, run)
    decreases |run|
  {
    run == [] || (SerialLabel(s, run[0], x) && Serial(Apply(s, run[0]), run[1..], x))
  }

  ghost predicate OneDispatcher(s: State) {
    && (s.stored == map[] || (s.scanning == 0 && s.owing == 0 && |s.stored| == 1))
    && s.scanning + s.owing <= 1
    && (s.owing > 0 || s.job.status == JobDispatchFailed ==> HasPending(s))
    && (s.job.status == JobDispatchFailed ==> DispatchIdle(s))
  }

  /** No message belongs to a batch that is to be published or about to be. */
  ghost predicate NoSpare(s: State) {
    forall t :: t in s.msgs && s.msgs[t].batch < |s.batches| ==>
      && s.batches[s.msgs[t].batch].status != BatchPending
      && (forall u :: u in s.stored ==> s.stored[u] != s.msgs[t].batch)
  }

  lemma NoSpareStep(s: State, l: Label)
    requires Inv(s) && NoSpare(s) && Enabled(s, l) && SerialLabel(s, l, NoLapse)
    ensures NoSpare(Apply(s, l))
  {
    if MessageOf(l).Some? {
      WorkersNoSpare(s, l);
    } else if l.PublishOk? || l.PublishFail? {
      PublishedNoSpare(s, l);
    } else if l.Store? {
      StoredNoSpare(s, l.b);
    }
  }

  lemma StoredNoSpare(s: State, b: nat)
    requires Inv(s) && NoSpare(s) && Enabled(s, Store(b))
    ensures NoSpare(Apply(s, Store(b)))
  {
    forall u | u in s.stored ensures s.stored[u] != b { assert StoredOk(s, u); }
  }

  lemma PublishedNoSpare(s: State, l: Label)
    requires Inv(s) && NoSpare(s) && Enabled(s, l) && SerialLabel(s, l, NoLapse) && (l.PublishOk? || l.PublishFail?)
    ensures NoSpare(Apply(s, l))
  {
    assert StoredOk(s, l.t);
    forall u | u in s.stored && u != l.t ensures s.stored[u] != s.stored[l.t] { assert StoredOk(s, u); }
  }

  lemma WorkersNoSpare(s: State, l: Label)
    requires NoSpare(s) && Enabled(s, l) && MessageOf(l).Some?
    ensures NoSpare(Apply(s, l))
  {
    WorkersKeepMessages(s, l);
    WorkersAddNoPending(s, l);
  }

  lemma OneDispatcherStep(s: State, l: Label)
    requires Inv(s) && OneDispatcher(s) && NoSpare(s) && Enabled(s, l) && SerialLabel(s, l, NoLapse)
    ensures OneDispatcher(Apply(s, l))
  {
    if l.PublishFail? || l.PublishOk? {
      PublishedAlone(s, l);
    } else if MessageOf(l).Some? {
      WorkersStaySerial(s, l);
    } else {
      CallsStaySerial(s, l);
    }
  }

  lemma PublishedAlone(s: State, l: Label)
    requires OneDispatcher(s) && Enabled(s, l) && (l.PublishOk? || l.PublishFail?)
    ensures OneDispatcher(Apply(s, l))
  {
    SingletonMap(s.stored, l.t);
    if l.PublishFail? { assert Apply(s, l).batches[s.stored[l.t]].status == BatchPending; }
  }

  lemma WorkersStaySerial(s: State, l: Label)
    requires OneDispatcher(s) && NoSpare(s) && Enabled(s, l) && MessageOf(l).Some?
    ensures OneDispatcher(Apply(s, l))
  {
    NewlyFailed(s, l);
    WorkersKeepDispatch(s, l);
    if HasPending(s) {
      var b :| 0 <= b < |s.batches| && s.batches[b].status == BatchPending;
      assert SafePending(s, b);
      WorkerLeavesPending(s, l, b);
    }
  }

  lemma WorkersKeepDispatch(s: State, l: Label)
    requires Enabled(s, l) && MessageOf(l).Some?
    ensures SameDispatch(s, Apply(s, l))
  {
  }

  lemma CallsStaySerial(s: State, l: Label)
    requires OneDispatcher(s) && Enabled(s, l) && SerialLabel(s, l, NoLapse)
    requires MessageOf(l) == None && !l.PublishOk? && !l.PublishFail?
    ensures OneDispatcher(Apply(s, l))
  {
    if l.Store? { assert Apply(s, l).stored == map[s.nextId := l.b]; }
  }

  lemma SingletonMap(m: map<TaskId, nat>, t: TaskId)
    requires t in m && |m| == 1
    ensures m - {t} == map[]
  {
    assert |m.Keys - {t}| == 0;
    assert (m - {t}).Keys == m.Keys - {t};
  }

  /**
   On every run on which dispatch calls do not overlap, no publication that raised was delivered, nobody cancels
   during a call and no call raises with nothing left to publish, DISPATCH_FAILED always means that `retry_job` can
   resume. None of the four conditions can be dropped: see `EachConditionIsNeeded`.
   */
  lemma {:induction false} SerialRunsStayResumable(s: State, run: seq<Label>)
    requires Inv(s) && OneDispatcher(s) && NoSpare(s) && Valid(s, run) && Serial(s, run, NoLapse)
    ensures Resumable(Exec(s, run)) && OneDispatcher(Exec(s, run))
    decreases |run|
  {
    if run != [] {
      OneDispatcherStep(s, run[0]);
      NoSpareStep(s, run[0]);
      StepInv(s, run[0]);
      SerialRunsStayResumable(Apply(s, run[0]), run[1..]);
    }
  }

  /** A new job starts such a run. */
  lemma SerialStart(s: State)
    requires Created(s)
    ensures Inv(s) && OneDispatcher(s) && NoSpare(s)
  {
    CreatedInv(s);
  }
}
