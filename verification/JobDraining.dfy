/** How a cancelled job comes to its end, and who owes the refresh that a job row waits for. */
module JobDraining {
  import opened Prelude
  import opened JobModel
  import opened JobProtocol
  import opened JobInvariant
  import opened JobTheorems
  import opened JobOutcomes
  import opened JobCancellation

  // ---------------------------------------------------------------- who owes a refresh

  /** A worker in this phase will refresh the job, or commit something that makes it refresh the job. */
  predicate Owes(phase: Phase) {
    phase in {Claimed, Closing, Marked} || phase.Executing?
  }

  ghost predicate SomebodyOwes(s: State) {
    s.cancels > 0 || exists t :: t in s.msgs && Owes(s.msgs[t].phase)
  }

  /** Rows that no recount covers yet will be covered. */
  ghost predicate Covered(s: State) {
    s.dirty ==> SomebodyOwes(s)
  }

  lemma CoveredStep(s: State, l: Label)
    requires Inv(s) && Covered(s) && Enabled(s, l) && !l.Crash?
    ensures Covered(Apply(s, l))
  {
    if MessageOf(l).Some? {
      CoveredWorkerStep(s, l);
    } else {
      if l.PublishOk? || l.PublishFail? { assert StoredOk(s, l.t); }
      if t :| t in s.msgs && Owes(s.msgs[t].phase) { assert t in Apply(s, l).msgs; }
    }
  }

  lemma CoveredWorkerStep(s: State, l: Label)
    requires Covered(s) && Enabled(s, l) && MessageOf(l).Some? && !l.Crash?
    ensures Covered(Apply(s, l))
  {
    var r := Apply(s, l);
    if l.t in r.msgs && Owes(r.msgs[l.t].phase) {
      assert SomebodyOwes(r);
    } else {
      OthersOwe(s, l);
      if t :| t in s.msgs && Owes(s.msgs[t].phase) && t != l.t { assert t in r.msgs && Owes(r.msgs[t].phase); }
    }
  }

  /** A worker that owes nothing after its step has refreshed the job, or owed nothing before. */
  lemma OthersOwe(s: State, l: Label)
    requires Enabled(s, l) && MessageOf(l).Some? && !l.Crash? && l.t in s.msgs
    requires l.t in Apply(s, l).msgs ==> !Owes(Apply(s, l).msgs[l.t].phase)
    ensures Apply(s, l).dirty ==> s.dirty && !Owes(s.msgs[l.t].phase)
    ensures Apply(s, l).cancels == s.cancels
    ensures forall t :: t in s.msgs && t != l.t ==> t in Apply(s, l).msgs && Apply(s, l).msgs[t] == s.msgs[t]
  {
  }

  /**
   On runs without crashes the job row never waits for a refresh in vain: whenever rows were written that neither the
   increments nor a recount cover, a cancellation still owes its refresh, or a worker is between its claim, or its
   `mark_failed`, and the refresh after it.
   */
  lemma {:induction false} DirtyIsOwed(s: State, run: seq<Label>)
    requires Inv(s) && Covered(s) && Valid(s, run) && Free(run, true)
    ensures Covered(Exec(s, run))
    decreases |run|
  {
    if run != [] {
      assert !run[0].Crash?;
      forall k | 0 <= k < |run[1..]| ensures !run[1..][k].Crash? { assert run[1..][k] == run[k + 1]; }
      CoveredStep(s, run[0]);
      StepInv(s, run[0]);
      DirtyIsOwed(Apply(s, run[0]), run[1..]);
    }
  }

  /** So a job with no message and no cancellation under way has exact counters, and is settled if it has ended. */
  lemma QuietJobIsExact(s: State, run: seq<Label>)
    requires Created(s) && Valid(s, run) && Free(run, true)
    requires Exec(s, run).msgs == map[] && Exec(s, run).cancels == 0
    ensures var r := Exec(s, run);
      InSync(r) && (AllFinished(r.batches) ==> TerminalJob(r.job.status) || r.job.status == JobDispatchFailed)
  {
    CreatedInv(s);
    RunInv(s, run);
    DirtyIsOwed(s, run);
  }

  // ---------------------------------------------------------------- how much is left to do

  /** How many commits a message has before it, at most, if its worker is not lost. */
  function Rank(phase: Phase): nat {
    match phase
    case Waiting => 7
    case Held => 6
    case Executing(_) => 6
    case Claimed => 5
    case Closing => 4
    case Leaving => 3
    case Marked => 2
    case Done => 1
  }

  function RankOf(msgs: map<TaskId, Message>, t: TaskId): nat {
    if t in msgs then Rank(msgs[t].phase) else 0
  }

  function Ranks(msgs: map<TaskId, Message>, n: nat): nat {
    if n == 0 then 0 else Ranks(msgs, n - 1) + RankOf(msgs, n - 1)
  }

  lemma {:induction false} RanksUpdate(a: map<TaskId, Message>, b: map<TaskId, Message>, t: TaskId, n: nat)
    requires forall u :: u != t ==> RankOf(a, u) == RankOf(b, u)
    ensures Ranks(b, n) + (if t < n then RankOf(a, t) else 0) == Ranks(a, n) + if t < n then RankOf(b, t) else 0
  {
    if n > 0 { RanksUpdate(a, b, t, n - 1); }
  }

  /** A bound on the commits that are left in a cancelled job. */
  function Work(s: State): nat {
    Ranks(s.msgs, s.nextId) + s.cancels
  }

  /** No worker is lost, and nobody cancels again. */
  ghost predicate Calm(run: seq<Label>) {
    forall k :: 0 <= k < |run| ==> !run[k].Crash? && !run[k].Cancel?
  }

  lemma CalmTail(run: seq<Label>)
    requires Calm(run) && run != []
    ensures Calm(run[1..]) && !run[0].Crash? && !run[0].Cancel?
  {
    forall k | 0 <= k < |run[1..]| ensures !run[1..][k].Crash? && !run[1..][k].Cancel? {
      assert run[1..][k] == run[k + 1];
    }
  }

  lemma WorkShrinks(s: State, l: Label)
    requires Stopped(s) && Enabled(s, l) && !l.Crash? && !l.Cancel?
    ensures Work(Apply(s, l)) < Work(s)
  {
    StoppedStep(s, l);
    if MessageOf(l).Some? {
      RankShrinks(s, l);
      assert MessageOk(s, l.t);
      RanksUpdate(s.msgs, Apply(s, l).msgs, l.t, s.nextId);
    }
  }

  lemma RankShrinks(s: State, l: Label)
    requires Enabled(s, l) && MessageOf(l).Some? && !l.Crash? && !l.StartItem?
    ensures var r := Apply(s, l);
      && l.t in s.msgs && r.nextId == s.nextId && r.cancels == s.cancels
      && RankOf(r.msgs, l.t) < RankOf(s.msgs, l.t)
      && forall u :: u != l.t ==> RankOf(s.msgs, u) == RankOf(r.msgs, u)
  {
  }

  /** Every run of a cancelled job on which nobody is lost is bounded. */
  lemma {:induction false} CalmRunsAreBounded(s: State, run: seq<Label>)
    requires Stopped(s) && Valid(s, run) && Calm(run)
    ensures |run| + Work(Exec(s, run)) <= Work(s)
    decreases |run|
  {
    if run != [] {
      CalmTail(run);
      WorkShrinks(s, run[0]);
      StoppedStep(s, run[0]);
      CalmRunsAreBounded(Apply(s, run[0]), run[1..]);
    }
  }

  // ---------------------------------------------------------------- where such a run ends

  /** Nothing is left to do, unless a worker is lost or somebody cancels again. */
  ghost predicate Stuck(s: State) {
    forall l :: Enabled(s, l) ==> l.Crash? || l.Cancel?
  }

  /** The next commit for message `t` in a cancelled job, if its handling does not raise. */
  function NextLabel(s: State, t: TaskId): Label
    requires t in s.msgs
  {
    match s.msgs[t].phase
    case Waiting => Deliver(t)
    case Held =>
      if !Current(s, t) || FinishedBatch(BatchOf(s, t).status) then Ack(t)
      else if s.early then EarlyCancel(t)
      else Claim(t)
    case Claimed => CancelRest(t)
    case Executing(_) => EndItem(t, true, "")
    case Closing => Refresh(t)
    case Leaving => Ack(t)
    case Marked => Refresh(t)
    case Done => Ack(t)
  }

  lemma NextEnabled(s: State, t: TaskId)
    requires Stopped(s) && t in s.msgs
    ensures Enabled(s, NextLabel(s, t))
  {
    assert MessageOk(s, t);
  }

  /** A cancelled job is stuck exactly when it has no message left and no cancellation owes its refresh. */
  lemma StuckExactly(s: State)
    requires Stopped(s)
    ensures Stuck(s) <==> s.msgs == map[] && s.cancels == 0
  {
    if s.cancels > 0 {
      assert Enabled(s, RefreshNow);
    } else if s.msgs != map[] {
      var t := SomeMessage(s);
      NextEnabled(s, t);
    } else {
      forall l | Enabled(s, l) ensures l.Crash? || l.Cancel? { NothingEnabled(s, l); }
    }
  }

  lemma NothingEnabled(s: State, l: Label)
    requires DispatchIdle(s) && !HasPending(s) && s.msgs == map[] && s.cancels == 0 && Enabled(s, l)
    ensures l.Cancel?
  {
  }

  /** Batch `b`, if it is running, has its message, and a worker has that message. */
  predicate Attended(s: State, b: nat) {
    b < |s.batches| && s.batches[b].status == BatchRunning ==>
      && s.batches[b].taskId.Some? && s.batches[b].taskId.value in s.msgs
      && s.msgs[s.batches[b].taskId.value].phase != Waiting
  }

  lemma AttendedStep(s: State, l: Label, b: nat)
    requires Stopped(s) && Enabled(s, l) && !l.Crash? && !l.Cancel? && Attended(s, b)
    ensures Attended(Apply(s, l), b)
  {
    if MessageOf(l).Some? {
      assert MessageOk(s, l.t);
      if b < |s.batches| { assert LinkOk(s, b); }
      AttendedWorkerStep(s, l, b);
    }
  }

  lemma AttendedWorkerStep(s: State, l: Label, b: nat)
    requires Enabled(s, l) && MessageOf(l).Some? && !l.Crash? && l.t in s.msgs && Attended(s, b)
    requires b < |s.batches| ==> LinkOk(s, b)
    ensures Attended(Apply(s, l), b)
  {
  }

  lemma {:induction false} AttendedRun(s: State, run: seq<Label>)
    requires Stopped(s) && Covered(s) && Valid(s, run) && Calm(run) && forall b :: Attended(s, b)
    ensures Stopped(Exec(s, run)) && Covered(Exec(s, run)) && forall b :: Attended(Exec(s, run), b)
    decreases |run|
  {
    if run != [] {
      CalmTail(run);
      StoppedStep(s, run[0]);
      CoveredStep(s, run[0]);
      forall b: nat ensures Attended(Apply(s, run[0]), b) { AttendedStep(s, run[0], b); }
      AttendedRun(Apply(s, run[0]), run[1..]);
    }
  }

  /** With every running batch attended, a cancelled job that is stuck is CANCELLED. */
  lemma AttendedEnds(s: State)
    requires Stopped(s) && Covered(s) && Stuck(s) && forall b :: Attended(s, b)
    ensures s.job.status == JobCancelled
  {
    StuckExactly(s);
    forall b | 0 <= b < |s.batches| ensures FinishedBatch(s.batches[b].status) {
      assert Attended(s, b) && LinkOk(s, b);
    }
  }

  /** Batch `b` is running, and its message is gone. */
  predicate Widowed(s: State, b: nat) {
    && b < |s.batches| && s.batches[b].status == BatchRunning
    && s.batches[b].taskId.Some? && s.batches[b].taskId.value !in s.msgs
  }

  lemma WidowedStep(s: State, l: Label, b: nat)
    requires Stopped(s) && Enabled(s, l) && !l.Crash? && !l.Cancel? && !l.MarkFailed? && Widowed(s, b)
    ensures Widowed(Apply(s, l), b)
  {
    if MessageOf(l).Some? { WidowedWorkerStep(s, l, b); }
  }

  lemma WidowedWorkerStep(s: State, l: Label, b: nat)
    requires Enabled(s, l) && MessageOf(l).Some? && !l.MarkFailed? && Widowed(s, b)
    ensures Widowed(Apply(s, l), b)
  {
  }

  /** If no handling raises, a widowed batch stays running until the job is stuck. */
  lemma {:induction false} Exhaust(s: State, b: nat) returns (run: seq<Label>)
    requires Stopped(s) && Widowed(s, b)
    ensures Valid(s, run) && Calm(run) && Stuck(Exec(s, run)) && Exec(s, run).job.status != JobCancelled
    decreases Work(s)
  {
    StuckExactly(s);
    if s.msgs == map[] && s.cancels == 0 {
      run := [];
      assert !FinishedBatch(s.batches[b].status);
    } else {
      var l := RefreshNow;
      if s.cancels == 0 {
        var t := SomeMessage(s);
        NextEnabled(s, t);
        l := NextLabel(s, t);
      }
      WorkShrinks(s, l);
      StoppedStep(s, l);
      WidowedStep(s, l, b);
      var rest := Exhaust(Apply(s, l), b);
      run := CalmCons(s, l, rest);
    }
  }

  lemma CalmCons(s: State, l: Label, rest: seq<Label>) returns (run: seq<Label>)
    requires Enabled(s, l) && Valid(Apply(s, l), rest) && Calm(rest) && !l.Crash? && !l.Cancel?
    ensures Valid(s, run) && Calm(run) && Exec(s, run) == Exec(Apply(s, l), rest)
  {
    RunCons(s, l, rest);
    run := [l] + rest;
  }

  /** An unattended batch can lose its message, which the broker was asked to revoke, and then the job never ends. */
  lemma Unattended(s: State, b: nat) returns (run: seq<Label>)
    requires Reachable(s) && Enabled(s, Cancel) && DispatchIdle(s) && !Attended(s, b)
    ensures var c := ApplyCancel(s);
      Valid(c, run) && Calm(run) && Stuck(Exec(c, run)) && Exec(c, run).job.status != JobCancelled
  {
    ReachableInv(s);
    CancelStops(s);
    var c := ApplyCancel(s);
    assert LinkOk(s, b);
    var t := s.batches[b].taskId.value;
    if t in s.msgs {
      assert t in TaskIds(s.batches);
      var l := DropRevoked(t);
      StoppedStep(c, l);
      var rest := Exhaust(Apply(c, l), b);
      run := CalmCons(c, l, rest);
    } else {
      run := Exhaust(c, b);
    }
  }

  /** Every way to work off `s` without losing a worker ends with the job CANCELLED. */
  ghost predicate EndsCancelled(s: State) {
    forall run | Valid(s, run) && Calm(run) && Stuck(Exec(s, run)) :: Exec(s, run).job.status == JobCancelled
  }

  /**
   A cancelled job ends. If no dispatch call is under way when `cancel_job` commits, every later run on which no
   worker is lost is bounded, and all of them end with the job CANCELLED exactly when every running batch has its
   message in the hands of a worker at the commit of the cancellation.
   */
  lemma CancelEndsExactly(s: State)
    requires Reachable(s) && Enabled(s, Cancel) && DispatchIdle(s)
    ensures var c := ApplyCancel(s);
      && (forall run | Valid(c, run) && Calm(run) :: |run| <= Work(c))
      && (EndsCancelled(c) <==> forall b :: Attended(s, b))
  {
    ReachableInv(s);
    CancelStops(s);
    var c := ApplyCancel(s);
    forall run | Valid(c, run) && Calm(run) ensures |run| <= Work(c) { CalmRunsAreBounded(c, run); }
    if b :| !Attended(s, b) {
      var run := Unattended(s, b);
    } else {
      forall b: nat ensures Attended(c, b) { assert Attended(s, b); }
      forall run | Valid(c, run) && Calm(run) && Stuck(Exec(c, run)) ensures Exec(c, run).job.status == JobCancelled {
        AttendedRun(c, run);
        AttendedEnds(Exec(c, run));
      }
    }
  }
}
