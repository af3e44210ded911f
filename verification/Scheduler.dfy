/** The tick of the scheduler: `run_due` and `_advance_and_execute` over the rows of scheduled_jobs. */
module Scheduler {
  import opened Prelude
  import opened Schedule

  datatype RunStatus = NeverRun | Succeeded | Failed | Skipped

  /** The id of a schedule is its position. `succeeded` stands for the status of the created job. */
  datatype Row = Row(
    enabled: bool,
    nextRun: int,
    config: Config,
    zone: int,
    lastRun: Option<int>,
    status: RunStatus,
    failures: nat)

  /**
   What happens after the row was advanced: the module is switched off, the schedule has no creator, the
   execution raises, or a job is created.
   */
  datatype Event = ModuleOff | NoCreator | Raises | Creates

  /** What create and update can have stored, or a value from which the calendar raises. */
  ghost predicate Wf(rows: seq<Row>) {
    forall i :: 0 <= i < |rows| ==> Storable(rows[i].config) || rows[i].config.OtherKind?
  }

  predicate Due(row: Row, now: int) {
    row.enabled && row.nextRun <= now
  }

  /** ORDER BY next_run_at, id. */
  predicate Before(rows: seq<Row>, i: nat, j: nat)
    requires i < |rows| && j < |rows|
  {
    rows[i].nextRun < rows[j].nextRun || (rows[i].nextRun == rows[j].nextRun && i < j)
  }

  /** `list_due_jobs` with limit 1. */
  function FirstDue(rows: seq<Row>, now: int): (r: Option<nat>)
    ensures r.Some? ==> r.value < |rows| && Due(rows[r.value], now)
    ensures r.Some? ==> forall i :: 0 <= i < |rows| && Due(rows[i], now) && i != r.value ==> Before(rows, r.value, i)
    ensures r.None? ==> forall i :: 0 <= i < |rows| ==> !Due(rows[i], now)
  {
    if rows == [] then None
    else
      var n := |rows| - 1;
      var front := FirstDue(rows[..n], now);
      if Due(rows[n], now) && (front.None? || rows[n].nextRun < rows[front.value].nextRun) then Some(n) else front
  }

  /** `_advance_and_execute` on the row, with the status that `_create_execution` leaves behind. */
  ghost function Fire(row: Row, now: int, e: Event): Row
    requires Storable(row.config) || row.config.OtherKind?
  {
    if row.config.OtherKind? then
      row.(lastRun := Some(now), enabled := false, status := Failed, failures := row.failures + 1)
    else
      var ahead := row.(lastRun := Some(now), nextRun := NextRun(row.config, row.zone, now));
      match e
      case ModuleOff => ahead.(status := Skipped)
      case NoCreator => ahead
      case Raises => ahead.(status := Failed, failures := row.failures + 1)
      case Creates => ahead.(status := Succeeded, failures := 0)
  }

  predicate Executed(row: Row, e: Event) {
    !row.config.OtherKind? && e == Creates
  }

  /** One firing: which schedule, the instant it was due at, what the clock showed, and whether a job was created. */
  datatype Firing = Firing(id: nat, due: int, now: int, executed: bool)

  function CountExecuted(fired: seq<Firing>): nat {
    if fired == [] then 0
    else CountExecuted(fired[..|fired| - 1]) + if fired[|fired| - 1].executed then 1 else 0
  }

  /** The rest of a tick when the clock will show `clock` at its next iterations. */
  ghost function Tick(rows: seq<Row>, clock: seq<int>, events: seq<Event>): (seq<Row>, seq<Firing>)
    requires Wf(rows) && |clock| == |events|
    decreases |clock|
  {
    if clock == [] || FirstDue(rows, clock[0]).None? then (rows, [])
    else
      var i := FirstDue(rows, clock[0]).value;
      var (last, fired) := Tick(rows[i := Fire(rows[i], clock[0], events[0])], clock[1..], events[1..]);
      (last, [Firing(i, rows[i].nextRun, clock[0], Executed(rows[i], events[0]))] + fired)
  }

  ghost predicate Rising(clock: seq<int>) {
    forall i, j :: 0 <= i < j < |clock| ==> clock[i] <= clock[j]
  }

  class ScheduledJobService {
    var rows: seq<Row>

    constructor (rows: seq<Row>)
      ensures this.rows == rows
    {
      this.rows := rows;
    }

    method AdvanceAndExecute(i: nat, now: int, e: Event) returns (executed: bool)
      requires i < |rows| && Wf(rows)
      modifies this
      ensures rows == old(rows)[i := Fire(old(rows)[i], now, e)]
      ensures executed == Executed(old(rows)[i], e)
    {
      var row := rows[i].(lastRun := Some(now));
      var next := CalculateNextRun(row.config, row.zone, now);
      if next.Err? {
        rows := rows[i := row.(enabled := false, status := Failed, failures := row.failures + 1)];
        return false;
      }
      row := row.(nextRun := next.value);
      match e {
        case ModuleOff =>
          rows := rows[i := row.(status := Skipped)];
          return false;
        case NoCreator =>
          rows := rows[i := row];
          return false;
        case Raises =>
          rows := rows[i := row.(status := Failed, failures := row.failures + 1)];
          return false;
        case Creates =>
          rows := rows[i := row.(status := Succeeded, failures := 0)];
          return true;
      }
    }

    /** `run_due` with limit |clock|; `clock[k]` and `events[k]` belong to its k-th iteration. */
    method RunDue(clock: seq<int>, events: seq<Event>) returns (executed: nat, fired: seq<Firing>)
      requires Wf(rows) && |clock| == |events|
      modifies this
      ensures (rows, fired) == Tick(old(rows), clock, events)
      ensures executed == CountExecuted(fired)
    {
      executed, fired := 0, [];
      var k := 0;
      assert clock[0..] == clock && events[0..] == events;
      assert [] + Tick(rows, clock, events).1 == Tick(rows, clock, events).1;
      while k < |clock|
        invariant k <= |clock| && Wf(rows) && executed == CountExecuted(fired)
        invariant Prepend(fired, Tick(rows, clock[k..], events[k..])) == Tick(old(rows), clock, events)
      {
        var now := clock[k];
        var due := FirstDue(rows, now);
        if due.None? {
          assert fired + [] == fired;
          return;
        }
        var i := due.value;
        TickUnfold(rows, clock, events, k, fired);
        FireWf(rows, i, now, events[k]);
        var dueAt := rows[i].nextRun;
        var ok := AdvanceAndExecute(i, now, events[k]);
        if ok {
          executed := executed + 1;
        }
        fired := fired + [Firing(i, dueAt, now, ok)];
        assert fired[..|fired| - 1] + [fired[|fired| - 1]] == fired;
        k := k + 1;
      }
      assert fired + [] == fired;
    }
  }

  function Prepend(fired: seq<Firing>, rest: (seq<Row>, seq<Firing>)): (seq<Row>, seq<Firing>) {
    (rest.0, fired + rest.1)
  }

  lemma TickUnfold(rows: seq<Row>, clock: seq<int>, events: seq<Event>, k: nat, fired: seq<Firing>)
    requires Wf(rows) && |clock| == |events| && k < |clock| && FirstDue(rows, clock[k]).Some?
    ensures var i := FirstDue(rows, clock[k]).value;
            var next := rows[i := Fire(rows[i], clock[k], events[k])];
      && Wf(next)
      && Prepend(fired, Tick(rows, clock[k..], events[k..]))
      == Prepend(
           fired + [Firing(i, rows[i].nextRun, clock[k], Executed(rows[i], events[k]))],
           Tick(next, clock[k + 1..], events[k + 1..]))
  {
    var i := FirstDue(rows, clock[k]).value;
    FireWf(rows, i, clock[k], events[k]);
    assert clock[k..][1..] == clock[k + 1..] && events[k..][1..] == events[k + 1..];
    var rest := Tick(rows[i := Fire(rows[i], clock[k], events[k])], clock[k + 1..], events[k + 1..]).1;
    assert fired + ([Firing(i, rows[i].nextRun, clock[k], Executed(rows[i], events[k]))] + rest)
      == fired + [Firing(i, rows[i].nextRun, clock[k], Executed(rows[i], events[k]))] + rest;
  }

  // ---------------------------------------------------------------- fairness

  ghost function DueSet(rows: seq<Row>, now: int): set<nat> {
    set i: nat | i < |rows| && Due(rows[i], now)
  }

  lemma FireAdvances(row: Row, now: int, e: Event)
    requires Storable(row.config) || row.config.OtherKind?
    ensures var r := Fire(row, now, e);
      && (r.enabled ==> row.enabled && r.nextRun > now)
      && r.config == row.config && r.zone == row.zone
      && (row.enabled ==> (r.enabled <==> !row.config.OtherKind?))
  {
  }

  /** The first firings are those of `due`, each once, in the order of (next_run_at, id). */
  ghost predicate FairPrefix(rows: seq<Row>, fired: seq<Firing>, due: set<nat>)
    requires forall i :: i in due ==> i < |rows|
  {
    && |due| <= |fired|
    && (forall k :: 0 <= k < |due| ==> fired[k].id in due)
    && (forall j, k :: 0 <= j < k < |due| ==> fired[j].id != fired[k].id && Before(rows, fired[j].id, fired[k].id))
  }

  /**
   Fairness and isolation. If at most `limit` schedules are due when the tick starts, then its first
   iterations handle exactly those, each once, in the order of (next_run_at, id), whatever the clock and
   the executions do and whichever configurations raise.
   */
  lemma {:induction false} TickIsFair(rows: seq<Row>, clock: seq<int>, events: seq<Event>, start: int)
    requires Wf(rows) && |clock| == |events| && Rising(clock)
    requires forall k :: 0 <= k < |clock| ==> start <= clock[k]
    requires |DueSet(rows, start)| <= |clock|
    ensures FairPrefix(rows, Tick(rows, clock, events).1, DueSet(rows, start))
    decreases |clock|
  {
    var due := DueSet(rows, start);
    if due != {} {
      var first: nat :| first in due;
      var i := FirstDue(rows, clock[0]).value;
      if i != first { assert Before(rows, i, first); }
      assert i in due;
      FireAdvances(rows[i], clock[0], events[0]);
      var next := rows[i := Fire(rows[i], clock[0], events[0])];
      assert DueSet(next, start) == due - {i};
      TickIsFair(next, clock[1..], events[1..], start);
      var fired := Tick(rows, clock, events).1;
      var rest := Tick(next, clock[1..], events[1..]).1;
      assert fired == [Firing(i, rows[i].nextRun, clock[0], Executed(rows[i], events[0]))] + rest;
      FairFirst(rows, next, start, i, fired[0], rest);
    }
  }

  /** The first firing of the earliest due schedule in front of a fair list of the others is fair. */
  lemma FairFirst(rows: seq<Row>, next: seq<Row>, start: int, i: nat, first: Firing, rest: seq<Firing>)
    requires Wf(rows) && i in DueSet(rows, start) && first.id == i
    requires |next| == |rows| && (forall j :: 0 <= j < |rows| && j != i ==> next[j] == rows[j])
    requires forall j :: 0 <= j < |rows| && j != i && Due(rows[j], start) ==> Before(rows, i, j)
    requires DueSet(next, start) == DueSet(rows, start) - {i}
    requires FairPrefix(next, rest, DueSet(next, start))
    ensures FairPrefix(rows, [first] + rest, DueSet(rows, start))
  {
    var due, fired := DueSet(rows, start), [first] + rest;
    forall k | 0 <= k < |due| ensures fired[k].id in due {
      if k > 0 { assert fired[k] == rest[k - 1]; }
    }
    forall j, k | 0 <= j < k < |due| ensures fired[j].id != fired[k].id && Before(rows, fired[j].id, fired[k].id) {
      assert fired[k] == rest[k - 1] && rest[k - 1].id in due - {i};
      if j > 0 {
        assert fired[j] == rest[j - 1] && rest[j - 1].id in due - {i};
      }
    }
  }

  /** A tick that handles something in each of its first `n` iterations goes on from what they leave. */
  lemma {:induction false} TickSplits(rows: seq<Row>, clock: seq<int>, events: seq<Event>, n: nat)
    requires Wf(rows) && n <= |clock| == |events|
    requires |Tick(rows, clock[..n], events[..n]).1| == n
    ensures var (mid, first) := Tick(rows, clock[..n], events[..n]);
      Wf(mid) && Tick(rows, clock, events) == Prepend(first, Tick(mid, clock[n..], events[n..]))
    decreases n
  {
    if n == 0 {
      assert clock[0..] == clock && events[0..] == events;
      assert [] + Tick(rows, clock, events).1 == Tick(rows, clock, events).1;
    } else {
      var i := FirstDue(rows, clock[0]).value;
      var next := rows[i := Fire(rows[i], clock[0], events[0])];
      var front := [Firing(i, rows[i].nextRun, clock[0], Executed(rows[i], events[0]))];
      TickCons(rows, clock[..n], events[..n]);
      TickCons(rows, clock, events);
      TakeTail(clock, n);
      TakeTail(events, n);
      TickSplits(next, clock[1..], events[1..], n - 1);
      var (mid, first) := Tick(next, clock[1..][..n - 1], events[1..][..n - 1]);
      PrependTwice(front, first, Tick(mid, clock[n..], events[n..]));
    }
  }

  /** The first iteration of a tick that finds something due. */
  lemma TickCons(rows: seq<Row>, clock: seq<int>, events: seq<Event>)
    requires Wf(rows) && |clock| == |events| && clock != [] && FirstDue(rows, clock[0]).Some?
    ensures var i := FirstDue(rows, clock[0]).value;
            var next := rows[i := Fire(rows[i], clock[0], events[0])];
            var front := [Firing(i, rows[i].nextRun, clock[0], Executed(rows[i], events[0]))];
      Wf(next) && Tick(rows, clock, events) == Prepend(front, Tick(next, clock[1..], events[1..]))
  {
    FireWf(rows, FirstDue(rows, clock[0]).value, clock[0], events[0]);
  }

  lemma TakeTail<T>(s: seq<T>, n: nat)
    requires 0 < n <= |s|
    ensures s[..n][1..] == s[1..][..n - 1] && s[1..][n - 1..] == s[n..] && s[..n][0] == s[0]
  {
  }

  lemma PrependTwice(a: seq<Firing>, b: seq<Firing>, t: (seq<Row>, seq<Firing>))
    ensures Prepend(a, Prepend(b, t)) == Prepend(a + b, t)
  {
    assert a + (b + t.1) == (a + b) + t.1;
  }

  /** A tick handles nothing exactly when its first clock value finds nothing due. */
  lemma TickStops(rows: seq<Row>, clock: seq<int>, events: seq<Event>)
    requires Wf(rows) && |clock| == |events|
    ensures Tick(rows, clock, events).1 == []
      <==> clock == [] || forall i :: 0 <= i < |rows| ==> !Due(rows[i], clock[0])
  {
  }

  lemma {:induction false} TickLength(rows: seq<Row>, clock: seq<int>, events: seq<Event>)
    requires Wf(rows) && |clock| == |events|
    ensures |Tick(rows, clock, events).1| <= |clock|
    decreases |clock|
  {
    if clock != [] && FirstDue(rows, clock[0]).Some? {
      var i := FirstDue(rows, clock[0]).value;
      FireWf(rows, i, clock[0], events[0]);
      TickLength(rows[i := Fire(rows[i], clock[0], events[0])], clock[1..], events[1..]);
    }
  }

  /** When the clock does not move during the tick, nothing else is handled: each due schedule exactly once. */
  lemma {:induction false} StillClockHandlesOnce(rows: seq<Row>, clock: seq<int>, events: seq<Event>, now: int)
    requires Wf(rows) && |clock| == |events|
    requires forall k :: 0 <= k < |clock| ==> clock[k] == now
    requires |DueSet(rows, now)| <= |clock|
    ensures |Tick(rows, clock, events).1| == |DueSet(rows, now)|
    decreases |clock|
  {
    if clock != [] && FirstDue(rows, now).Some? {
      var i := FirstDue(rows, now).value;
      FireAdvances(rows[i], now, events[0]);
      var next := rows[i := Fire(rows[i], now, events[0])];
      assert DueSet(next, now) == DueSet(rows, now) - {i};
      StillClockHandlesOnce(next, clock[1..], events[1..], now);
    } else {
      assert DueSet(rows, now) == {};
    }
  }

  /**
   With a moving clock the same schedule can be handled twice in one tick: an execution that takes as
   long as the interval makes its own schedule due again while iterations are left.
   */
  lemma SlowExecutionFiresAgain(zone: int, e: Event)
    ensures var row := Row(true, 0, Interval(1), zone, None, NeverRun, 0);
      Tick([row], [0, MINUTE], [e, e]).1 == [Firing(0, 0, 0, e == Creates), Firing(0, MINUTE, MINUTE, e == Creates)]
  {
    var row := Row(true, 0, Interval(1), zone, None, NeverRun, 0);
    var next := Fire(row, 0, e);
    assert next.enabled && next.nextRun == MINUTE && next.config == row.config;
    OneDue(row, 0);
    OneDue(next, MINUTE);
    assert [row][0 := next] == [next];
    assert [0, MINUTE][1..] == [MINUTE] && [e, e][1..] == [e];
    var after := Fire(next, MINUTE, e);
    assert [next][0 := after] == [after] && [MINUTE][1..] == [] && [e][1..] == [];
    assert Tick([after], [], []) == ([after], []);
    assert Tick([next], [MINUTE], [e]).1 == [Firing(0, MINUTE, MINUTE, e == Creates)];
  }

  lemma OneDue(row: Row, now: int)
    requires Due(row, now)
    ensures FirstDue([row], now) == Some(0)
  {
    assert [row][..0] == [];
  }

  lemma FireWf(rows: seq<Row>, i: nat, now: int, e: Event)
    requires Wf(rows) && i < |rows|
    ensures Wf(rows[i := Fire(rows[i], now, e)])
  {
    FireAdvances(rows[i], now, e);
  }

  /** Disabled, or due strictly after `t`. */
  predicate Past(row: Row, t: int) {
    !row.enabled || row.nextRun > t
  }

  /** A tick never brings a schedule that is past `t` back to `t`. */
  lemma {:induction false} TickStaysPast(rows: seq<Row>, clock: seq<int>, events: seq<Event>, i: nat, t: int)
    requires Wf(rows) && |clock| == |events| && i < |rows| && Past(rows[i], t)
    requires forall k :: 0 <= k < |clock| ==> t <= clock[k]
    ensures var last := Tick(rows, clock, events).0; |last| == |rows| && Past(last[i], t)
    decreases |clock|
  {
    if clock != [] && FirstDue(rows, clock[0]).Some? {
      var j := FirstDue(rows, clock[0]).value;
      FireAdvances(rows[j], clock[0], events[0]);
      FireWf(rows, j, clock[0], events[0]);
      TickStaysPast(rows[j := Fire(rows[j], clock[0], events[0])], clock[1..], events[1..], i, t);
    }
  }

  /** After a tick every handled schedule is disabled or due strictly after each clock value it was handled at. */
  lemma {:induction false} TickEndsPast(rows: seq<Row>, clock: seq<int>, events: seq<Event>, k: nat)
    requires Wf(rows) && |clock| == |events| && Rising(clock)
    requires k < |Tick(rows, clock, events).1|
    ensures var (last, fired) := Tick(rows, clock, events);
      && k < |clock| && fired[k].now == clock[k]
      && fired[k].id < |last| == |rows|
      && Past(last[fired[k].id], clock[k])
    decreases |clock|
  {
    var j := FirstDue(rows, clock[0]).value;
    FireAdvances(rows[j], clock[0], events[0]);
    FireWf(rows, j, clock[0], events[0]);
    var next := rows[j := Fire(rows[j], clock[0], events[0])];
    var rest := Tick(next, clock[1..], events[1..]);
    var fired := Tick(rows, clock, events).1;
    assert fired == [Firing(j, rows[j].nextRun, clock[0], Executed(rows[j], events[0]))] + rest.1;
    if k == 0 {
      TickStaysPast(next, clock[1..], events[1..], j, clock[0]);
    } else {
      TickEndsPast(next, clock[1..], events[1..], k - 1);
    }
  }

  /** A schedule that the tick does not handle keeps its row. */
  lemma {:induction false} TickFrame(rows: seq<Row>, clock: seq<int>, events: seq<Event>, i: nat)
    requires Wf(rows) && |clock| == |events| && i < |rows|
    requires forall k :: 0 <= k < |Tick(rows, clock, events).1| ==> Tick(rows, clock, events).1[k].id != i
    ensures var last := Tick(rows, clock, events).0; |last| == |rows| && last[i] == rows[i]
    decreases |clock|
  {
    if clock != [] && FirstDue(rows, clock[0]).Some? {
      var j := FirstDue(rows, clock[0]).value;
      FireWf(rows, j, clock[0], events[0]);
      var next := rows[j := Fire(rows[j], clock[0], events[0])];
      var rest := Tick(next, clock[1..], events[1..]).1;
      var fired := Tick(rows, clock, events).1;
      assert fired == [Firing(j, rows[j].nextRun, clock[0], Executed(rows[j], events[0]))] + rest;
      assert fired[0].id != i;
      forall k | 0 <= k < |rest| ensures rest[k].id != i { assert fired[k + 1] == rest[k]; }
      TickFrame(next, clock[1..], events[1..], i);
    }
  }

  // ---------------------------------------------------------------- what a tick writes on a schedule

  /** Iteration `k` of the tick counts as a failure of a schedule. */
  predicate Fails(row: Row, events: seq<Event>, k: nat)
    requires k < |events|
  {
    row.config.OtherKind? || events[k] == Raises
  }

  /** The failures of schedule `i` from iteration `m` on. */
  ghost function FailuresFrom(row: Row, i: nat, fired: seq<Firing>, events: seq<Event>, m: nat): nat
    requires |fired| <= |events|
    decreases |fired| - m
  {
    if m >= |fired| then 0
    else (if fired[m].id == i && Fails(row, events, m) then 1 else 0) + FailuresFrom(row, i, fired, events, m + 1)
  }

  lemma {:induction false} FailuresShift(row: Row, other: Row, i: nat, fired: seq<Firing>, events: seq<Event>, m: nat)
    requires 0 < |fired| <= |events| && other.config == row.config
    ensures FailuresFrom(row, i, fired, events, m + 1) == FailuresFrom(other, i, fired[1..], events[1..], m)
    decreases |fired| - m
  {
    if m + 1 < |fired| {
      assert fired[1..][m] == fired[m + 1] && events[1..][m] == events[m + 1];
      FailuresShift(row, other, i, fired, events, m + 1);
    }
  }

  /** Iteration `m` creates the job of schedule `i`. */
  ghost predicate Succeeds(row: Row, i: nat, fired: seq<Firing>, events: seq<Event>, m: nat)
    requires m < |fired| <= |events|
  {
    fired[m].id == i && !row.config.OtherKind? && events[m] == Creates
  }

  /** No iteration from `m` on creates a job of schedule `i`. */
  ghost predicate NoSuccessFrom(row: Row, i: nat, fired: seq<Firing>, events: seq<Event>, m: nat)
    requires |fired| <= |events|
  {
    forall k: nat :: m <= k < |fired| ==> !Succeeds(row, i, fired, events, k)
  }

  /** The first iteration of a tick in front of the others. */
  lemma TickFront(rows: seq<Row>, clock: seq<int>, events: seq<Event>)
    requires Wf(rows) && |clock| == |events| && Tick(rows, clock, events).1 != []
    ensures |Tick(rows, clock, events).1| <= |events| && |Tick(rows, clock, events).0| == |rows|
    ensures var (last, fired) := Tick(rows, clock, events);
      && fired[0].id < |rows| && fired[0].now == clock[0] && fired[0].due == rows[fired[0].id].nextRun
      && (fired[0].executed <==> !rows[fired[0].id].config.OtherKind? && events[0] == Creates)
      && var next := rows[fired[0].id := Fire(rows[fired[0].id], clock[0], events[0])];
         Wf(next) && Tick(next, clock[1..], events[1..]) == (last, fired[1..])
  {
    var j := FirstDue(rows, clock[0]).value;
    FireWf(rows, j, clock[0], events[0]);
    TickLength(rows, clock, events);
    TickSize(rows, clock, events);
  }

  lemma {:induction false} TickSize(rows: seq<Row>, clock: seq<int>, events: seq<Event>)
    requires Wf(rows) && |clock| == |events|
    ensures |Tick(rows, clock, events).0| == |rows|
    decreases |clock|
  {
    if clock != [] && FirstDue(rows, clock[0]).Some? {
      var j := FirstDue(rows, clock[0]).value;
      FireWf(rows, j, clock[0], events[0]);
      TickSize(rows[j := Fire(rows[j], clock[0], events[0])], clock[1..], events[1..]);
    }
  }

  /**
   `consecutive_failures` after a tick: the failures of the schedule in it, on top of what was there if the tick
   created no job of it. A switched-off module and a missing creator count for nothing.
   */
  lemma {:induction false} FailuresAdded(rows: seq<Row>, clock: seq<int>, events: seq<Event>, i: nat)
    requires Wf(rows) && |clock| == |events| && i < |rows|
    requires |Tick(rows, clock, events).1| <= |events| && |Tick(rows, clock, events).0| == |rows|
    requires NoSuccessFrom(rows[i], i, Tick(rows, clock, events).1, events, 0)
    ensures Tick(rows, clock, events).0[i].failures
      == rows[i].failures + FailuresFrom(rows[i], i, Tick(rows, clock, events).1, events, 0)
    decreases |clock|
  {
    var (last, fired) := Tick(rows, clock, events);
    if fired != [] {
      TickFront(rows, clock, events);
      var j := fired[0].id;
      var next := rows[j := Fire(rows[j], clock[0], events[0])];
      FailuresShift(rows[i], next[i], i, fired, events, 0);
      forall k: nat | k < |fired[1..]| ensures !Succeeds(next[i], i, fired[1..], events[1..], k) {
        assert !Succeeds(rows[i], i, fired, events, k + 1);
      }
      assert !Succeeds(rows[i], i, fired, events, 0);
      FailuresAdded(next, clock[1..], events[1..], i);
    }
  }

  /** Otherwise they are the failures after its last job. */
  lemma {:induction false} FailuresReset(rows: seq<Row>, clock: seq<int>, events: seq<Event>, i: nat, m: nat)
    requires Wf(rows) && |clock| == |events| && i < |rows|
    requires m < |Tick(rows, clock, events).1| <= |events| && |Tick(rows, clock, events).0| == |rows|
    requires Succeeds(rows[i], i, Tick(rows, clock, events).1, events, m)
    requires NoSuccessFrom(rows[i], i, Tick(rows, clock, events).1, events, m + 1)
    ensures Tick(rows, clock, events).0[i].failures
      == FailuresFrom(rows[i], i, Tick(rows, clock, events).1, events, m + 1)
    decreases |clock|
  {
    var (last, fired) := Tick(rows, clock, events);
    TickFront(rows, clock, events);
    var j := fired[0].id;
    var next := rows[j := Fire(rows[j], clock[0], events[0])];
    FailuresShift(rows[i], next[i], i, fired, events, m);
    forall k: nat | m <= k < |fired[1..]| ensures !Succeeds(next[i], i, fired[1..], events[1..], k) || k == m - 1 {
      assert !Succeeds(rows[i], i, fired, events, k + 1);
    }
    if m == 0 {
      FailuresAdded(next, clock[1..], events[1..], i);
    } else {
      assert Succeeds(next[i], i, fired[1..], events[1..], m - 1);
      FailuresReset(next, clock[1..], events[1..], i, m - 1);
    }
  }

  /** The last iteration that handles a schedule decides when it ran and when it runs next, or that it is disabled. */
  lemma {:induction false} LastRunRecorded(rows: seq<Row>, clock: seq<int>, events: seq<Event>, k: nat)
    requires Wf(rows) && |clock| == |events| && k < |Tick(rows, clock, events).1|
    requires forall j :: k < j < |Tick(rows, clock, events).1| ==>
      Tick(rows, clock, events).1[j].id != Tick(rows, clock, events).1[k].id
    ensures var (last, fired) := Tick(rows, clock, events);
      && k < |clock| && fired[k].id < |last| == |rows|
      && var row, was := last[fired[k].id], rows[fired[k].id];
         row.lastRun == Some(clock[k]) && if was.config.OtherKind? then !row.enabled && row.status == Failed
         else row.nextRun == NextRun(was.config, was.zone, clock[k]) && row.enabled
    decreases |clock|
  {
    var (last, fired) := Tick(rows, clock, events);
    TickFront(rows, clock, events);
    var i := fired[0].id;
    var next := rows[i := Fire(rows[i], clock[0], events[0])];
    if k == 0 {
      forall j | 0 <= j < |fired[1..]| ensures fired[1..][j].id != i { assert fired[1..][j] == fired[j + 1]; }
      TickFrame(next, clock[1..], events[1..], i);
    } else {
      forall j | k - 1 < j < |fired[1..]| ensures fired[1..][j].id != fired[1..][k - 1].id {
        assert fired[1..][j] == fired[j + 1];
      }
      LastRunRecorded(next, clock[1..], events[1..], k - 1);
    }
  }

  /** An iteration that says nothing about the status of a schedule: of another one, or the creator is missing. */
  ghost predicate Silent(row: Row, i: nat, f: Firing, e: Event) {
    f.id != i || (!row.config.OtherKind? && e == NoCreator)
  }

  lemma {:induction false} SilentKeeps(rows: seq<Row>, clock: seq<int>, events: seq<Event>, i: nat)
    requires Wf(rows) && |clock| == |events| && i < |rows|
    requires |Tick(rows, clock, events).1| <= |events| && |Tick(rows, clock, events).0| == |rows|
    requires forall k: nat :: k < |Tick(rows, clock, events).1| ==>
      Silent(rows[i], i, Tick(rows, clock, events).1[k], events[k])
    ensures Tick(rows, clock, events).0[i].status == rows[i].status
    decreases |clock|
  {
    var (last, fired) := Tick(rows, clock, events);
    if fired != [] {
      TickFront(rows, clock, events);
      var j := fired[0].id;
      var next := rows[j := Fire(rows[j], clock[0], events[0])];
      assert Silent(rows[i], i, fired[0], events[0]);
      forall k: nat | k < |fired[1..]| ensures Silent(next[i], i, fired[1..][k], events[1..][k]) {
        assert Silent(rows[i], i, fired[k + 1], events[k + 1]);
      }
      SilentKeeps(next, clock[1..], events[1..], i);
    }
  }

  /** The last iteration that is not silent about a schedule decides its status. */
  lemma {:induction false} StatusRecorded(rows: seq<Row>, clock: seq<int>, events: seq<Event>, i: nat, m: nat)
    requires Wf(rows) && |clock| == |events| && i < |rows|
    requires m < |Tick(rows, clock, events).1| <= |events| && |Tick(rows, clock, events).0| == |rows|
    requires !Silent(rows[i], i, Tick(rows, clock, events).1[m], events[m])
    requires forall k: nat :: m < k < |Tick(rows, clock, events).1| ==>
      Silent(rows[i], i, Tick(rows, clock, events).1[k], events[k])
    ensures Tick(rows, clock, events).0[i].status
      == if Fails(rows[i], events, m) then Failed else if events[m] == ModuleOff then Skipped else Succeeded
    decreases |clock|
  {
    var (last, fired) := Tick(rows, clock, events);
    TickFront(rows, clock, events);
    var j := fired[0].id;
    var next := rows[j := Fire(rows[j], clock[0], events[0])];
    forall k: nat | m <= k < |fired[1..]| ensures Silent(next[i], i, fired[1..][k], events[1..][k]) {
      assert Silent(rows[i], i, fired[k + 1], events[k + 1]);
    }
    if m == 0 {
      SilentKeeps(next, clock[1..], events[1..], i);
    } else {
      assert fired[1..][m - 1] == fired[m] && events[1..][m - 1] == events[m];
      StatusRecorded(next, clock[1..], events[1..], i, m - 1);
    }
  }

  /**
   `consecutive_failures` after any tick: the failures of the schedule after its last job, or on top of what was
   there if the tick created no job of it.
   */
  lemma ConsecutiveFailures(rows: seq<Row>, clock: seq<int>, events: seq<Event>, i: nat)
    requires Wf(rows) && |clock| == |events| && i < |rows|
    ensures var (last, fired) := Tick(rows, clock, events);
      && |fired| <= |events| && |last| == |rows|
      && (NoSuccessFrom(rows[i], i, fired, events, 0) ==>
            last[i].failures == rows[i].failures + FailuresFrom(rows[i], i, fired, events, 0))
      && forall m: nat ::
           m < |fired| && Succeeds(rows[i], i, fired, events, m) && NoSuccessFrom(rows[i], i, fired, events, m + 1) ==>
           last[i].failures == FailuresFrom(rows[i], i, fired, events, m + 1)
  {
    TickLength(rows, clock, events);
    TickSize(rows, clock, events);
    var fired := Tick(rows, clock, events).1;
    if NoSuccessFrom(rows[i], i, fired, events, 0) { FailuresAdded(rows, clock, events, i); }
    forall m: nat |
      m < |fired| && Succeeds(rows[i], i, fired, events, m) && NoSuccessFrom(rows[i], i, fired, events, m + 1)
      ensures Tick(rows, clock, events).0[i].failures == FailuresFrom(rows[i], i, fired, events, m + 1)
    {
      FailuresReset(rows, clock, events, i, m);
    }
  }

  /** `last_status` after any tick: that of the last iteration that is not silent about the schedule, if any. */
  lemma LastStatus(rows: seq<Row>, clock: seq<int>, events: seq<Event>, i: nat, m: nat)
    requires Wf(rows) && |clock| == |events| && i < |rows|
    ensures var (last, fired) := Tick(rows, clock, events);
      && |fired| <= |events| && |last| == |rows|
      && ((forall k: nat :: k < |fired| ==> Silent(rows[i], i, fired[k], events[k])) ==>
            last[i].status == rows[i].status)
      && (m < |fired| && !Silent(rows[i], i, fired[m], events[m])
          && (forall k: nat :: m < k < |fired| ==> Silent(rows[i], i, fired[k], events[k])) ==>
            last[i].status
            == if Fails(rows[i], events, m) then Failed else if events[m] == ModuleOff then Skipped else Succeeded)
  {
    TickLength(rows, clock, events);
    TickSize(rows, clock, events);
    var fired := Tick(rows, clock, events).1;
    if forall k: nat :: k < |fired| ==> Silent(rows[i], i, fired[k], events[k]) { SilentKeeps(rows, clock, events, i); }
    if m < |fired| && !Silent(rows[i], i, fired[m], events[m])
      && forall k: nat :: m < k < |fired| ==> Silent(rows[i], i, fired[k], events[k])
    {
      StatusRecorded(rows, clock, events, i, m);
    }
  }

  // ---------------------------------------------------------------- slots

  /** `_build_idempotency_key`. */
  datatype Key = Key(manual: bool, id: nat, slot: int)

  function KeyOf(f: Firing): Key { Key(false, f.id, Slot(f.due)) }

  /** Any number of ticks, without edits in between: an iteration that finds nothing due ends its tick. */
  ghost function Ticks(rows: seq<Row>, clock: seq<int>, events: seq<Event>): seq<Firing>
    requires Wf(rows) && |clock| == |events|
    decreases |clock|
  {
    if clock == [] then []
    else if FirstDue(rows, clock[0]).None? then Ticks(rows, clock[1..], events[1..])
    else
      var i := FirstDue(rows, clock[0]).value;
      FireWf(rows, i, clock[0], events[0]);
      [Firing(i, rows[i].nextRun, clock[0], Executed(rows[i], events[0]))]
        + Ticks(rows[i := Fire(rows[i], clock[0], events[0])], clock[1..], events[1..])
  }

  /** From a schedule whose slot is past `slot`, every firing has a slot past `slot`. */
  lemma {:induction false} FiringsAfter(rows: seq<Row>, clock: seq<int>, events: seq<Event>, i: nat, slot: int, k: nat)
    requires Wf(rows) && |clock| == |events| && i < |rows|
    requires rows[i].enabled ==> Slot(rows[i].nextRun) > slot
    requires k < |Ticks(rows, clock, events)| && Ticks(rows, clock, events)[k].id == i
    ensures Slot(Ticks(rows, clock, events)[k].due) > slot
    decreases |clock|
  {
    if FirstDue(rows, clock[0]).None? {
      FiringsAfter(rows, clock[1..], events[1..], i, slot, k);
    } else if k > 0 {
      var j := FirstDue(rows, clock[0]).value;
      FireWf(rows, j, clock[0], events[0]);
      FireAdvances(rows[j], clock[0], events[0]);
      if j == i && !rows[j].config.OtherKind? {
        NextSlotLater(rows[j].config, rows[j].zone, rows[j].nextRun, clock[0],
          NextRun(rows[j].config, rows[j].zone, clock[0]));
      }
      FiringsAfter(rows[j := Fire(rows[j], clock[0], events[0])], clock[1..], events[1..], i, slot, k - 1);
    }
  }

  /**
   Slot uniqueness. Over any sequence of ticks between two edits, successive firings of one schedule have
   strictly increasing slots, so no two firings share an idempotency key.
   */
  lemma {:induction false} SlotsIncrease(rows: seq<Row>, clock: seq<int>, events: seq<Event>, j: nat, k: nat)
    requires Wf(rows) && |clock| == |events|
    requires j < k < |Ticks(rows, clock, events)|
    ensures var fired := Ticks(rows, clock, events);
      && (fired[j].id == fired[k].id ==> Slot(fired[j].due) < Slot(fired[k].due))
      && KeyOf(fired[j]) != KeyOf(fired[k])
    decreases |clock|
  {
    if FirstDue(rows, clock[0]).None? {
      SlotsIncrease(rows, clock[1..], events[1..], j, k);
    } else {
      var i := FirstDue(rows, clock[0]).value;
      FireWf(rows, i, clock[0], events[0]);
      FireAdvances(rows[i], clock[0], events[0]);
      var next := rows[i := Fire(rows[i], clock[0], events[0])];
      if j > 0 {
        SlotsIncrease(next, clock[1..], events[1..], j - 1, k - 1);
      } else if Ticks(rows, clock, events)[k].id == i {
        if !rows[i].config.OtherKind? {
          NextSlotLater(rows[i].config, rows[i].zone, rows[i].nextRun, clock[0],
            NextRun(rows[i].config, rows[i].zone, clock[0]));
        }
        FiringsAfter(next, clock[1..], events[1..], i, Slot(rows[i].nextRun), k - 1);
      }
    }
  }
}
