/** Which schedules a tick handles, and how often, read off the rows and the clock before the tick. */
module TickOrder {
  import opened Prelude
  import opened Schedule
  import opened Scheduler

  // ---------------------------------------------------------------- the queue of a tick

  /** The enabled schedules in front of schedule `i`, in the order of (next_run_at, id). */
  ghost function InFront(rows: seq<Row>, i: nat): set<nat>
    requires i < |rows|
  {
    set j: nat | j < |rows| && rows[j].enabled && Before(rows, j, i)
  }

  /** The iteration at which schedule `i` is handled if nobody jumps the queue. */
  ghost function Rank(rows: seq<Row>, i: nat): nat
    requires i < |rows|
  {
    |InFront(rows, i)|
  }

  lemma RankLess(rows: seq<Row>, i: nat, j: nat)
    requires i < |rows| && j < |rows| && rows[i].enabled && Before(rows, i, j)
    ensures Rank(rows, i) < Rank(rows, j)
  {
    SubsetSize(InFront(rows, i), InFront(rows, j) - {i});
    assert i in InFront(rows, j);
  }

  lemma RankUnique(rows: seq<Row>, i: nat, j: nat)
    requires i < |rows| && j < |rows| && rows[i].enabled && rows[j].enabled && Rank(rows, i) == Rank(rows, j)
    ensures i == j
  {
    if i != j {
      if Before(rows, i, j) { RankLess(rows, i, j); } else { RankLess(rows, j, i); }
    }
  }

  lemma {:induction false} Latest(rows: seq<Row>, s: set<nat>) returns (y: nat)
    requires s != {} && forall i :: i in s ==> i < |rows|
    ensures y in s && forall z :: z in s && z != y ==> Before(rows, z, y)
  {
    var x :| x in s;
    if s == {x} {
      y := x;
    } else {
      var z := Latest(rows, s - {x});
      y := if Before(rows, z, x) then x else z;
      forall i | i in s && i != y ensures Before(rows, i, y) {
        assert i == x || i in s - {x};
      }
    }
  }

  /** Every place in the queue before an occupied one is occupied. */
  lemma {:induction false} RankBelow(rows: seq<Row>, x: nat, k: nat) returns (j: nat)
    requires x < |rows| && rows[x].enabled && k <= Rank(rows, x)
    ensures j < |rows| && rows[j].enabled && Rank(rows, j) == k && (j == x || Before(rows, j, x))
    decreases Rank(rows, x)
  {
    if k == Rank(rows, x) {
      j := x;
    } else {
      var y := Latest(rows, InFront(rows, x));
      assert InFront(rows, y) == InFront(rows, x) - {y};
      j := RankBelow(rows, y, k);
    }
  }

  // ---------------------------------------------------------------- jumping the queue

  function ClockAt(clock: seq<int>, k: nat): int {
    if k < |clock| then clock[k] else 0
  }

  /** The next run of schedule `i` once it has been handled in its turn. */
  ghost function Later(rows: seq<Row>, clock: seq<int>, i: nat): int
    requires i < |rows| && Storable(rows[i].config)
  {
    NextRun(rows[i].config, rows[i].zone, ClockAt(clock, Rank(rows, i)))
  }

  /** Schedule `j` is the k-th of the queue and due at iteration `k`. */
  ghost predicate FirstTime(rows: seq<Row>, clock: seq<int>, k: nat, j: nat) {
    k < |clock| && j < |rows| && rows[j].enabled && Rank(rows, j) == k && rows[j].nextRun <= clock[k]
  }

  /** Schedule `i`, handled in its turn before iteration `k`, is due again at that iteration. */
  ghost predicate Again(rows: seq<Row>, clock: seq<int>, i: nat, k: nat)
    requires Wf(rows)
  {
    && k < |clock| && i < |rows| && rows[i].enabled && Rank(rows, i) < k
    && !rows[i].config.OtherKind? && Later(rows, clock, i) <= clock[k]
  }

  /** Schedule `j`, in its turn, comes before the second run of schedule `i`. */
  ghost predicate Precedes(rows: seq<Row>, clock: seq<int>, j: nat, i: nat)
    requires i < |rows| && j < |rows| && Storable(rows[i].config)
  {
    rows[j].nextRun < Later(rows, clock, i) || (rows[j].nextRun == Later(rows, clock, i) && j < i)
  }

  /** Nobody jumps the queue at iteration `k`: whoever is due again comes after the one whose turn it is. */
  ghost predicate Undisturbed(rows: seq<Row>, clock: seq<int>, k: nat)
    requires Wf(rows)
  {
    forall i :: Again(rows, clock, i, k) ==> exists j :: FirstTime(rows, clock, k, j) && Precedes(rows, clock, j, i)
  }

  ghost predicate InTurn(rows: seq<Row>, clock: seq<int>, k: nat)
    requires Wf(rows)
  {
    Undisturbed(rows, clock, k) && exists j :: FirstTime(rows, clock, k, j)
  }

  /** The first `n` iterations handle the queue in its order. */
  ghost predicate Regular(rows: seq<Row>, clock: seq<int>, n: nat)
    requires Wf(rows)
  {
    n <= |clock| && forall k :: 0 <= k < n ==> InTurn(rows, clock, k)
  }

  // ---------------------------------------------------------------- the rows after a regular start

  ghost function RowAfter(rows: seq<Row>, clock: seq<int>, events: seq<Event>, n: nat, i: nat): Row
    requires Wf(rows) && n <= |clock| == |events| && i < |rows|
  {
    var k := Rank(rows, i);
    if rows[i].enabled && k < n then Fire(rows[i], clock[k], events[k]) else rows[i]
  }

  ghost function After(rows: seq<Row>, clock: seq<int>, events: seq<Event>, n: nat): (r: seq<Row>)
    requires Wf(rows) && n <= |clock| == |events|
    ensures |r| == |rows| && forall i :: 0 <= i < |rows| ==> r[i] == RowAfter(rows, clock, events, n, i)
  {
    seq(|rows|, i requires 0 <= i < |rows| => RowAfter(rows, clock, events, n, i))
  }

  lemma AfterWf(rows: seq<Row>, clock: seq<int>, events: seq<Event>, n: nat)
    requires Wf(rows) && n <= |clock| == |events|
    ensures Wf(After(rows, clock, events, n))
  {
    forall i | 0 <= i < |rows|
      ensures Storable(RowAfter(rows, clock, events, n, i).config)
        || RowAfter(rows, clock, events, n, i).config.OtherKind?
    {
      var k := Rank(rows, i);
      if rows[i].enabled && k < n { FireAdvances(rows[i], clock[k], events[k]); }
    }
  }

  /** What a row handled in its turn is due at. */
  lemma DueAfter(rows: seq<Row>, clock: seq<int>, events: seq<Event>, n: nat, x: nat, now: int)
    requires Wf(rows) && n <= |clock| == |events| && x < |rows|
    ensures var r := RowAfter(rows, clock, events, n, x);
      Due(r, now) <==>
        (rows[x].enabled
         && if Rank(rows, x) < n then !rows[x].config.OtherKind? && Later(rows, clock, x) <= now
            else rows[x].nextRun <= now)
    ensures var r := RowAfter(rows, clock, events, n, x);
      Due(r, now) ==> r.nextRun == if Rank(rows, x) < n then Later(rows, clock, x) else rows[x].nextRun
  {
  }

  /** Iteration `n` handles the one whose turn it is. */
  lemma TurnIsFirst(rows: seq<Row>, clock: seq<int>, events: seq<Event>, n: nat, j: nat)
    requires Wf(rows) && n < |clock| == |events| && Undisturbed(rows, clock, n) && FirstTime(rows, clock, n, j)
    ensures FirstDue(After(rows, clock, events, n), clock[n]) == Some(j)
  {
    var mid := After(rows, clock, events, n);
    DueAfter(rows, clock, events, n, j, clock[n]);
    assert Due(mid[j], clock[n]);
    var x := FirstDue(mid, clock[n]).value;
    if x != j {
      assert Before(mid, x, j);
      DueAfter(rows, clock, events, n, x, clock[n]);
      if Rank(rows, x) < n {
        assert Again(rows, clock, x, n);
        var y :| FirstTime(rows, clock, n, y) && Precedes(rows, clock, y, x);
        RankUnique(rows, y, j);
      } else {
        OutOfTurn(rows, x, j);
      }
    }
  }

  lemma OutOfTurn(rows: seq<Row>, x: nat, j: nat)
    requires x < |rows| && j < |rows| && x != j && rows[x].enabled && rows[j].enabled && Rank(rows, x) >= Rank(rows, j)
    ensures Before(rows, j, x)
  {
    if Before(rows, x, j) { RankLess(rows, x, j); }
  }

  lemma AfterStep(rows: seq<Row>, clock: seq<int>, events: seq<Event>, n: nat, j: nat)
    requires Wf(rows) && n < |clock| == |events| && FirstTime(rows, clock, n, j)
    ensures var mid := After(rows, clock, events, n);
      && mid[j] == rows[j]
      && mid[j := Fire(rows[j], clock[n], events[n])] == After(rows, clock, events, n + 1)
  {
    var mid, next := After(rows, clock, events, n), After(rows, clock, events, n + 1);
    forall i | 0 <= i < |rows| && i != j ensures mid[i] == next[i] {
      if rows[i].enabled && Rank(rows, i) == n { RankUnique(rows, i, j); }
    }
  }

  /** A tick of one iteration. */
  lemma TickOne(rows: seq<Row>, now: int, e: Event)
    requires Wf(rows)
    ensures FirstDue(rows, now).None? ==> Tick(rows, [now], [e]) == (rows, [])
    ensures FirstDue(rows, now).Some? ==>
      var i := FirstDue(rows, now).value;
      Tick(rows, [now], [e])
      == (rows[i := Fire(rows[i], now, e)], [Firing(i, rows[i].nextRun, now, Executed(rows[i], e))])
  {
    if FirstDue(rows, now).Some? {
      var i := FirstDue(rows, now).value;
      TickCons(rows, [now], [e]);
      FireWf(rows, i, now, e);
      var next := rows[i := Fire(rows[i], now, e)];
      assert [now][1..] == [] && [e][1..] == [];
      assert Tick(next, [], []) == (next, []);
      var front := [Firing(i, rows[i].nextRun, now, Executed(rows[i], e))];
      assert front + [] == front;
      assert Tick(rows, [now], [e]) == Prepend(front, (next, []));
    }
  }

  /** Iteration `n` of a tick whose first `n` iterations all handle something. */
  lemma OneMore(rows: seq<Row>, clock: seq<int>, events: seq<Event>, n: nat)
    requires Wf(rows) && n < |clock| == |events| && |Tick(rows, clock[..n], events[..n]).1| == n
    ensures var (mid, fired) := Tick(rows, clock[..n], events[..n]);
      Wf(mid) && Tick(rows, clock[..n + 1], events[..n + 1]) == Prepend(fired, Tick(mid, [clock[n]], [events[n]]))
  {
    assert clock[..n + 1][..n] == clock[..n] && events[..n + 1][..n] == events[..n];
    assert clock[..n + 1][n..] == [clock[n]] && events[..n + 1][n..] == [events[n]];
    TickSplits(rows, clock[..n + 1], events[..n + 1], n);
  }

  /** After a regular start every row of the queue that had its turn was handled once, at its turn. */
  lemma {:induction false} RegularTick(rows: seq<Row>, clock: seq<int>, events: seq<Event>, n: nat)
    requires Wf(rows) && |clock| == |events| && Regular(rows, clock, n)
    ensures var (mid, fired) := Tick(rows, clock[..n], events[..n]);
      && mid == After(rows, clock, events, n) && |fired| == n
      && forall k :: 0 <= k < n ==> FirstTime(rows, clock, k, fired[k].id)
  {
    if n == 0 {
      assert clock[..0] == [] && events[..0] == [];
      assert After(rows, clock, events, 0) == rows;
    } else {
      var m := n - 1;
      RegularTick(rows, clock, events, m);
      assert InTurn(rows, clock, m);
      var j :| FirstTime(rows, clock, m, j);
      OneMore(rows, clock, events, m);
      var mid := After(rows, clock, events, m);
      TurnIsFirst(rows, clock, events, m, j);
      TickOne(mid, clock[m], events[m]);
      AfterStep(rows, clock, events, m, j);
    }
  }

  // ---------------------------------------------------------------- the schedules due at the start

  /** The schedules due at the start fill the first places of the queue, and nobody jumps it before they are done. */
  lemma DueRegular(rows: seq<Row>, clock: seq<int>, start: int)
    requires Wf(rows) && (forall k :: 0 <= k < |clock| ==> start <= clock[k]) && |DueSet(rows, start)| <= |clock|
    ensures Regular(rows, clock, |DueSet(rows, start)|)
    ensures forall i :: 0 <= i < |rows| && rows[i].enabled ==>
      (Due(rows[i], start) <==> Rank(rows, i) < |DueSet(rows, start)|)
  {
    var n := |DueSet(rows, start)|;
    forall i | 0 <= i < |rows| && rows[i].enabled ensures Due(rows[i], start) <==> Rank(rows, i) < n {
      DueRank(rows, start, i);
    }
    forall k | 0 <= k < n ensures InTurn(rows, clock, k) {
      var y := Latest(rows, DueSet(rows, start));
      assert InFront(rows, y) == DueSet(rows, start) - {y};
      var j := RankBelow(rows, y, k);
      DueInTurn(rows, clock, start, k, j);
    }
  }

  lemma DueRank(rows: seq<Row>, start: int, i: nat)
    requires i < |rows| && rows[i].enabled
    ensures Due(rows[i], start) <==> Rank(rows, i) < |DueSet(rows, start)|
  {
    if Due(rows[i], start) {
      SubsetSize(InFront(rows, i), DueSet(rows, start) - {i});
    } else {
      SubsetSize(DueSet(rows, start), InFront(rows, i));
    }
  }

  lemma DueInTurn(rows: seq<Row>, clock: seq<int>, start: int, k: nat, j: nat)
    requires Wf(rows) && (forall m :: 0 <= m < |clock| ==> start <= clock[m]) && k < |clock|
    requires j < |rows| && Due(rows[j], start) && Rank(rows, j) == k
    ensures InTurn(rows, clock, k)
  {
    assert FirstTime(rows, clock, k, j);
    forall i | Again(rows, clock, i, k) ensures Precedes(rows, clock, j, i) {
      assert ClockAt(clock, Rank(rows, i)) >= start;
    }
  }

  /** What has to hold so that no schedule is due when those due at the start are done and the clock shows `now`. */
  ghost predicate Quiet(rows: seq<Row>, clock: seq<int>, start: int, now: int)
    requires Wf(rows)
  {
    forall i :: 0 <= i < |rows| ==>
      if Due(rows[i], start) then rows[i].config.OtherKind? || Later(rows, clock, i) > now else Past(rows[i], now)
  }

  /**
   A tick with iterations to spare handles the schedules due at its start, each once, and nothing else, if and only if
   the clock of the iteration after them is before the next run of every schedule: the stored one for those not due,
   the one computed at its turn for those due, none for those whose configuration raises.
   */
  lemma NothingElseExactly(rows: seq<Row>, clock: seq<int>, events: seq<Event>, start: int)
    requires Wf(rows) && |clock| == |events| && (forall k :: 0 <= k < |clock| ==> start <= clock[k])
    requires |DueSet(rows, start)| < |clock|
    ensures var n := |DueSet(rows, start)|;
      |Tick(rows, clock, events).1| == n <==> Quiet(rows, clock, start, clock[n])
  {
    var n := |DueSet(rows, start)|;
    DueRegular(rows, clock, start);
    RegularTick(rows, clock, events, n);
    TickSplits(rows, clock, events, n);
    AfterWf(rows, clock, events, n);
    var mid := After(rows, clock, events, n);
    TickStops(mid, clock[n..], events[n..]);
    forall i | 0 <= i < |rows|
      ensures !Due(mid[i], clock[n])
        <==> if Due(rows[i], start)
          then rows[i].config.OtherKind? || Later(rows, clock, i) > clock[n] else Past(rows[i], clock[n])
    {
      DueAfter(rows, clock, events, n, i, clock[n]);
    }
  }

  // ---------------------------------------------------------------- nobody twice

  ghost predicate AllDifferent(fired: seq<Firing>) {
    forall j, k :: 0 <= j < k < |fired| ==> fired[j].id != fired[k].id
  }

  /** The longest regular start. */
  lemma {:induction false} RegularEnd(rows: seq<Row>, clock: seq<int>, n: nat) returns (k: nat)
    requires Wf(rows) && Regular(rows, clock, n)
    ensures n <= k <= |clock| && Regular(rows, clock, k) && (k < |clock| ==> !InTurn(rows, clock, k))
    decreases |clock| - n
  {
    if n < |clock| && InTurn(rows, clock, n) {
      k := RegularEnd(rows, clock, n + 1);
    } else {
      k := n;
    }
  }

  lemma TurnsDiffer(rows: seq<Row>, clock: seq<int>, fired: seq<Firing>)
    requires forall k :: 0 <= k < |fired| ==> FirstTime(rows, clock, k, fired[k].id)
    ensures AllDifferent(fired)
  {
  }

  /** When it is nobody's turn and nobody is due again, nobody is due. */
  lemma QueueEnds(rows: seq<Row>, clock: seq<int>, events: seq<Event>, n: nat)
    requires Wf(rows) && n < |clock| == |events| && Undisturbed(rows, clock, n) && !InTurn(rows, clock, n)
    ensures forall i :: 0 <= i < |rows| ==> !Due(After(rows, clock, events, n)[i], clock[n])
  {
    forall i | 0 <= i < |rows| ensures !Due(After(rows, clock, events, n)[i], clock[n]) {
      DueAfter(rows, clock, events, n, i, clock[n]);
      assert !Again(rows, clock, i, n);
      if rows[i].enabled && Rank(rows, i) >= n && rows[i].nextRun <= clock[n] {
        var j := RankBelow(rows, i, n);
        assert FirstTime(rows, clock, n, j);
      }
    }
  }

  /** When somebody jumps the queue, iteration `n` handles a schedule that had its turn. */
  lemma Jumped(rows: seq<Row>, clock: seq<int>, events: seq<Event>, n: nat) returns (x: nat)
    requires Wf(rows) && n < |clock| == |events| && !Undisturbed(rows, clock, n)
    ensures FirstDue(After(rows, clock, events, n), clock[n]) == Some(x) && x < |rows|
    ensures rows[x].enabled && Rank(rows, x) < n
  {
    var mid := After(rows, clock, events, n);
    var i: nat :|
      Again(rows, clock, i, n) && forall j: nat :: FirstTime(rows, clock, n, j) ==> !Precedes(rows, clock, j, i);
    DueAfter(rows, clock, events, n, i, clock[n]);
    assert Due(mid[i], clock[n]);
    x := FirstDue(mid, clock[n]).value;
    DueAfter(rows, clock, events, n, x, clock[n]);
    FirstOfQueue(rows, clock, events, n, x, i);
  }

  /** If the first one due had no turn yet, the one whose turn it is comes before everybody who is due again. */
  lemma FirstOfQueue(rows: seq<Row>, clock: seq<int>, events: seq<Event>, n: nat, x: nat, i: nat)
    requires Wf(rows) && n < |clock| == |events| && Again(rows, clock, i, n)
    requires FirstDue(After(rows, clock, events, n), clock[n]) == Some(x) && x < |rows| && rows[x].enabled
    ensures Rank(rows, x) >= n ==> exists j: nat :: FirstTime(rows, clock, n, j) && Precedes(rows, clock, j, i)
  {
    if Rank(rows, x) >= n {
      DueAfter(rows, clock, events, n, i, clock[n]);
      DueAfter(rows, clock, events, n, x, clock[n]);
      var j := RankBelow(rows, x, n);
      assert FirstTime(rows, clock, n, j);
      assert Before(After(rows, clock, events, n), x, i);
      assert Precedes(rows, clock, j, i);
    }
  }

  lemma HandledAgain(rows: seq<Row>, clock: seq<int>, events: seq<Event>, n: nat)
    requires Wf(rows) && n < |clock| == |events| && Regular(rows, clock, n) && !Undisturbed(rows, clock, n)
    ensures !AllDifferent(Tick(rows, clock, events).1)
  {
    RegularTick(rows, clock, events, n);
    var x := Jumped(rows, clock, events, n);
    AfterWf(rows, clock, events, n);
    TickSplits(rows, clock, events, n);
    var mid, fired := After(rows, clock, events, n), Tick(rows, clock[..n], events[..n]).1;
    TickCons(mid, clock[n..], events[n..]);
    var k := Rank(rows, x);
    assert FirstTime(rows, clock, k, fired[k].id);
    RankUnique(rows, x, fired[k].id);
    assert Tick(rows, clock, events).1[n].id == x && Tick(rows, clock, events).1[k].id == x;
  }

  /**
   No schedule is handled twice in a tick if and only if, as long as the queue is handled in its order, nobody jumps
   it: whoever is due again at an iteration, by the next run computed at its turn, comes after the one whose turn it is.
   */
  lemma NobodyTwiceExactly(rows: seq<Row>, clock: seq<int>, events: seq<Event>)
    requires Wf(rows) && |clock| == |events|
    ensures AllDifferent(Tick(rows, clock, events).1)
      <==> (forall k :: 0 <= k < |clock| && Regular(rows, clock, k) ==> Undisturbed(rows, clock, k))
  {
    var n := RegularEnd(rows, clock, 0);
    if n < |clock| && !Undisturbed(rows, clock, n) {
      HandledAgain(rows, clock, events, n);
    } else {
      EndsInTurn(rows, clock, events, n);
      UndisturbedThroughout(rows, clock, n);
    }
  }

  lemma UndisturbedThroughout(rows: seq<Row>, clock: seq<int>, n: nat)
    requires Wf(rows) && Regular(rows, clock, n)
      && (n < |clock| ==> Undisturbed(rows, clock, n) && !InTurn(rows, clock, n))
    ensures forall k :: 0 <= k < |clock| && Regular(rows, clock, k) ==> Undisturbed(rows, clock, k)
  {
    forall k | 0 <= k < |clock| && Regular(rows, clock, k) ensures Undisturbed(rows, clock, k) {
      assert k <= n;
      if k < n { assert InTurn(rows, clock, k); }
    }
  }

  lemma EndsInTurn(rows: seq<Row>, clock: seq<int>, events: seq<Event>, n: nat)
    requires Wf(rows) && n <= |clock| == |events| && Regular(rows, clock, n)
    requires n < |clock| ==> Undisturbed(rows, clock, n) && !InTurn(rows, clock, n)
    ensures AllDifferent(Tick(rows, clock, events).1)
  {
    RegularTick(rows, clock, events, n);
    TurnsDiffer(rows, clock, Tick(rows, clock[..n], events[..n]).1);
    AfterWf(rows, clock, events, n);
    TickSplits(rows, clock, events, n);
    TickStops(After(rows, clock, events, n), clock[n..], events[n..]);
    if n < |clock| { QueueEnds(rows, clock, events, n); }
  }
}
