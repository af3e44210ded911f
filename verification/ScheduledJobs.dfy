/** From the firings of the scheduler to the rows of the jobs table: one slot yields at most one job. */
module ScheduledJobs {
  import opened Prelude
  import opened JobCreation
  import Scheduler

  // ---------------------------------------------------------------- idempotency keys

  /** What the key of an execution takes from the row of its schedule; `uid` is the text of its id. */
  datatype Plan = Plan(uid: string, creator: nat, jobType: string)

  /** Different schedules have different ids, and the text of an id has no colon. */
  ghost predicate Identified(plans: seq<Plan>) {
    && (forall i :: 0 <= i < |plans| ==> ':' !in plans[i].uid)
    && forall i, j :: 0 <= i < j < |plans| ==> plans[i].uid != plans[j].uid
  }

  /** `strftime("%Y%m%d%H%M%S")` in UTC tells two seconds apart. */
  ghost predicate TellsApart(stamp: int -> string) {
    forall s, t :: stamp(s) == stamp(t) ==> s == t
  }

  /** `_build_idempotency_key`. */
  function KeyText(plans: seq<Plan>, stamp: int -> string, key: Scheduler.Key): string
    requires key.id < |plans|
  {
    (if key.manual then "manual" else "scheduled") + ":" + (plans[key.id].uid + ":" + stamp(key.slot))
  }

  /** The key of an automatic execution: the id of the schedule and the second it was due at. */
  lemma ScheduledText(plans: seq<Plan>, stamp: int -> string, f: Scheduler.Firing)
    requires f.id < |plans|
    ensures KeyText(plans, stamp, Scheduler.KeyOf(f))
      == "scheduled:" + plans[f.id].uid + ":" + stamp(f.due / 1_000_000)
  {
    var uid, second := plans[f.id].uid, stamp(f.due / 1_000_000);
    assert "scheduled" + ":" == "scheduled:";
    assert "scheduled:" + (uid + ":" + second) == "scheduled:" + uid + ":" + second;
  }

  /** A text splits at its first colon in one way. */
  lemma SplitUnique(a: string, b: string, c: string, d: string)
    requires ':' !in a && ':' !in c && a + ":" + b == c + ":" + d
    ensures a == c && b == d
  {
    var left, right := a + ":" + b, c + ":" + d;
    assert left[|a|] == ':' && right[|c|] == ':';
    assert |a| == |c|;
    assert a == left[..|a|] && c == right[..|c|];
    assert b == left[|a| + 1..] && d == right[|c| + 1..];
  }

  /** Different keys have different texts. */
  lemma KeyTextInjective(plans: seq<Plan>, stamp: int -> string, k: Scheduler.Key, m: Scheduler.Key)
    requires Identified(plans) && TellsApart(stamp) && k.id < |plans| && m.id < |plans|
    ensures KeyText(plans, stamp, k) == KeyText(plans, stamp, m) <==> k == m
  {
    if KeyText(plans, stamp, k) == KeyText(plans, stamp, m) {
      var left, right := plans[k.id].uid + ":" + stamp(k.slot), plans[m.id].uid + ":" + stamp(m.slot);
      SplitUnique(
        if k.manual then "manual" else "scheduled", left,
        if m.manual then "manual" else "scheduled", right);
      SplitUnique(plans[k.id].uid, stamp(k.slot), plans[m.id].uid, stamp(m.slot));
      assert k.manual == m.manual by {
        assert |"manual"| != |"scheduled"|;
      }
    }
  }

  // ---------------------------------------------------------------- the calls of the firings

  /**
   What one firing does to the jobs table: its call of `create_job`, if it gets that far, and the rows that other
   sessions commit before the call and during it.
   */
  datatype Call = Call(before: seq<JobRow>, request: Option<Request>, during: seq<JobRow>)

  /** The request of an execution under `key`; a manual one is made for any user, the others for the creator. */
  ghost predicate Asks(plans: seq<Plan>, stamp: int -> string, key: Scheduler.Key, q: Request)
    requires key.id < |plans|
  {
    && q.key == Some(KeyText(plans, stamp, key)) && q.jobType == plans[key.id].jobType
    && (!key.manual ==> q.creator == plans[key.id].creator)
  }

  predicate Acceptable(q: Request) {
    q.references != [] && q.batchSize > 0
  }

  /** The calls are those of the firings; a firing that executes has made an acceptable call. */
  ghost predicate Serve(plans: seq<Plan>, stamp: int -> string, fired: seq<Scheduler.Firing>, calls: seq<Call>) {
    && |calls| == |fired|
    && (forall k :: 0 <= k < |fired| ==> fired[k].id < |plans|)
    && (forall k :: 0 <= k < |fired| && calls[k].request.Some? ==>
      Asks(plans, stamp, Scheduler.KeyOf(fired[k]), calls[k].request.value))
    && forall k :: 0 <= k < |fired| && fired[k].executed ==>
      calls[k].request.Some? && Acceptable(calls[k].request.value)
  }

  function CallOne(rows: seq<JobRow>, c: Call): Outcome {
    match c.request
    case None => Outcome(rows + c.before + c.during, Err(NoItems), false)
    case Some(q) => Create(rows + c.before, c.during, q)
  }

  /** The table after the calls. */
  function Table(rows: seq<JobRow>, calls: seq<Call>): seq<JobRow> {
    if calls == [] then rows else CallOne(Table(rows, calls[..|calls| - 1]), calls[|calls| - 1]).rows
  }

  /** What call `k` answers. */
  function Answer(rows: seq<JobRow>, calls: seq<Call>, k: nat): Outcome
    requires k < |calls|
  {
    CallOne(Table(rows, calls[..k]), calls[k])
  }

  /** Rows are only ever added. */
  lemma {:induction false} TableGrows(rows: seq<JobRow>, calls: seq<Call>, k: nat)
    requires k <= |calls|
    ensures Table(rows, calls[..k]) <= Table(rows, calls)
  {
    if k == |calls| {
      assert calls[..k] == calls;
    } else {
      var n := |calls| - 1;
      TableGrows(rows, calls[..n], k);
      assert calls[..n][..k] == calls[..k];
    }
  }

  lemma AnswerStays(rows: seq<JobRow>, calls: seq<Call>, k: nat)
    requires k < |calls|
    ensures Answer(rows, calls, k).rows <= Table(rows, calls)
  {
    TableGrows(rows, calls, k + 1);
    assert calls[..k + 1][..k] == calls[..k];
  }

  lemma PrefixUnique(rows: seq<JobRow>, all: seq<JobRow>)
    requires Unique(all) && rows <= all
    ensures Unique(rows)
  {
    forall i, j | 0 <= i < j < |rows| && rows[i].key.Some?
      ensures !Matches(rows[j], rows[i].creator, rows[i].jobType, rows[i].key.value)
    {
      assert rows[i] == all[i] && rows[j] == all[j];
    }
  }

  /** An acceptable call under a key that is not empty answers a row with its creator, type and key. */
  lemma Answered(rows: seq<JobRow>, others: seq<JobRow>, q: Request)
    requires Acceptable(q) && Truthy(q.key)
    ensures var a := Create(rows, others, q);
      a.result.Ok? && a.result.value < |a.rows| && Matches(a.rows[a.result.value], q.creator, q.jobType, q.key.value)
  {
  }

  /** The job of an executed firing is a row of the final table with its creator, type and key. */
  lemma JobOfFiring(
      plans: seq<Plan>, stamp: int -> string, fired: seq<Scheduler.Firing>, rows: seq<JobRow>, calls: seq<Call>, k: nat)
    requires Serve(plans, stamp, fired, calls) && k < |fired| && fired[k].executed
    ensures var a := Answer(rows, calls, k); var plan := plans[fired[k].id]; var table := Table(rows, calls);
      && a.result.Ok? && a.result.value < |table|
      && Matches(table[a.result.value], plan.creator, plan.jobType, KeyText(plans, stamp, Scheduler.KeyOf(fired[k])))
  {
    var c := calls[k];
    var q := c.request.value;
    assert |q.key.value| > 0;
    Answered(Table(rows, calls[..k]) + c.before, c.during, q);
    AnswerStays(rows, calls, k);
  }

  /**
   One slot, one job. Over any ticks between two edits, whatever other sessions commit, every firing that executes
   gets a job of its own, which is the only row of the table with its creator, type and key.
   */
  lemma FiringsGetTheirJobs(
      schedules: seq<Scheduler.Row>, clock: seq<int>, events: seq<Scheduler.Event>,
      plans: seq<Plan>, stamp: int -> string, rows: seq<JobRow>, calls: seq<Call>)
    requires Scheduler.Wf(schedules) && |clock| == |events| && Identified(plans) && TellsApart(stamp)
    requires Serve(plans, stamp, Scheduler.Ticks(schedules, clock, events), calls) && Unique(Table(rows, calls))
    ensures var fired := Scheduler.Ticks(schedules, clock, events);
      && (forall j, k :: 0 <= j < k < |fired| && fired[j].executed && fired[k].executed ==>
        Answer(rows, calls, j).result != Answer(rows, calls, k).result)
      && forall k, i :: 0 <= k < |fired| && fired[k].executed && 0 <= i < |Table(rows, calls)| ==>
        (Answer(rows, calls, k).result == Ok(i)
         <==> var plan, key := plans[fired[k].id], KeyText(plans, stamp, Scheduler.KeyOf(fired[k]));
              Matches(Table(rows, calls)[i], plan.creator, plan.jobType, key))
  {
    var fired := Scheduler.Ticks(schedules, clock, events);
    var table := Table(rows, calls);
    forall j, k | 0 <= j < k < |fired| && fired[j].executed && fired[k].executed
      ensures Answer(rows, calls, j).result != Answer(rows, calls, k).result
    {
      JobOfFiring(plans, stamp, fired, rows, calls, j);
      JobOfFiring(plans, stamp, fired, rows, calls, k);
      Scheduler.SlotsIncrease(schedules, clock, events, j, k);
      KeyTextInjective(plans, stamp, Scheduler.KeyOf(fired[j]), Scheduler.KeyOf(fired[k]));
    }
    forall k, i | 0 <= k < |fired| && fired[k].executed && 0 <= i < |table|
      ensures Answer(rows, calls, k).result == Ok(i)
        <==> var plan := plans[fired[k].id];
             Matches(table[i], plan.creator, plan.jobType, KeyText(plans, stamp, Scheduler.KeyOf(fired[k])))
    {
      JobOfFiring(plans, stamp, fired, rows, calls, k);
      var plan, key := plans[fired[k].id], KeyText(plans, stamp, Scheduler.KeyOf(fired[k]));
      if Matches(table[i], plan.creator, plan.jobType, key) {
        UniqueMatch(table, i, Answer(rows, calls, k).result.value, plan.creator, plan.jobType, key);
      }
    }
  }

  /** Any later acceptable call answers the job of an executed firing exactly when it is for the same slot. */
  lemma SameSlotSameJob(
      plans: seq<Plan>, stamp: int -> string, fired: seq<Scheduler.Firing>, rows: seq<JobRow>, calls: seq<Call>, k: nat,
      more: seq<JobRow>, late: seq<JobRow>, key: Scheduler.Key, q: Request)
    requires Identified(plans) && TellsApart(stamp) && Serve(plans, stamp, fired, calls)
    requires k < |fired| && fired[k].executed && key.id < |plans| && Asks(plans, stamp, key, q) && Acceptable(q)
    requires Unique(Table(rows, calls) + more + late)
    ensures var a := Create(Table(rows, calls) + more, late, q);
      && (a.result == Answer(rows, calls, k).result <==> key == Scheduler.KeyOf(fired[k]))
      && (key == Scheduler.KeyOf(fired[k]) ==> !a.created && a.rows == Table(rows, calls) + more)
  {
    JobOfFiring(plans, stamp, fired, rows, calls, k);
    KeyTextInjective(plans, stamp, key, Scheduler.KeyOf(fired[k]));
    var now := Table(rows, calls) + more;
    Answered(now, late, q);
    PrefixUnique(now, now + late);
    var id := Answer(rows, calls, k).result.value;
    assert now[id] == Table(rows, calls)[id];
    var a := Create(now, late, q);
    assert id < |a.rows| && a.rows[id] == now[id];
    if key == Scheduler.KeyOf(fired[k]) {
      UniqueMatch(now, Find(now, q.creator, q.jobType, q.key.value).value, id, q.creator, q.jobType, q.key.value);
    }
  }

  ghost predicate Free(rows: seq<JobRow>, key: string) {
    forall r :: r in rows ==> r.key != Some(key)
  }

  /** As long as no other session uses its key, nothing before a firing does. */
  lemma {:induction false} FreeUntil(
      plans: seq<Plan>, stamp: int -> string, fired: seq<Scheduler.Firing>, rows: seq<JobRow>, calls: seq<Call>,
      n: nat, key: string)
    requires Serve(plans, stamp, fired, calls) && n <= |calls| && Free(rows, key)
    requires forall j :: 0 <= j < n ==> KeyText(plans, stamp, Scheduler.KeyOf(fired[j])) != key
    requires forall j :: 0 <= j < n ==> Free(calls[j].before, key) && Free(calls[j].during, key)
    ensures Free(Table(rows, calls[..n]), key)
  {
    if n == 0 {
      assert calls[..0] == [];
    } else {
      var m := n - 1;
      FreeUntil(plans, stamp, fired, rows, calls, m, key);
      TakeSnoc(calls, m);
      assert calls[..n][..m] == calls[..m];
      var table, c := Table(rows, calls[..m]), calls[m];
      forall r | r in CallOne(table, c).rows ensures r.key != Some(key) {
        if c.request.Some? && r !in table + c.before + c.during {
          assert r == RowFor(c.request.value);
        }
      }
    }
  }

  /** Every executed firing adds its job, unless another session used the key of its slot. */
  lemma FiringCreates(
      schedules: seq<Scheduler.Row>, clock: seq<int>, events: seq<Scheduler.Event>,
      plans: seq<Plan>, stamp: int -> string, rows: seq<JobRow>, calls: seq<Call>, k: nat)
    requires Scheduler.Wf(schedules) && |clock| == |events| && Identified(plans) && TellsApart(stamp)
    requires Serve(plans, stamp, Scheduler.Ticks(schedules, clock, events), calls)
    requires k < |calls| && Scheduler.Ticks(schedules, clock, events)[k].executed
    requires var key := KeyText(plans, stamp, Scheduler.KeyOf(Scheduler.Ticks(schedules, clock, events)[k]));
      Free(rows, key) && forall j :: 0 <= j <= k ==> Free(calls[j].before, key) && Free(calls[j].during, key)
    ensures var a := Answer(rows, calls, k);
      && a.created && a.result == Ok(|a.rows| - 1)
      && a.rows == Table(rows, calls[..k]) + calls[k].before + calls[k].during + [RowFor(calls[k].request.value)]
      && var f := Scheduler.Ticks(schedules, clock, events)[k];
         a.rows[|a.rows| - 1].key == Some("scheduled:" + plans[f.id].uid + ":" + stamp(f.due / 1_000_000))
  {
    var fired := Scheduler.Ticks(schedules, clock, events);
    var key := KeyText(plans, stamp, Scheduler.KeyOf(fired[k]));
    forall j | 0 <= j < k ensures KeyText(plans, stamp, Scheduler.KeyOf(fired[j])) != key {
      Scheduler.SlotsIncrease(schedules, clock, events, j, k);
      KeyTextInjective(plans, stamp, Scheduler.KeyOf(fired[j]), Scheduler.KeyOf(fired[k]));
    }
    FreeUntil(plans, stamp, fired, rows, calls, k, key);
    ScheduledText(plans, stamp, fired[k]);
    var before := Table(rows, calls[..k]) + calls[k].before;
    var q := calls[k].request.value;
    assert Free(before, key) && Free(before + calls[k].during, key);
    assert Find(before, q.creator, q.jobType, key).None?
      && Find(before + calls[k].during, q.creator, q.jobType, key).None?;
  }
}
