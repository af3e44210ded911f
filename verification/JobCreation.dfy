/** `create_job` and the child branch of `retry_job`: batches, idempotency under races, lineage. */
module JobCreation {
  import opened Prelude
  import opened JobModel
  import opened JobProtocol
  import opened JobInvariant
  import opened JobTheorems

  // ---------------------------------------------------------------- chunks

  function Chunks<T>(s: seq<T>, size: nat): seq<seq<T>>
    requires size > 0
  {
    if s == [] then [] else if |s| <= size then [s] else [s[..size]] + Chunks(s[size..], size)
  }

  /** `chunked`: slices at 0, size, 2 * size, ... */
  method Chunked<T>(items: seq<T>, size: nat) returns (r: seq<seq<T>>)
    requires size > 0
    ensures r == Chunks(items, size)
  {
    r := [];
    var index := 0;
    while index < |items|
      invariant index <= |items| ==> r + Chunks(items[index..], size) == Chunks(items, size)
      invariant index > |items| ==> r == Chunks(items, size)
    {
      if index + size <= |items| {
        ghost var rest := items[index..];
        assert rest[..size] == items[index..index + size] && rest[size..] == items[index + size..];
        assert |rest| == size ==> rest[..size] == rest && rest[size..] == [];
        assert Chunks(rest, size) == [items[index..index + size]] + Chunks(items[index + size..], size);
        assert r + Chunks(items[index..], size)
          == r + [items[index..index + size]] + Chunks(items[index + size..], size);
        r := r + [items[index..index + size]];
      } else {
        r := r + [items[index..]];
      }
      index := index + size;
    }
  }

  lemma {:induction false} FlattenCons<T>(part: seq<T>, parts: seq<seq<T>>)
    ensures Flatten([part] + parts) == part + Flatten(parts)
  {
    if parts == [] {
      assert [part] + parts == [] + [part];
      FlattenSnoc([], part);
    } else {
      var front, last := parts[..|parts| - 1], parts[|parts| - 1];
      FlattenCons(part, front);
      FlattenSnoc([part] + front, last);
      assert [part] + parts == ([part] + front) + [last];
    }
  }

  /** The chunks partition the list in order, all but the last are full, and there are ceil(n / size) of them. */
  lemma ChunksPartition<T>(s: seq<T>, size: nat)
    requires size > 0
    ensures Flatten(Chunks(s, size)) == s
    ensures |Chunks(s, size)| == (|s| + size - 1) / size
    ensures forall k :: 0 <= k < |Chunks(s, size)| ==> 1 <= |Chunks(s, size)[k]| <= size
    ensures forall k :: 0 <= k < |Chunks(s, size)| - 1 ==> |Chunks(s, size)[k]| == size
  {
    ChunksFlatten(s, size);
    ChunksCount(s, size);
    ChunksSizes(s, size);
  }

  lemma {:induction false} ChunksFlatten<T>(s: seq<T>, size: nat)
    requires size > 0
    ensures Flatten(Chunks(s, size)) == s
    decreases |s|
  {
    if s != [] {
      if |s| <= size {
        assert [s][..0] == [];
      } else {
        ChunksFlatten(s[size..], size);
        FlattenCons(s[..size], Chunks(s[size..], size));
        assert s[..size] + s[size..] == s;
      }
    }
  }

  lemma {:induction false} ChunksCount<T>(s: seq<T>, size: nat)
    requires size > 0
    ensures |Chunks(s, size)| == (|s| + size - 1) / size
    decreases |s|
  {
    if s == [] {
      DivUnique(size - 1, size, 0);
    } else if |s| <= size {
      CeilOne(|s|, size);
    } else {
      ChunksCount(s[size..], size);
      CeilStep(|s| - size, size);
    }
  }

  lemma {:induction false} ChunksSizes<T>(s: seq<T>, size: nat)
    requires size > 0
    ensures forall k :: 0 <= k < |Chunks(s, size)| ==> 1 <= |Chunks(s, size)[k]| <= size
    ensures forall k :: 0 <= k < |Chunks(s, size)| - 1 ==> |Chunks(s, size)[k]| == size
    decreases |s|
  {
    if |s| > size { ChunksSizes(s[size..], size); }
  }

  lemma CeilOne(n: nat, size: nat)
    requires 0 < n <= size
    ensures (n + size - 1) / size == 1
  {
    DivUnique(n + size - 1, size, 1);
  }

  lemma CeilStep(n: nat, size: nat)
    requires size > 0
    ensures (n + size + size - 1) / size == (n + size - 1) / size + 1
  {
    var q := (n + size - 1) / size;
    DivUnique(n + size + size - 1, size, q + 1);
  }

  lemma DivUnique(n: nat, size: nat, q: nat)
    requires size > 0 && q * size <= n < (q + 1) * size
    ensures n / size == q
  {
    var d := n / size;
    if d < q {
      MulMonotone(d + 1, q, size);
    }
    if q < d {
      MulMonotone(q + 1, d, size);
    }
  }

  // ---------------------------------------------------------------- rows of a new job

  function NewItemFor(reference: string, payloads: map<string, string>): Item {
    var payload := if reference in payloads then Some(payloads[reference]) else None;
    Item(reference, ItemPending, 0, payload, payload)
  }

  function ItemsFor(chunk: seq<string>, payloads: map<string, string>): (r: seq<Item>)
    ensures |r| == |chunk|
  {
    seq(|chunk|, i requires 0 <= i < |chunk| => NewItemFor(chunk[i], payloads))
  }

  function BatchFor(chunk: seq<string>, payloads: map<string, string>): Batch {
    Batch(BatchPending, None, 0, 0, |chunk|, Counts(0, 0, 0), ItemsFor(chunk, payloads))
  }

  function BatchesFor(chunks: seq<seq<string>>, payloads: map<string, string>): (r: seq<Batch>)
    ensures |r| == |chunks|
  {
    seq(|chunks|, k requires 0 <= k < |chunks| => BatchFor(chunks[k], payloads))
  }

  function NewJob(references: seq<string>, batches: seq<Batch>): Job {
    Job(JobQueued, false, |references|, 0, 0, 0, 0, |batches|, 0)
  }

  /** All items of a job, batch after batch. */
  function AllItems(batches: seq<Batch>): seq<Item> {
    if batches == [] then [] else AllItems(batches[..|batches| - 1]) + batches[|batches| - 1].items
  }

  function References(items: seq<Item>): (r: seq<string>)
    ensures |r| == |items|
    ensures forall i :: 0 <= i < |r| ==> r[i] == items[i].reference
  {
    seq(|items|, i requires 0 <= i < |items| => items[i].reference)
  }

  lemma {:induction false} AllItemsFor(chunks: seq<seq<string>>, payloads: map<string, string>)
    ensures AllItems(BatchesFor(chunks, payloads)) == ItemsFor(Flatten(chunks), payloads)
  {
    if chunks != [] {
      var n := |chunks| - 1;
      AllItemsFor(chunks[..n], payloads);
      assert BatchesFor(chunks, payloads)[..n] == BatchesFor(chunks[..n], payloads);
    }
  }

  lemma {:induction false} ItemCountFor(chunks: seq<seq<string>>, payloads: map<string, string>)
    ensures ItemCount(BatchesFor(chunks, payloads)) == |Flatten(chunks)|
  {
    if chunks != [] {
      var n := |chunks| - 1;
      ItemCountFor(chunks[..n], payloads);
      assert BatchesFor(chunks, payloads)[..n] == BatchesFor(chunks[..n], payloads);
    }
  }

  // ---------------------------------------------------------------- the jobs table

  datatype CreateError = NoItems | BadBatchSize | IntegrityError | NothingToRetry

  datatype Request = Request(
    creator: nat,
    jobType: string,
    key: Option<string>,
    parent: Option<nat>,
    references: seq<string>,
    batchSize: int,
    payloads: map<string, string>)

  /** A row of the table; the id of a job is its position. */
  datatype JobRow = JobRow(creator: nat, jobType: string, key: Option<string>, parent: Option<nat>, job: Job,
      batches: seq<Batch>)

  predicate Matches(row: JobRow, creator: nat, jobType: string, key: string) {
    row.creator == creator && row.jobType == jobType && row.key == Some(key)
  }

  /** The unique constraint on creator, type and key; a missing key does not take part. */
  ghost predicate Unique(rows: seq<JobRow>) {
    forall i, j :: 0 <= i < j < |rows| && rows[i].key.Some? ==>
      !SameKey(rows[i], rows[j])
  }

  predicate SameKey(a: JobRow, b: JobRow) {
    a.creator == b.creator && a.jobType == b.jobType && a.key == b.key
  }

  /** `get_by_idempotency_key`. */
  function Find(rows: seq<JobRow>, creator: nat, jobType: string, key: string): (r: Option<nat>)
    ensures r.Some? ==> r.value < |rows| && Matches(rows[r.value], creator, jobType, key)
    ensures r.None? ==> forall i :: 0 <= i < |rows| ==> !Matches(rows[i], creator, jobType, key)
  {
    if rows == [] then None
    else
      var front := Find(rows[..|rows| - 1], creator, jobType, key);
      if front.Some? then front
      else if Matches(rows[|rows| - 1], creator, jobType, key) then Some(|rows| - 1)
      else None
  }

  /** An empty key is stored but never looked up. */
  predicate Truthy(key: Option<string>) {
    key.Some? && key.value != ""
  }

  function RowFor(q: Request): JobRow
    requires q.batchSize > 0
  {
    var references := Dedupe(q.references);
    var batches := BatchesFor(Chunks(references, q.batchSize), q.payloads);
    JobRow(q.creator, q.jobType, q.key, q.parent, NewJob(references, batches), batches)
  }

  datatype Outcome = Outcome(rows: seq<JobRow>, result: Result<nat, CreateError>, created: bool)

  /** `create_job`, when `others` are the rows that other sessions commit between its look-up and its commit. */
  function Create(rows: seq<JobRow>, others: seq<JobRow>, q: Request): Outcome {
    if q.references == [] then Outcome(rows, Err(NoItems), false)
    else if q.batchSize <= 0 then Outcome(rows, Err(BadBatchSize), false)
    else if Truthy(q.key) && Find(rows, q.creator, q.jobType, q.key.value).Some? then
      Outcome(rows, Ok(Find(rows, q.creator, q.jobType, q.key.value).value), false)
    else
      var now := rows + others;
      var hit := if q.key.Some? then Find(now, q.creator, q.jobType, q.key.value) else None;
      if hit.None? then Outcome(now + [RowFor(q)], Ok(|now|), true)
      else if Truthy(q.key) then Outcome(now, Ok(hit.value), false)
      else Outcome(now, Err(IntegrityError), false)
  }

  class JobTable {
    var rows: seq<JobRow>

    constructor ()
      ensures rows == []
    {
      rows := [];
    }

    method CreateJob(q: Request, others: seq<JobRow>) returns (r: Result<nat, CreateError>, created: bool)
      modifies this
      ensures Outcome(rows, r, created) == Create(old(rows), others, q)
    {
      var normalized := Dedupe(q.references);
      if normalized == [] {
        return Err(NoItems), false;
      }
      if q.batchSize <= 0 {
        return Err(BadBatchSize), false;
      }
      if Truthy(q.key) {
        var existing := Find(rows, q.creator, q.jobType, q.key.value);
        if existing.Some? {
          return Ok(existing.value), false;
        }
      }
      var batches := BuildBatches(normalized, q.batchSize, q.payloads);
      var row := JobRow(q.creator, q.jobType, q.key, q.parent, NewJob(normalized, batches), batches);
      rows := rows + others;
      var conflict := if q.key.Some? then Find(rows, q.creator, q.jobType, q.key.value) else None;
      if conflict.None? {
        rows := rows + [row];
        return Ok(|rows| - 1), true;
      }
      if Truthy(q.key) {
        return Ok(conflict.value), false;
      }
      return Err(IntegrityError), false;
    }

    /**
     `retry_job`, for the request of user `user`: a job that still has batches to publish goes back to QUEUED and is
     published again, which is the label `Resume`; for any other job a child with its failed items is created.
     */
    method RetryJob(id: nat, user: nat, batchSize: int) returns (r: Result<nat, CreateError>, resumed: bool)
      requires id < |rows|
      modifies this
      ensures resumed <==> Dispatchable(old(rows)[id])
      ensures resumed ==> r == Ok(id) && rows == old(rows)[id := Requeued(old(rows)[id])]
      ensures !resumed ==> Outcome(rows, r, r.Ok?) == Retry(old(rows), id, user, batchSize)
    {
      var parent := rows[id];
      if Dispatchable(parent) {
        rows := rows[id := parent.(job := parent.job.(status := JobQueued))];
        return Ok(id), true;
      }
      var references := References(FailedItems(parent.batches));
      if references == [] {
        return Err(NothingToRetry), false;
      }
      var payloads := PayloadMap(FailedItems(parent.batches));
      var created;
      r, created := CreateJob(Request(user, parent.jobType, None, Some(id), references, batchSize, payloads), []);
      resumed := false;
    }

    /** The two nested loops that build batches and items. */
    method BuildBatches(references: seq<string>, size: nat, payloads: map<string, string>) returns (r: seq<Batch>)
      requires size > 0
      ensures r == BatchesFor(Chunks(references, size), payloads)
    {
      var chunks := Chunked(references, size);
      r := [];
      var k := 0;
      while k < |chunks|
        invariant k <= |chunks|
        invariant r == BatchesFor(chunks[..k], payloads)
      {
        var items: seq<Item> := [];
        var i := 0;
        while i < |chunks[k]|
          invariant i <= |chunks[k]|
          invariant items == ItemsFor(chunks[k][..i], payloads)
        {
          items := items + [NewItemFor(chunks[k][i], payloads)];
          i := i + 1;
        }
        assert chunks[k][..i] == chunks[k];
        r := r + [Batch(BatchPending, None, 0, 0, |chunks[k]|, Counts(0, 0, 0), items)];
        k := k + 1;
      }
      assert chunks[..k] == chunks;
    }
  }

  // ---------------------------------------------------------------- what creation promises

  function StateFor(row: JobRow, early: bool): State {
    State(row.job, row.batches, map[], map[], {}, 0, 1, 0, 0, false, early)
  }

  lemma ChunkItems(chunks: seq<seq<string>>, payloads: map<string, string>, k: nat)
    requires k < |chunks|
    ensures BatchesFor(chunks, payloads)[k].items == ItemsFor(chunks[k], payloads)
    ensures |BatchesFor(chunks, payloads)[k].items| == |chunks[k]|
    ensures chunks[k] != [] ==> NewBatch(BatchesFor(chunks, payloads)[k])
  {
  }

  lemma ReferencesOfItemsFor(references: seq<string>, payloads: map<string, string>)
    ensures References(ItemsFor(references, payloads)) == references
    ensures forall x :: x in ItemsFor(references, payloads) ==>
      x.payload == if x.reference in payloads then Some(payloads[x.reference]) else None
  {
  }

  /**
   Creation partitions. The batches hold the references in order, each once; every batch has between 1
   and `batch_size` items, all but the last are full, there are ceil(n / batch_size) of them; and every
   item has the payload given for its reference.
   */
  lemma CreationPartitions(q: Request)
    requires q.references != [] && q.batchSize > 0
    ensures var row := RowFor(q); var n := |Dedupe(q.references)|;
      && References(AllItems(row.batches)) == Dedupe(q.references)
      && |row.batches| == (n + q.batchSize - 1) / q.batchSize
      && (forall k :: 0 <= k < |row.batches| ==> 1 <= |row.batches[k].items| <= q.batchSize)
      && (forall k :: 0 <= k < |row.batches| - 1 ==> |row.batches[k].items| == q.batchSize)
      && (forall x :: x in AllItems(row.batches) ==>
            x.payload == if x.reference in q.payloads then Some(q.payloads[x.reference]) else None)
  {
    var references := Dedupe(q.references);
    var chunks := Chunks(references, q.batchSize);
    ChunksPartition(references, q.batchSize);
    AllItemsFor(chunks, q.payloads);
    ItemCountFor(chunks, q.payloads);
    ReferencesOfItemsFor(references, q.payloads);
    forall k | 0 <= k < |chunks| ensures |BatchesFor(chunks, q.payloads)[k].items| == |chunks[k]| {
      ChunkItems(chunks, q.payloads, k);
    }
  }

  /** What `create_job` commits is a first state of the protocol. */
  lemma CreationStarts(q: Request, early: bool)
    requires q.references != [] && q.batchSize > 0
    ensures Created(StateFor(RowFor(q), early))
  {
    var references := Dedupe(q.references);
    var chunks := Chunks(references, q.batchSize);
    ChunksPartition(references, q.batchSize);
    AllItemsFor(chunks, q.payloads);
    ItemCountFor(chunks, q.payloads);
    assert chunks != [];
    forall k | 0 <= k < |chunks| ensures NewBatch(BatchesFor(chunks, q.payloads)[k]) {
      ChunkItems(chunks, q.payloads, k);
    }
  }

  /** Row `i` has the creator, the type and the key of the request. */
  predicate HasKeyOf(rows: seq<JobRow>, q: Request, i: nat) {
    i < |rows| && rows[i].creator == q.creator && rows[i].jobType == q.jobType && rows[i].key == q.key
  }

  /**
   What a valid call answers: it adds a job exactly when it has no key or no row has its creator, type and key when
   it commits; otherwise it returns such a row, or fails when the key is the empty text.
   */
  lemma CreateExactly(rows: seq<JobRow>, others: seq<JobRow>, q: Request)
    requires q.references != [] && q.batchSize > 0
    ensures var a := Create(rows, others, q);
      && (a.created <==> q.key.None? || forall i :: 0 <= i < |rows + others| ==> !HasKeyOf(rows + others, q, i))
      && (a.created ==>
            a.rows[..|a.rows| - 1] == rows + others && a.result == Ok(|rows + others|)
            && HasKeyOf(a.rows, q, |rows + others|) && a.rows[|rows + others|].parent == q.parent)
      && (!a.created && q.key != Some("") ==> a.result.Ok? && HasKeyOf(a.rows, q, a.result.value))
      && (!a.created && q.key == Some("") ==> a.result == Err(IntegrityError))
      && (!a.created ==> a.rows == rows || a.rows == rows + others)
  {
    var now := rows + others;
    forall i | 0 <= i < |now| && q.key.Some?
      ensures HasKeyOf(now, q, i) <==> Matches(now[i], q.creator, q.jobType, q.key.value)
    {
    }
    assert forall i :: 0 <= i < |rows| ==> now[i] == rows[i];
    assert (now + [RowFor(q)])[..|now|] == now;
  }

  /** The unique constraint holds after every call, whatever other sessions commit meanwhile. */
  lemma CreateKeepsUnique(rows: seq<JobRow>, others: seq<JobRow>, q: Request)
    requires Unique(rows + others)
    ensures Unique(Create(rows, others, q).rows)
  {
    assert forall i :: 0 <= i < |rows| ==> (rows + others)[i] == rows[i];
  }

  lemma UniqueMatch(rows: seq<JobRow>, i: nat, j: nat, creator: nat, jobType: string, key: string)
    requires Unique(rows) && i < |rows| && j < |rows|
    requires Matches(rows[i], creator, jobType, key) && Matches(rows[j], creator, jobType, key)
    ensures i == j
  {
  }

  /**
   Creation is idempotent, also under races. Whatever other sessions commit during the call, a valid
   call with a key succeeds and returns the one job that has this creator, type and key; it adds a job
   exactly when there was none; and every later or racing call with the same three values returns the
   same job and adds none.
   */
  lemma CreateIsIdempotent(rows: seq<JobRow>, others: seq<JobRow>, q: Request, more: seq<JobRow>, late: seq<JobRow>,
      q': Request)
    requires Unique(rows + others)
    requires q.references != [] && q.batchSize > 0 && Truthy(q.key)
    requires q'.references != [] && q'.batchSize > 0
    requires q'.creator == q.creator && q'.jobType == q.jobType && q'.key == q.key
    requires Unique(Create(rows, others, q).rows + more + late)
    ensures var a := Create(rows, others, q); var b := Create(a.rows + more, late, q');
      && a.result.Ok? && a.result.value < |a.rows|
      && Matches(a.rows[a.result.value], q.creator, q.jobType, q.key.value)
      && (a.created <==> (Find(rows, q.creator, q.jobType, q.key.value).None?
                          && Find(rows + others, q.creator, q.jobType, q.key.value).None?))
      && b.result == a.result && !b.created && b.rows == a.rows + more
      && (forall i :: 0 <= i < |b.rows| && Matches(b.rows[i], q.creator, q.jobType, q.key.value)
           ==> i == a.result.value)
  {
    var a := Create(rows, others, q);
    var all := a.rows + more;
    forall i, j | 0 <= i < j < |all| && all[i].key.Some?
      ensures !Matches(all[j], all[i].creator, all[i].jobType, all[i].key.value)
    {
      assert all[i] == (all + late)[i] && all[j] == (all + late)[j];
    }
    var i := a.result.value;
    assert all[i] == a.rows[i];
    var found := Find(all, q.creator, q.jobType, q.key.value);
    UniqueMatch(all, found.value, i, q.creator, q.jobType, q.key.value);
    forall j | 0 <= j < |all| && Matches(all[j], q.creator, q.jobType, q.key.value) ensures j == i {
      UniqueMatch(all, j, i, q.creator, q.jobType, q.key.value);
    }
  }

  lemma FindAppended(rows: seq<JobRow>, row: JobRow, creator: nat, jobType: string, key: string)
    requires Find(rows, creator, jobType, key).None? && Matches(row, creator, jobType, key)
    ensures Find(rows + [row], creator, jobType, key) == Some(|rows|)
  {
    assert (rows + [row])[..|rows|] == rows;
  }

  /** An empty key is not an idempotency key: the second call with it is refused instead of answered. */
  lemma EmptyKeyIsRefused(rows: seq<JobRow>, q: Request)
    requires q.references != [] && q.batchSize > 0 && q.key == Some("")
    requires Find(rows, q.creator, q.jobType, "").None?
    ensures Create(rows, [], q).created
    ensures Create(rows + [RowFor(q)], [], q) == Outcome(rows + [RowFor(q)], Err(IntegrityError), false)
    ensures Create(rows, [], q).rows == rows + [RowFor(q)]
  {
    var row := RowFor(q);
    assert rows + [] == rows && rows + [row] + [] == rows + [row];
    FindAppended(rows, row, q.creator, q.jobType, "");
  }

  // ---------------------------------------------------------------- retry

  predicate IsFailed(x: Item) { x.status == ItemFailed }

  /** The rows behind `get_failed_references` and `get_failed_item_payloads`. */
  function FailedItems(batches: seq<Batch>): seq<Item> {
    Filter(IsFailed, AllItems(batches))
  }

  /** `get_failed_item_payloads`: rows without a payload are left out. */
  function PayloadMap(items: seq<Item>): map<string, string> {
    if items == [] then map[]
    else
      var x := items[|items| - 1];
      var front := PayloadMap(items[..|items| - 1]);
      if x.payload.Some? then front[x.reference := x.payload.value] else front
  }

  function Pairs(items: seq<Item>): (r: seq<(string, Payload)>)
    ensures |r| == |items|
    ensures forall i :: 0 <= i < |r| ==> r[i] == (items[i].reference, items[i].payload)
  {
    seq(|items|, i requires 0 <= i < |items| => (items[i].reference, items[i].payload))
  }

  lemma {:induction false} PayloadMapLookup(items: seq<Item>, i: nat)
    requires i < |items| && Distinct(References(items))
    ensures items[i].payload == if items[i].reference in PayloadMap(items)
      then Some(PayloadMap(items)[items[i].reference]) else None
    decreases |items|
  {
    var n := |items| - 1;
    assert References(items[..n]) == References(items)[..n];
    if i < n {
      PayloadMapLookup(items[..n], i);
      assert References(items)[i] != References(items)[n];
    } else {
      PayloadMapKeys(items[..n], items[n].reference);
    }
  }

  lemma {:induction false} PayloadMapKeys(items: seq<Item>, reference: string)
    requires forall i :: 0 <= i < |items| ==> items[i].reference != reference
    ensures reference !in PayloadMap(items)
  {
    if items != [] {
      PayloadMapKeys(items[..|items| - 1], reference);
    }
  }

  lemma {:induction false} FilterDistinct(items: seq<Item>)
    requires Distinct(References(items))
    ensures Distinct(References(Filter(IsFailed, items)))
  {
    if items != [] {
      var n := |items| - 1;
      var front := Filter(IsFailed, items[..n]);
      assert References(items[..n]) == References(items)[..n];
      FilterDistinct(items[..n]);
      if IsFailed(items[n]) {
        var all := Filter(IsFailed, items);
        forall i, j | 0 <= i < j < |all| ensures References(all)[i] != References(all)[j] {
          if j == |front| {
            assert all[i] == front[i] && front[i] in items[..n];
            var k :| 0 <= k < n && items[..n][k] == front[i];
            assert References(items)[k] != References(items)[n];
          } else {
            assert References(front)[i] != References(front)[j];
          }
        }
      }
    }
  }

  predicate Lists(at: seq<nat>, k: nat) {
    exists i :: 0 <= i < |at| && at[i] == k
  }

  /** The failed items of a list, by their positions: all of them, in order, and no others. */
  ghost predicate FailedAt(items: seq<Item>, at: seq<nat>) {
    && (forall i, j :: 0 <= i < j < |at| ==> at[i] < at[j])
    && (forall i :: 0 <= i < |at| ==> at[i] < |items| && items[at[i]].status == ItemFailed)
    && forall k: nat :: k < |items| && items[k].status == ItemFailed ==> Lists(at, k)
  }

  lemma {:induction false} FilterIsFailed(items: seq<Item>) returns (at: seq<nat>)
    ensures FailedAt(items, at) && |Filter(IsFailed, items)| == |at|
    ensures forall i :: 0 <= i < |at| ==> Filter(IsFailed, items)[i] == items[at[i]]
  {
    if items == [] {
      at := [];
    } else {
      var n: nat := |items| - 1;
      var front := FilterIsFailed(items[..n]);
      assert items[..n] + [items[n]] == items;
      if items[n].status == ItemFailed {
        FailedAtMore(items[..n], items[n], front);
        at := front + [n];
      } else {
        FailedAtSame(items[..n], items[n], front);
        at := front;
      }
    }
  }

  lemma FailedAtSame(items: seq<Item>, x: Item, at: seq<nat>)
    requires FailedAt(items, at) && x.status != ItemFailed
    ensures FailedAt(items + [x], at)
  {
    var all := items + [x];
    forall k: nat | k < |all| && all[k].status == ItemFailed ensures Lists(at, k) { assert all[k] == items[k]; }
  }

  lemma FailedAtMore(items: seq<Item>, x: Item, at: seq<nat>)
    requires FailedAt(items, at) && x.status == ItemFailed
    ensures FailedAt(items + [x], at + [|items|])
  {
    var all, more: seq<nat> := items + [x], at + [|items|];
    assert more[|at|] == |items|;
    forall k: nat | k < |all| && all[k].status == ItemFailed ensures Lists(more, k) {
      if k < |items| {
        assert all[k] == items[k] && Lists(at, k);
        var i :| 0 <= i < |at| && at[i] == k;
        assert more[i] == k;
      }
    }
  }

  /** The request of the child job. */
  function ChildRequest(row: JobRow, id: nat, user: nat, batchSize: int): Request {
    var failed := FailedItems(row.batches);
    Request(user, row.jobType, None, Some(id), References(failed), batchSize, PayloadMap(failed))
  }

  /** The guard of the resume branch: an unfinished job with a batch to publish. */
  predicate Dispatchable(row: JobRow) {
    !TerminalJob(row.job.status) && exists b :: 0 <= b < |row.batches| && row.batches[b].status == BatchPending
  }

  function Requeued(row: JobRow): JobRow {
    row.(job := row.job.(status := JobQueued))
  }

  /** The resume branch is the label `Resume`: it is taken under its guard and has its effect on the job row. */
  lemma ResumeIsTheLabel(s: State, row: JobRow)
    requires s.job == row.job && s.batches == row.batches
    ensures Dispatchable(row) <==> Enabled(s, Resume)
    ensures Dispatchable(row)
      ==> Apply(s, Resume).job == Requeued(row).job && Apply(s, Resume).batches == Requeued(row).batches
  {
  }

  /** The child branch of `retry_job`, on a table row. */
  function Retry(rows: seq<JobRow>, id: nat, user: nat, batchSize: int): Outcome
    requires id < |rows|
  {
    if FailedItems(rows[id].batches) == [] then Outcome(rows, Err(NothingToRetry), false)
    else Create(rows, [], ChildRequest(rows[id], id, user, batchSize))
  }

  /** The child holds exactly the failed references of the parent, in order, each with the parent's payload. */
  lemma ChildCarriesFailures(row: JobRow, id: nat, user: nat, batchSize: int)
    requires Distinct(References(AllItems(row.batches)))
    requires FailedItems(row.batches) != [] && batchSize > 0
    ensures var child := RowFor(ChildRequest(row, id, user, batchSize));
      && Pairs(AllItems(child.batches)) == Pairs(FailedItems(row.batches))
      && child.parent == Some(id)
  {
    var q := ChildRequest(row, id, user, batchSize);
    var failed := FailedItems(row.batches);
    FilterDistinct(AllItems(row.batches));
    DedupeDistinct(q.references);
    CreationPartitions(q);
    var items := AllItems(RowFor(q).batches);
    assert References(items) == References(failed);
    forall i | 0 <= i < |items| ensures Pairs(items)[i] == Pairs(failed)[i] {
      assert items[i] in items;
      assert items[i].reference == References(items)[i] == References(failed)[i];
      PayloadMapLookup(failed, i);
    }
  }

  /**
   The child of a retry, item by item: it is a job of the caller with the type of the parent, without a key, and its
   pending items are the failed items of the parent, in order, each with the payload it has there. A reference of the
   parent is in the child if and only if its item failed.
   */
  lemma ChildHoldsFailed(row: JobRow, id: nat, user: nat, batchSize: int) returns (at: seq<nat>)
    requires Distinct(References(AllItems(row.batches))) && batchSize > 0
    requires exists k :: 0 <= k < |AllItems(row.batches)| && AllItems(row.batches)[k].status == ItemFailed
    ensures var child := RowFor(ChildRequest(row, id, user, batchSize));
      child.creator == user && child.jobType == row.jobType && child.key == None && child.parent == Some(id)
    ensures var items := AllItems(row.batches);
            var kids := AllItems(RowFor(ChildRequest(row, id, user, batchSize)).batches);
      && FailedAt(items, at) && |kids| == |at|
      && (forall i :: 0 <= i < |at| ==>
            kids[i].reference == items[at[i]].reference && kids[i].payload == items[at[i]].payload
            && kids[i].status == ItemPending && kids[i].attempts == 0)
      && (forall k :: 0 <= k < |items| ==> (items[k].reference in References(kids) <==> items[k].status == ItemFailed))
  {
    var items := AllItems(row.batches);
    var q := ChildRequest(row, id, user, batchSize);
    at := FilterIsFailed(items);
    var k :| 0 <= k < |items| && items[k].status == ItemFailed;
    assert Lists(at, k);
    var kids := AllItems(RowFor(q).batches);
    ChildCarriesFailures(row, id, user, batchSize);
    CreationPartitions(q);
    AllItemsFor(Chunks(Dedupe(q.references), q.batchSize), q.payloads);
    forall i | 0 <= i < |at|
      ensures kids[i].reference == items[at[i]].reference && kids[i].payload == items[at[i]].payload
      ensures kids[i].status == ItemPending && kids[i].attempts == 0
    {
      assert Pairs(kids)[i] == Pairs(FailedItems(row.batches))[i];
    }
    ChildReferences(items, kids, at);
  }

  lemma ChildReferences(items: seq<Item>, kids: seq<Item>, at: seq<nat>)
    requires Distinct(References(items)) && FailedAt(items, at) && |kids| == |at|
    requires forall i :: 0 <= i < |at| ==> kids[i].reference == items[at[i]].reference
    ensures forall k :: 0 <= k < |items| ==> (items[k].reference in References(kids) <==> items[k].status == ItemFailed)
  {
    forall k: nat | k < |items| ensures items[k].reference in References(kids) <==> items[k].status == ItemFailed {
      if items[k].status == ItemFailed {
        assert Lists(at, k);
        var i :| 0 <= i < |at| && at[i] == k;
        assert References(kids)[i] == items[k].reference;
      }
      if items[k].reference in References(kids) {
        var i :| 0 <= i < |kids| && References(kids)[i] == items[k].reference;
        assert References(items)[at[i]] == References(items)[k];
      }
    }
  }

  ghost predicate NoneFailed(items: seq<Item>) {
    forall k :: 0 <= k < |items| ==> items[k].status != ItemFailed
  }

  /** Retrying fails exactly when nothing failed or the size is wrong; otherwise it adds one job and changes no row. */
  lemma RetryAddsOneChild(rows: seq<JobRow>, id: nat, user: nat, batchSize: int)
    requires id < |rows|
    ensures var out := Retry(rows, id, user, batchSize);
      && (out.result.Err? <==> NoneFailed(AllItems(rows[id].batches)) || batchSize <= 0)
      && (out.result == Err(NothingToRetry) <==> NoneFailed(AllItems(rows[id].batches)))
      && (out.result.Err? ==> out.rows == rows)
      && (out.result.Ok? ==>
            && out.created && out.result.value == |rows|
            && out.rows == rows + [RowFor(ChildRequest(rows[id], id, user, batchSize))])
  {
    assert rows + [] == rows;
    NothingFailed(AllItems(rows[id].batches));
  }

  lemma NothingFailed(items: seq<Item>)
    ensures Filter(IsFailed, items) == [] <==> NoneFailed(items)
  {
    var at := FilterIsFailed(items);
    if at != [] { assert items[at[0]].status == ItemFailed; }
    if k :| 0 <= k < |items| && items[k].status == ItemFailed { assert Lists(at, k); }
  }

  lemma {:induction false} AllItemsIndex(batches: seq<Batch>, k: nat) returns (b: nat, i: nat)
    requires k < |AllItems(batches)|
    ensures b < |batches| && i < |batches[b].items| && AllItems(batches)[k] == batches[b].items[i]
    ensures k == ItemCount(batches[..b]) + i
  {
    var n := |batches| - 1;
    AllItemsLength(batches[..n]);
    if k < |AllItems(batches[..n])| {
      b, i := AllItemsIndex(batches[..n], k);
      assert batches[..n][..b] == batches[..b];
    } else {
      b, i := n, k - |AllItems(batches[..n])|;
    }
  }

  lemma {:induction false} AllItemsLength(batches: seq<Batch>)
    ensures |AllItems(batches)| == ItemCount(batches)
  {
    if batches != [] {
      AllItemsLength(batches[..|batches| - 1]);
    }
  }

  lemma {:induction false} AllItemsAt(batches: seq<Batch>, b: nat, i: nat)
    requires b < |batches| && i < |batches[b].items|
    ensures ItemCount(batches[..b]) + i < |AllItems(batches)|
    ensures AllItems(batches)[ItemCount(batches[..b]) + i] == batches[b].items[i]
  {
    var n := |batches| - 1;
    AllItemsLength(batches[..n]);
    if b < n {
      AllItemsAt(batches[..n], b, i);
      assert batches[..n][..b] == batches[..b];
    }
  }

  lemma {:induction false} SameSizes(a: seq<Batch>, b: seq<Batch>)
    requires |a| == |b| && forall k :: 0 <= k < |a| ==> |a[k].items| == |b[k].items|
    ensures ItemCount(a) == ItemCount(b)
  {
    if a != [] {
      SameSizes(a[..|a| - 1], b[..|b| - 1]);
    }
  }

  lemma RunKeepsSizes(s: State, run: seq<Label>)
    requires Created(s) && Valid(s, run)
    ensures |Exec(s, run).batches| == |s.batches|
    ensures forall c :: 0 <= c < |s.batches| ==> |Exec(s, run).batches[c].items| == |s.batches[c].items|
  {
    CreatedInv(s);
    RunShape(s, run);
    forall c | 0 <= c < |s.batches| ensures |Exec(s, run).batches[c].items| == |s.batches[c].items| {
      assert NewBatch(s.batches[c]);
      RunItem(s, run, c, 0);
    }
  }

  /** On every run the list of references stays the same and an item that did not succeed keeps its payload. */
  lemma RunKeepsPairs(s: State, run: seq<Label>, k: nat)
    requires Created(s) && Valid(s, run) && k < |AllItems(s.batches)|
    ensures |AllItems(Exec(s, run).batches)| == |AllItems(s.batches)|
    ensures var x := AllItems(s.batches)[k]; var y := AllItems(Exec(s, run).batches)[k];
      && y.reference == x.reference
      && (y.status != ItemSucceeded ==> y.payload == x.payload)
  {
    var r := Exec(s, run);
    CreatedInv(s);
    RunShape(s, run);
    var b, i := AllItemsIndex(s.batches, k);
    PayloadKept(s, run, b, i);
    RunKeepsSizes(s, run);
    SameSizes(s.batches, r.batches);
    SameSizes(s.batches[..b], r.batches[..b]);
    AllItemsLength(s.batches);
    AllItemsLength(r.batches);
    AllItemsAt(r.batches, b, i);
  }

  /** The items of a job after a run, against the request it was created from. */
  lemma ItemsAfterRun(q: Request, early: bool, run: seq<Label>)
    requires q.references != [] && q.batchSize > 0
    requires Valid(StateFor(RowFor(q), early), run)
    ensures var after := AllItems(Exec(StateFor(RowFor(q), early), run).batches);
      && References(after) == Dedupe(q.references)
      && (forall k :: 0 <= k < |after| && after[k].status != ItemSucceeded ==>
            after[k].payload == if after[k].reference in q.payloads then Some(q.payloads[after[k].reference]) else None)
  {
    var s := StateFor(RowFor(q), early);
    CreationPartitions(q);
    CreationStarts(q, early);
    var before := AllItems(s.batches);
    var after := AllItems(Exec(s, run).batches);
    assert |before| == |References(before)|;
    RunKeepsPairs(s, run, 0);
    forall k | 0 <= k < |after|
      ensures References(after)[k] == References(before)[k]
      ensures after[k].status != ItemSucceeded ==>
        after[k].payload == if after[k].reference in q.payloads then Some(q.payloads[after[k].reference]) else None
    {
      RunKeepsPairs(s, run, k);
      assert before[k] in before;
    }
  }

  /**
   Retry lineage over whole runs. After any run of a job made by `create_job`, a reference is in the child that a
   retry builds if and only if its item has failed, and each carries the payload that was given for it when the parent
   was created.
   */
  lemma RetryLineage(q: Request, early: bool, run: seq<Label>, id: nat, user: nat, batchSize: int)
    requires q.references != [] && q.batchSize > 0 && batchSize > 0
    requires Valid(StateFor(RowFor(q), early), run)
    requires var items := AllItems(Exec(StateFor(RowFor(q), early), run).batches);
      exists k :: 0 <= k < |items| && items[k].status == ItemFailed
    ensures var r := Exec(StateFor(RowFor(q), early), run);
            var parent := RowFor(q).(job := r.job, batches := r.batches);
            var kids := AllItems(RowFor(ChildRequest(parent, id, user, batchSize)).batches);
      && (forall k :: 0 <= k < |AllItems(r.batches)| ==>
            (AllItems(r.batches)[k].reference in References(kids) <==> AllItems(r.batches)[k].status == ItemFailed))
      && (forall i :: 0 <= i < |kids| ==>
            && kids[i].reference in q.references
            && kids[i].payload == if kids[i].reference in q.payloads then Some(q.payloads[kids[i].reference]) else None)
  {
    var r := Exec(StateFor(RowFor(q), early), run);
    ItemsAfterRun(q, early, run);
    var after := AllItems(r.batches);
    DedupeIsDistinct(q.references);
    var parent := RowFor(q).(job := r.job, batches := r.batches);
    var at := ChildHoldsFailed(parent, id, user, batchSize);
    var kids := AllItems(RowFor(ChildRequest(parent, id, user, batchSize)).batches);
    forall i | 0 <= i < |kids|
      ensures kids[i].reference in q.references
      ensures kids[i].payload == if kids[i].reference in q.payloads then Some(q.payloads[kids[i].reference]) else None
    {
      assert References(after)[at[i]] == kids[i].reference;
    }
  }
}
