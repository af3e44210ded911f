/** The promotion snapshot: membership of SKUs in a table that must stay inside the parent catalogue. */
module Promotions {
  import opened Prelude
  import Text

  /** Comparison key of a SKU (casefold). */
  type Fold = string -> string

  datatype PromoResult = PromoResult(received: nat, added: nat, removed: nat, same: int, missing: seq<string>)

  datatype PromoError = ConflictError

  function KeySet(fold: Fold, skus: seq<string>): set<string> {
    set f | f in Text.Folded(fold, skus)
  }

  /** The position whose entry a dictionary keeps for `key`: the last one. */
  function LastAt(keys: seq<string>, key: string): (i: nat)
    requires key in keys
    ensures i < |keys| && keys[i] == key && forall j :: i < j < |keys| ==> keys[j] != key
  {
    if keys[|keys| - 1] == key then |keys| - 1 else LastAt(keys[..|keys| - 1], key)
  }

  /** The values `values[i]` that the dictionary keeps for the keys `chosen`. */
  function Pick(values: seq<string>, keys: seq<string>, chosen: seq<string>): (r: seq<string>)
    requires |values| == |keys| && forall f :: f in chosen ==> f in keys
    ensures |r| == |chosen|
    ensures forall k :: 0 <= k < |chosen| ==> r[k] == values[LastAt(keys, chosen[k])]
  {
    seq(|chosen|, k requires 0 <= k < |chosen| => values[LastAt(keys, chosen[k])])
  }

  // ---------------------------------------------------------------- the plan

  function MissingKeys(asked: seq<string>, parents: set<string>): seq<string> {
    Filter(f => f !in parents, Dedupe(asked))
  }

  function AddedKeys(asked: seq<string>, stored: seq<string>, parents: set<string>): seq<string> {
    Filter(f => f !in stored && f in parents, Dedupe(asked))
  }

  function RemovedKeys(asked: seq<string>, stored: seq<string>): seq<string> {
    Filter(f => f !in asked, Dedupe(stored))
  }

  function Missing(fold: Fold, skus: seq<string>, parents: seq<string>): seq<string> {
    Pick(skus, Text.Folded(fold, skus), MissingKeys(Text.Folded(fold, skus), KeySet(fold, parents)))
  }

  function Added(fold: Fold, rows: seq<string>, skus: seq<string>, parents: seq<string>): seq<string> {
    Pick(skus, Text.Folded(fold, skus),
      AddedKeys(Text.Folded(fold, skus), Text.Folded(fold, rows), KeySet(fold, parents)))
  }

  /** The positions of the deleted rows, one a key that was not asked for. */
  function Removed(fold: Fold, rows: seq<string>, skus: seq<string>): (r: seq<nat>)
    ensures forall i :: i in r ==> i < |rows|
  {
    var keys, gone := Text.Folded(fold, rows), RemovedKeys(Text.Folded(fold, skus), Text.Folded(fold, rows));
    seq(|gone|, k requires 0 <= k < |gone| => LastAt(keys, gone[k]))
  }

  function Positions(s: seq<nat>): set<nat> {
    set i | i in s
  }

  function Without(rows: seq<string>, gone: set<nat>): seq<string> {
    if rows == [] then []
    else Without(rows[..|rows| - 1], gone) + if |rows| - 1 in gone then [] else [rows[|rows| - 1]]
  }

  /** The table after a snapshot without missing SKUs. */
  function Applied(fold: Fold, rows: seq<string>, skus: seq<string>, parents: seq<string>): seq<string> {
    Without(rows, Positions(Removed(fold, rows, skus))) + Added(fold, rows, skus, parents)
  }

  function Outcome(fold: Fold, rows: seq<string>, skus: seq<string>, parents: seq<string>): PromoResult {
    var missing, added := Missing(fold, skus, parents), Added(fold, rows, skus, parents);
    PromoResult(|skus|, |added|, |Removed(fold, rows, skus)|, |skus| - |added| - |missing|, missing)
  }

  // ---------------------------------------------------------------- the service

  class PromoSkuService {
    const fold: Fold
    var rows: seq<string>
    var parents: seq<string>

    constructor (fold: Fold, rows: seq<string>, parents: seq<string>)
      ensures this.fold == fold && this.rows == rows && this.parents == parents
    {
      this.fold := fold;
      this.rows := rows;
      this.parents := parents;
    }

    predicate Blocked(skus: seq<string>, dryRun: bool)
      reads this`parents
    {
      dryRun || Missing(fold, skus, parents) != []
    }

    /** `sync_snapshot`: an unknown SKU blocks the whole snapshot. */
    method SyncSnapshot(skus: seq<string>, dryRun: bool, commitOk: bool) returns (r: Result<PromoResult, PromoError>)
      modifies this`rows
      ensures Blocked(skus, dryRun) ==> r == Ok(Outcome(fold, old(rows), skus, parents)) && rows == old(rows)
      ensures !Blocked(skus, dryRun) && !commitOk ==> r == Err(ConflictError) && rows == old(rows)
      ensures !Blocked(skus, dryRun) && commitOk ==>
        r == Ok(Outcome(fold, old(rows), skus, parents)) && rows == Applied(fold, old(rows), skus, parents)
    {
      var missing := Missing(fold, skus, parents);
      var additions := Added(fold, rows, skus, parents);
      var removals := Removed(fold, rows, skus);
      var result := PromoResult(|skus|, |additions|, |removals|, |skus| - |additions| - |missing|, missing);
      assert result == Outcome(fold, rows, skus, parents);
      if |missing| > 0 || dryRun { return Ok(result); }

      var after := Write(additions, removals);
      if !commitOk { return Err(ConflictError); }
      rows := after;
      return Ok(result);
    }

    /** The rows after the planned additions and deletions. */
    method Write(additions: seq<string>, removals: seq<nat>) returns (after: seq<string>)
      ensures after == Without(rows, Positions(removals)) + additions
    {
      var pending: seq<string> := [];
      for i := 0 to |additions|
        invariant pending == additions[..i]
      {
        pending := pending + [additions[i]];
      }
      var deleted: set<nat> := {};
      for i := 0 to |removals|
        invariant deleted == Positions(removals[..i])
      {
        assert removals[..i + 1] == removals[..i] + [removals[i]];
        deleted := deleted + {removals[i]};
      }
      assert additions[..|additions|] == additions && removals[..|removals|] == removals;
      after := Without(rows, deleted) + pending;
    }
  }

  // ---------------------------------------------------------------- what the table becomes

  /** Row `i` is hidden by a later row with its key. */
  predicate Hidden(fold: Fold, rows: seq<string>, i: nat)
    requires i < |rows|
  {
    exists j :: i < j < |rows| && fold(rows[j]) == fold(rows[i])
  }

  lemma {:induction false} WithoutKeeps(rows: seq<string>, gone: set<nat>, sku: string)
    ensures sku in Without(rows, gone) <==> exists i :: 0 <= i < |rows| && i !in gone && rows[i] == sku
  {
    if rows != [] {
      var n := |rows| - 1;
      WithoutKeeps(rows[..n], gone, sku);
      assert rows == rows[..n] + [rows[n]];
    }
  }

  lemma RemovedExactly(fold: Fold, rows: seq<string>, skus: seq<string>, i: nat)
    requires i < |rows|
    ensures i in Removed(fold, rows, skus) <==> !Hidden(fold, rows, i) && fold(rows[i]) !in Text.Folded(fold, skus)
  {
    var keys, gone := Text.Folded(fold, rows), RemovedKeys(Text.Folded(fold, skus), Text.Folded(fold, rows));
    var key := keys[i];
    var last := LastAt(keys, key);
    assert Hidden(fold, rows, i) ==> i < last;
    assert i < last ==> keys[last] == key && Hidden(fold, rows, i);
    if key in gone && last == i {
      var k :| 0 <= k < |gone| && gone[k] == key;
      assert Removed(fold, rows, skus)[k] == i;
    }
    assert i in Removed(fold, rows, skus) ==> exists k :: 0 <= k < |gone| && LastAt(keys, gone[k]) == i;
  }

  /** A row stays exactly when its key is asked for or a later row hides it. */
  lemma StaysExactly(fold: Fold, rows: seq<string>, skus: seq<string>, sku: string)
    ensures sku in Without(rows, Positions(Removed(fold, rows, skus)))
      <==> exists i ::
        0 <= i < |rows| && rows[i] == sku && (Hidden(fold, rows, i) || fold(rows[i]) in Text.Folded(fold, skus))
  {
    var gone := Positions(Removed(fold, rows, skus));
    WithoutKeeps(rows, gone, sku);
    forall i | 0 <= i < |rows|
      ensures i in gone <==> !(Hidden(fold, rows, i) || fold(rows[i]) in Text.Folded(fold, skus))
    {
      RemovedExactly(fold, rows, skus, i);
    }
  }

  /** The added SKUs: asked for, in the parent catalogue, not stored yet; each key once. */
  lemma AddedExactly(fold: Fold, rows: seq<string>, skus: seq<string>, parents: seq<string>, key: string)
    ensures key in Text.Folded(fold, Added(fold, rows, skus, parents))
      <==> key in Text.Folded(fold, skus) && key !in Text.Folded(fold, rows) && key in KeySet(fold, parents)
    ensures forall sku :: sku in Added(fold, rows, skus, parents) ==> sku in skus
  {
    var added := Added(fold, rows, skus, parents);
    var keys := AddedKeys(Text.Folded(fold, skus), Text.Folded(fold, rows), KeySet(fold, parents));
    forall k | 0 <= k < |keys| ensures fold(added[k]) == keys[k] && added[k] in skus {
      assert Text.Folded(fold, skus)[LastAt(Text.Folded(fold, skus), keys[k])] == keys[k];
    }
    assert Text.Folded(fold, added) == keys;
  }

  lemma NothingMissing(fold: Fold, skus: seq<string>, parents: seq<string>)
    ensures Missing(fold, skus, parents) == [] <==> KeySet(fold, skus) <= KeySet(fold, parents)
  {
    var keys := MissingKeys(Text.Folded(fold, skus), KeySet(fold, parents));
    if keys != [] { assert keys[0] in keys; }
  }

  /**
   * When nothing is missing the table ends up with exactly the asked keys if and only if
   * every stored row that a later row hides has an asked key.
   */
  lemma SnapshotExactly(fold: Fold, rows: seq<string>, skus: seq<string>, parents: seq<string>)
    requires Missing(fold, skus, parents) == []
    ensures KeySet(fold, Applied(fold, rows, skus, parents)) == KeySet(fold, skus)
      <==> (forall i :: 0 <= i < |rows| && Hidden(fold, rows, i) ==> fold(rows[i]) in Text.Folded(fold, skus))
    ensures KeySet(fold, skus) <= KeySet(fold, Applied(fold, rows, skus, parents))
    ensures KeySet(fold, skus) <= KeySet(fold, parents)
  {
    NothingMissing(fold, skus, parents);
    var kept, added := Without(rows, Positions(Removed(fold, rows, skus))), Added(fold, rows, skus, parents);
    var after := Applied(fold, rows, skus, parents);
    assert Text.Folded(fold, after) == Text.Folded(fold, kept) + Text.Folded(fold, added);
    forall key
      ensures key in KeySet(fold, after) <==> KeyStays(fold, rows, skus, key) || key in Text.Folded(fold, skus)
    {
      KeyAfterwards(fold, rows, skus, parents, key);
    }
  }

  ghost predicate KeyStays(fold: Fold, rows: seq<string>, skus: seq<string>, key: string) {
    exists i :: 0 <= i < |rows| && fold(rows[i]) == key && (Hidden(fold, rows, i) || key in Text.Folded(fold, skus))
  }

  lemma KeyAfterwards(fold: Fold, rows: seq<string>, skus: seq<string>, parents: seq<string>, key: string)
    requires KeySet(fold, skus) <= KeySet(fold, parents)
    ensures key in KeySet(fold, Applied(fold, rows, skus, parents))
      <==> KeyStays(fold, rows, skus, key) || key in Text.Folded(fold, skus)
  {
    var kept, added := Without(rows, Positions(Removed(fold, rows, skus))), Added(fold, rows, skus, parents);
    assert Text.Folded(fold, kept + added) == Text.Folded(fold, kept) + Text.Folded(fold, added);
    assert key in Text.Folded(fold, skus) ==> key in KeySet(fold, skus);
    AddedExactly(fold, rows, skus, parents, key);
    KeptKeys(fold, rows, skus, key);
    if key in Text.Folded(fold, rows) && key in Text.Folded(fold, skus) { StoredStays(fold, rows, skus, key); }
  }

  lemma StoredStays(fold: Fold, rows: seq<string>, skus: seq<string>, key: string)
    requires key in Text.Folded(fold, rows) && key in Text.Folded(fold, skus)
    ensures KeyStays(fold, rows, skus, key)
  {
    var i :| 0 <= i < |rows| && Text.Folded(fold, rows)[i] == key;
    assert fold(rows[i]) == key;
  }

  lemma KeptKeys(fold: Fold, rows: seq<string>, skus: seq<string>, key: string)
    ensures key in Text.Folded(fold, Without(rows, Positions(Removed(fold, rows, skus))))
      <==> KeyStays(fold, rows, skus, key)
  {
    var kept := Without(rows, Positions(Removed(fold, rows, skus)));
    forall sku ensures sku in kept
      <==> exists i ::
        0 <= i < |rows| && rows[i] == sku && (Hidden(fold, rows, i) || fold(rows[i]) in Text.Folded(fold, skus))
    {
      StaysExactly(fold, rows, skus, sku);
    }
    if key in Text.Folded(fold, kept) {
      var k :| 0 <= k < |kept| && Text.Folded(fold, kept)[k] == key;
      assert kept[k] in kept;
    }
    if KeyStays(fold, rows, skus, key) {
      var i :| 0 <= i < |rows| && fold(rows[i]) == key && (Hidden(fold, rows, i) || key in Text.Folded(fold, skus));
      assert rows[i] in kept;
      var k :| 0 <= k < |kept| && kept[k] == rows[i];
      assert Text.Folded(fold, kept)[k] == key;
    }
  }

  // ---------------------------------------------------------------- the counters

  lemma {:induction false} FilterSplits<T(!new)>(p: T -> bool, q: T -> bool, r: T -> bool, s: seq<T>)
    requires forall x :: (p(x) && !q(x) && !r(x)) || (!p(x) && q(x) && !r(x)) || (!p(x) && !q(x) && r(x))
    ensures |Filter(p, s)| + |Filter(q, s)| + |Filter(r, s)| == |s|
  {
    if s != [] { FilterSplits(p, q, r, s[..|s| - 1]); }
  }

  lemma {:induction false} FilterDistinct<T(!new)>(p: T -> bool, s: seq<T>)
    requires Distinct(s)
    ensures Distinct(Filter(p, s))
  {
    if s != [] {
      FilterDistinct(p, s[..|s| - 1]);
    }
  }

  lemma {:induction false} DistinctSize<T(!new)>(s: seq<T>)
    requires Distinct(s)
    ensures |set x | x in s| == |s|
  {
    if s != [] {
      var n := |s| - 1;
      DistinctSize(s[..n]);
      assert (set x | x in s) == (set x | x in s[..n]) + {s[n]};
    }
  }

  lemma {:induction false} DedupeShrinks<T(!new)>(s: seq<T>)
    ensures |Dedupe(s)| == |s| <==> Distinct(s)
  {
    if s != [] {
      var n := |s| - 1;
      DedupeShrinks(s[..n]);
      if s[n] in s[..n] {
        var i :| 0 <= i < n && s[i] == s[n];
        assert !Distinct(s);
      } else if Distinct(s[..n]) {
        assert Distinct(s);
      }
    }
  }

  /**
   `unchanged` counts the asked keys that are stored and in the parent catalogue if and only if no key is asked twice.
   */
  lemma UnchangedExactly(fold: Fold, rows: seq<string>, skus: seq<string>, parents: seq<string>)
    ensures Outcome(fold, rows, skus, parents).same == |KeySet(fold, skus) * KeySet(fold, parents) * KeySet(fold, rows)|
      <==> Distinct(Text.Folded(fold, skus))
    ensures Outcome(fold, rows, skus, parents).same >= |KeySet(fold, skus) * KeySet(fold, parents) * KeySet(fold, rows)|
  {
    CountUnchanged(Text.Folded(fold, skus), Text.Folded(fold, rows), KeySet(fold, parents));
    DedupeShrinks(Text.Folded(fold, skus));
    assert KeySet(fold, skus) * KeySet(fold, parents) * KeySet(fold, rows)
      == set f | f in Text.Folded(fold, skus) && f in KeySet(fold, parents) && f in Text.Folded(fold, rows);
  }

  lemma CountUnchanged(asked: seq<string>, stored: seq<string>, known: set<string>)
    ensures |Dedupe(asked)| == |MissingKeys(asked, known)| + |AddedKeys(asked, stored, known)|
      + |set f | f in asked && f in known && f in stored|
  {
    var both := f => f in known && f in stored;
    FilterSplits(f => f !in known, f => f !in stored && f in known, both, Dedupe(asked));
    CountBoth(asked, stored, known, both);
  }

  lemma CountBoth(asked: seq<string>, stored: seq<string>, known: set<string>, both: string -> bool)
    requires forall f :: both(f) <==> f in known && f in stored
    ensures |Filter(both, Dedupe(asked))| == |set f | f in asked && f in known && f in stored|
  {
    DedupeIsDistinct(asked);
    FilterDistinct(both, Dedupe(asked));
    DistinctSize(Filter(both, Dedupe(asked)));
    assert (set f | f in Filter(both, Dedupe(asked))) == set f | f in asked && f in known && f in stored;
  }

  lemma {:induction false} WithoutLength(rows: seq<string>, gone: set<nat>)
    requires forall i :: i in gone ==> i < |rows|
    ensures |Without(rows, gone)| + |gone| == |rows|
  {
    if rows == [] {
      assert gone == {};
    } else {
      var n := |rows| - 1;
      WithoutLength(rows[..n], gone - {n});
      WithoutSame(rows[..n], gone, gone - {n});
      assert n in gone ==> |gone - {n}| == |gone| - 1;
      assert n !in gone ==> gone - {n} == gone;
    }
  }

  lemma {:induction false} WithoutSame(rows: seq<string>, a: set<nat>, b: set<nat>)
    requires forall i :: 0 <= i < |rows| ==> (i in a <==> i in b)
    ensures Without(rows, a) == Without(rows, b)
  {
    if rows != [] { WithoutSame(rows[..|rows| - 1], a, b); }
  }

  /** Rows are conserved: the table grows by `added` and shrinks by `removed`. */
  lemma RowsConserved(fold: Fold, rows: seq<string>, skus: seq<string>, parents: seq<string>)
    ensures var r := Outcome(fold, rows, skus, parents);
      |Applied(fold, rows, skus, parents)| == |rows| + r.added - r.removed
  {
    var removed := Removed(fold, rows, skus);
    var keys, gone := Text.Folded(fold, rows), RemovedKeys(Text.Folded(fold, skus), Text.Folded(fold, rows));
    DedupeIsDistinct(keys);
    FilterDistinct(f => f !in Text.Folded(fold, skus), Dedupe(keys));
    forall j, k | 0 <= j < k < |removed| ensures removed[j] != removed[k] {
      assert keys[removed[j]] == gone[j] && keys[removed[k]] == gone[k];
    }
    DistinctSize(removed);
    WithoutLength(rows, Positions(removed));
  }

  lemma EmptyOrNot(s: seq<string>)
    ensures s == [] || exists x :: x in s
  {
    if s != [] { assert s[0] in s; }
  }

  /**
   * Repeating a snapshot adds nothing, and removes nothing if and only if no hidden row was left behind;
   * a row left behind is no longer hidden by the row that was removed.
   */
  lemma SecondTime(fold: Fold, rows: seq<string>, skus: seq<string>, parents: seq<string>)
    requires Missing(fold, skus, parents) == []
    ensures var again := Outcome(fold, Applied(fold, rows, skus, parents), skus, parents);
      && again.added == 0 && again.missing == []
      && (again.removed == 0
        <==> (forall i :: 0 <= i < |rows| && Hidden(fold, rows, i) ==> fold(rows[i]) in Text.Folded(fold, skus)))
  {
    SnapshotExactly(fold, rows, skus, parents);
    var after := Applied(fold, rows, skus, parents);
    NothingToAdd(fold, after, skus, parents);
    NothingToRemove(Text.Folded(fold, skus), Text.Folded(fold, after));
    assert forall key :: key in Text.Folded(fold, after) <==> key in KeySet(fold, after);
    assert forall key :: key in Text.Folded(fold, skus) <==> key in KeySet(fold, skus);
  }

  lemma NothingToAdd(fold: Fold, after: seq<string>, skus: seq<string>, parents: seq<string>)
    requires KeySet(fold, skus) <= KeySet(fold, after)
    ensures AddedKeys(Text.Folded(fold, skus), Text.Folded(fold, after), KeySet(fold, parents)) == []
  {
    assert forall key :: key in Text.Folded(fold, skus) ==> key in KeySet(fold, skus);
    EmptyOrNot(AddedKeys(Text.Folded(fold, skus), Text.Folded(fold, after), KeySet(fold, parents)));
  }

  lemma NothingToRemove(asked: seq<string>, stored: seq<string>)
    ensures RemovedKeys(asked, stored) == [] <==> forall key :: key in stored ==> key in asked
  {
    var gone := RemovedKeys(asked, stored);
    EmptyOrNot(gone);
    forall key | key in stored && key !in asked ensures key in gone { assert key in Dedupe(stored); }
  }
}
