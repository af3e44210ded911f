/** Batched loading: one query for many keys, regrouped, against one query for each key. */
module DataLoader {
  import opened Prelude

  datatype Value = Null | Num(n: int) | Txt(s: string)

  /** The values of the key columns of a row, and everything else it holds. */
  datatype Row = Row(key: seq<Value>, data: int)

  type Key = seq<Value>

  /** What the database compares: two values are equal for it when their images are (a collation may ignore case). */
  type Collation = Value -> Value

  // ---------------------------------------------------------------- the query

  ghost predicate Arity(keys: seq<Key>, n: nat) {
    forall k :: k in keys ==> |k| == n
  }

  ghost predicate Shaped(table: seq<Row>, n: nat) {
    forall r :: r in table ==> |r.key| == n
  }

  /** `_params_de_claves`: for each position of the key the values asked for, without repetition. */
  function ParamsOfKeys(keys: seq<Key>, n: nat): (params: seq<set<Value>>)
    requires Arity(keys, n)
    ensures |params| == n
    ensures forall p, v :: 0 <= p < n ==> (v in params[p] <==> exists k :: k in keys && k[p] == v)
  {
    seq(n, p requires 0 <= p < n => set k | k in keys :: k[p])
  }

  /** SQL `value IN (...)`: a null is equal to nothing. */
  predicate In(c: Collation, v: Value, values: set<Value>) {
    v != Null && exists w :: w in values && w != Null && c(w) == c(v)
  }

  predicate Matches(c: Collation, key: Key, params: seq<set<Value>>)
    requires |key| == |params|
  {
    forall p :: 0 <= p < |params| ==> In(c, key[p], params[p])
  }

  /** The rows with a value asked for in every column, in the order of the table. */
  function Query(c: Collation, table: seq<Row>, params: seq<set<Value>>): seq<Row>
    requires Shaped(table, |params|)
  {
    if table == [] then []
    else
      var n := |table| - 1;
      Query(c, table[..n], params) + if Matches(c, table[n].key, params) then [table[n]] else []
  }

  // ---------------------------------------------------------------- reference: one key

  /** The rows with exactly the key `k`, in order. */
  function RowsWith(rows: seq<Row>, k: Key): seq<Row> {
    if rows == [] then []
    else
      var n := |rows| - 1;
      RowsWith(rows[..n], k) + if rows[n].key == k then [rows[n]] else []
  }

  /** What a key means: the rows with that key, none when a part of the key is null. */
  function RowsOfKey(table: seq<Row>, k: Key): seq<Row> {
    if Null in k then [] else RowsWith(table, k)
  }

  function FirstOf(rows: seq<Row>): Option<Row> {
    if rows == [] then None else Some(rows[0])
  }

  function LastOf(rows: seq<Row>): Option<Row> {
    if rows == [] then None else Some(rows[|rows| - 1])
  }

  lemma RowsWithSnoc(rows: seq<Row>, row: Row, k: Key)
    ensures RowsWith(rows + [row], k) == RowsWith(rows, k) + if row.key == k then [row] else []
  {
    assert (rows + [row])[..|rows|] == rows;
  }

  /** Row `i` of the table has the key, and no part of the key is null. */
  ghost predicate HasKey(table: seq<Row>, k: Key, i: nat)
    requires i < |table|
  {
    table[i].key == k && forall p :: 0 <= p < |k| ==> k[p] != Null
  }

  /** The answer is the row that has the key and no earlier row with it; none when no row has the key. */
  ghost predicate IsFirst(table: seq<Row>, k: Key, answer: Option<Row>) {
    match answer
    case None => forall i :: 0 <= i < |table| ==> !HasKey(table, k, i)
    case Some(row) => exists i ::
      0 <= i < |table| && table[i] == row && HasKey(table, k, i) && forall j :: 0 <= j < i ==> !HasKey(table, k, j)
  }

  /** The same with no later row. */
  ghost predicate IsLast(table: seq<Row>, k: Key, answer: Option<Row>) {
    match answer
    case None => forall i :: 0 <= i < |table| ==> !HasKey(table, k, i)
    case Some(row) => exists i ::
      0 <= i < |table| && table[i] == row && HasKey(table, k, i)
      && forall j :: i < j < |table| ==> !HasKey(table, k, j)
  }

  /** The answer is the rows at `places`, which are exactly those with the key, in the order of the table. */
  ghost predicate AreAll(table: seq<Row>, k: Key, answer: seq<Row>, places: seq<nat>) {
    && |places| == |answer|
    && (forall i, j :: 0 <= i < j < |places| ==> places[i] < places[j])
    && (forall i: nat :: i in places <==> i < |table| && HasKey(table, k, i))
    && (forall j :: 0 <= j < |places| ==> places[j] < |table| && answer[j] == table[places[j]])
  }

  /** The answer is exactly the rows of the table with the key, in order. */
  ghost predicate IsExactly(table: seq<Row>, k: Key, answer: seq<Row>) {
    exists places :: AreAll(table, k, answer, places)
  }

  lemma AllSnoc(table: seq<Row>, k: Key, answer: seq<Row>, places: seq<nat>, row: Row)
    requires AreAll(table, k, answer, places)
    ensures row.key == k && Null !in k ==> AreAll(table + [row], k, answer + [row], places + [|table|])
    ensures !(row.key == k && Null !in k) ==> AreAll(table + [row], k, answer, places)
  {
    assert forall i: nat :: i < |table| ==> (table + [row])[i] == table[i];
    assert (table + [row])[|table|] == row;
    assert forall j :: 0 <= j < |places| ==> places[j] in places;
  }

  /** The rows of a key are exactly the rows of the table with it, in order. */
  lemma {:induction false} RowsOfKeyExactly(table: seq<Row>, k: Key) returns (places: seq<nat>)
    ensures AreAll(table, k, RowsOfKey(table, k), places)
  {
    if table == [] {
      places := [];
    } else {
      var front, row := table[..|table| - 1], table[|table| - 1];
      places := RowsOfKeyExactly(front, k);
      AllSnoc(front, k, RowsOfKey(front, k), places, row);
      RowsWithSnoc(front, row, k);
      assert table == front + [row];
      if row.key == k && Null !in k { places := places + [|front|]; }
    }
  }

  lemma FirstAndLast(table: seq<Row>, k: Key)
    ensures IsFirst(table, k, FirstOf(RowsOfKey(table, k))) && IsLast(table, k, LastOf(RowsOfKey(table, k)))
  {
    var rows := RowsOfKey(table, k);
    var places := RowsOfKeyExactly(table, k);
    if rows == [] {
      forall i | 0 <= i < |table| ensures !HasKey(table, k, i) { assert i !in places; }
    } else {
      var a, z := places[0], places[|places| - 1];
      assert a in places && z in places;
      assert HasKey(table, k, a) && HasKey(table, k, z);
      forall i: nat | i < |table| && HasKey(table, k, i) ensures a <= i <= z { assert i in places; }
    }
  }

  lemma {:induction false} QueryByKey(c: Collation, table: seq<Row>, params: seq<set<Value>>, k: Key)
    requires Shaped(table, |params|) && |k| == |params|
    ensures RowsWith(Query(c, table, params), k) == if Matches(c, k, params) then RowsWith(table, k) else []
  {
    if table != [] {
      var m := |table| - 1;
      var front := Query(c, table[..m], params);
      QueryByKey(c, table[..m], params, k);
      if Matches(c, table[m].key, params) {
        RowsWithSnoc(front, table[m], k);
      } else {
        assert Query(c, table, params) == front;
      }
    }
  }

  /** The column-wise query may return rows nobody asked for, but for an asked key exactly its rows. */
  lemma QueryKeepsKey(c: Collation, table: seq<Row>, keys: seq<Key>, n: nat, k: Key)
    requires Arity(keys, n) && Shaped(table, n) && k in keys
    ensures RowsWith(Query(c, table, ParamsOfKeys(keys, n)), k) == RowsOfKey(table, k)
  {
    QueryByKey(c, table, ParamsOfKeys(keys, n), k);
    AskedKeyMatches(c, keys, n, k);
  }

  lemma AskedKeyMatches(c: Collation, keys: seq<Key>, n: nat, k: Key)
    requires Arity(keys, n) && k in keys
    ensures Matches(c, k, ParamsOfKeys(keys, n)) <==> Null !in k
  {
    var params := ParamsOfKeys(keys, n);
    if Null in k {
      var p :| 0 <= p < n && k[p] == Null;
      assert !In(c, k[p], params[p]);
    } else {
      forall p | 0 <= p < n ensures In(c, k[p], params[p]) { assert k[p] in params[p]; }
    }
  }

  // ---------------------------------------------------------------- regrouping

  /** `_agrupar_lista`: the rows of each asked key; combinations nobody asked for are dropped. */
  method GroupAll(rows: seq<Row>, keys: seq<Key>) returns (groups: map<Key, seq<Row>>)
    ensures forall k :: k in groups <==> k in keys && RowsWith(rows, k) != []
    ensures forall k :: k in groups ==> groups[k] == RowsWith(rows, k)
  {
    var allowed := set k | k in keys;
    groups := map[];
    for i := 0 to |rows|
      invariant forall k :: k in groups <==> k in keys && RowsWith(rows[..i], k) != []
      invariant forall k :: k in groups ==> groups[k] == RowsWith(rows[..i], k)
    {
      var row := rows[i];
      assert rows[..i + 1] == rows[..i] + [row];
      forall k ensures RowsWith(rows[..i + 1], k) == RowsWith(rows[..i], k) + if row.key == k then [row] else [] {
        RowsWithSnoc(rows[..i], row, k);
      }
      if row.key in allowed {
        groups := groups[row.key := (if row.key in groups then groups[row.key] else []) + [row]];
      }
    }
    assert rows[..|rows|] == rows;
  }

  /** `_agrupar_unico`: the first row of each asked key. */
  method GroupFirst(rows: seq<Row>, keys: seq<Key>) returns (groups: map<Key, Row>)
    ensures forall k :: k in groups <==> k in keys && RowsWith(rows, k) != []
    ensures forall k :: k in groups ==> Some(groups[k]) == FirstOf(RowsWith(rows, k))
  {
    var allowed := set k | k in keys;
    groups := map[];
    for i := 0 to |rows|
      invariant forall k :: k in groups <==> k in keys && RowsWith(rows[..i], k) != []
      invariant forall k :: k in groups ==> Some(groups[k]) == FirstOf(RowsWith(rows[..i], k))
    {
      var row := rows[i];
      assert rows[..i + 1] == rows[..i] + [row];
      forall k ensures RowsWith(rows[..i + 1], k) == RowsWith(rows[..i], k) + if row.key == k then [row] else [] {
        RowsWithSnoc(rows[..i], row, k);
      }
      if row.key in allowed && row.key !in groups {
        groups := groups[row.key := row];
      }
    }
    assert rows[..|rows|] == rows;
  }

  /** The dictionary comprehension over a one-column key: a later row replaces an earlier one. */
  function ByCode(rows: seq<Row>): (groups: map<Key, Row>) {
    if rows == [] then map[] else ByCode(rows[..|rows| - 1])[rows[|rows| - 1].key := rows[|rows| - 1]]
  }

  lemma {:induction false} ByCodeIsLast(rows: seq<Row>, k: Key)
    ensures (if k in ByCode(rows) then Some(ByCode(rows)[k]) else None) == LastOf(RowsWith(rows, k))
  {
    if rows != [] {
      ByCodeIsLast(rows[..|rows| - 1], k);
    }
  }

  // ---------------------------------------------------------------- the loaders

  /** `cargar` of `loader_de_lista`: as many answers as keys, in their order, each the rows of its key alone. */
  method LoadLists(c: Collation, table: seq<Row>, keys: seq<Key>, n: nat) returns (answers: seq<seq<Row>>)
    requires Arity(keys, n) && Shaped(table, n)
    ensures |answers| == |keys|
    ensures forall i :: 0 <= i < |keys| ==> answers[i] == RowsOfKey(table, keys[i])
    ensures forall i :: 0 <= i < |keys| ==> IsExactly(table, keys[i], answers[i])
  {
    var rows := Query(c, table, ParamsOfKeys(keys, n));
    var groups := GroupAll(rows, keys);
    answers := seq(|keys|, i requires 0 <= i < |keys| => if keys[i] in groups then groups[keys[i]] else []);
    forall i | 0 <= i < |keys|
      ensures answers[i] == RowsOfKey(table, keys[i]) && IsExactly(table, keys[i], answers[i])
    {
      QueryKeepsKey(c, table, keys, n, keys[i]);
      var places := RowsOfKeyExactly(table, keys[i]);
    }
  }

  /** `cargar` of `loader_de_uno` over composite keys: the first row of each key. */
  method LoadFirsts(c: Collation, table: seq<Row>, keys: seq<Key>, n: nat) returns (answers: seq<Option<Row>>)
    requires Arity(keys, n) && Shaped(table, n)
    ensures |answers| == |keys|
    ensures forall i :: 0 <= i < |keys| ==> IsFirst(table, keys[i], answers[i])
  {
    var rows := Query(c, table, ParamsOfKeys(keys, n));
    var groups := GroupFirst(rows, keys);
    answers := seq(|keys|, i requires 0 <= i < |keys| => if keys[i] in groups then Some(groups[keys[i]]) else None);
    forall i | 0 <= i < |keys| ensures IsFirst(table, keys[i], answers[i]) {
      QueryKeepsKey(c, table, keys, n, keys[i]);
      FirstAndLast(table, keys[i]);
    }
  }

  /** `cargar` of `loader_de_uno` over a single column, where the method keeps the last row of a code. */
  method LoadByCode(c: Collation, table: seq<Row>, codes: seq<Key>) returns (answers: seq<Option<Row>>)
    requires Arity(codes, 1) && Shaped(table, 1)
    ensures |answers| == |codes|
    ensures forall i :: 0 <= i < |codes| ==> IsLast(table, codes[i], answers[i])
  {
    var groups := ByCode(Query(c, table, ParamsOfKeys(codes, 1)));
    answers := seq(|codes|, i requires 0 <= i < |codes| => if codes[i] in groups then Some(groups[codes[i]]) else None);
    forall i | 0 <= i < |codes| ensures IsLast(table, codes[i], answers[i]) {
      QueryKeepsKey(c, table, codes, 1, codes[i]);
      ByCodeIsLast(Query(c, table, ParamsOfKeys(codes, 1)), codes[i]);
      FirstAndLast(table, codes[i]);
    }
  }

  /** Without the regrouping the column-wise query would mix keys: it returns a row for a pair nobody asked for. */
  lemma QueryCrossesKeys(c: Collation)
    ensures var keys := [[Num(1), Num(1)], [Num(2), Num(2)]];
      var table := [Row([Num(1), Num(2)], 0)];
      && Arity(keys, 2) && Shaped(table, 2)
      && Query(c, table, ParamsOfKeys(keys, 2)) == table
      && table[0].key !in keys
  {
    var keys := [[Num(1), Num(1)], [Num(2), Num(2)]];
    var table := [Row([Num(1), Num(2)], 0)];
    var params := ParamsOfKeys(keys, 2);
    assert keys[0][0] in params[0] && keys[1][1] in params[1];
    assert Matches(c, table[0].key, params);
    assert table[..0] == [];
  }
}
