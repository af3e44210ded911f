/** Grouping of extracted payments by provider, and what it conserves. */
module Payments {
  import opened Prelude

  /** What is read from one document. Amounts are in cents; `date` is the text of the operation date. */
  datatype Payment = Payment(
    archivo: string, titular: Option<string>, ruc: Option<string>, currency: string, cents: int, date: Option<string>)

  datatype Provider = Provider(id: string, taxId: string, legalName: string, names: seq<string>, emails: seq<string>)

  /** The key strings `id:…`, `ruc:…` and `name:…`. */
  datatype GroupKey = ById(id: string) | ByRuc(document: string) | ByName(name: string)

  /** The text functions that are taken as given: comparison keys, file name part, date label. */
  datatype Texts = Texts(docKey: string -> string, nameKey: string -> string, part: string -> string,
      day: Option<string> -> string)

  datatype Item = Item(payment: Payment, suggested: string)

  datatype Status = MissingProvider | MissingPaymentEmail | Ready

  /** The provider data of a group, taken from its first payment. */
  datatype Head = Head(
    providerId: Option<string>,
    taxId: Option<string>,
    proveedor: string,
    titularPdf: Option<string>,
    emails: seq<string>)

  datatype Group = Group(head: Head, count: nat, archivos: seq<string>, totals: map<string, int>, pagos: seq<Item>)

  // ---------------------------------------------------------------- identification

  predicate Given(o: Option<string>) { o.Some? && o.value != "" }

  function TextOf(o: Option<string>): string { if o.Some? then o.value else "" }

  /** `_find_by_taxid`: the first provider with the document. */
  function FindByTaxId(t: Texts, providers: seq<Provider>, ruc: Option<string>): (r: Option<Provider>)
    ensures r.Some? ==> r.value in providers && t.docKey(r.value.taxId) == t.docKey(TextOf(ruc)) != ""
    ensures r.None? ==>
      t.docKey(TextOf(ruc)) == "" || forall p :: p in providers ==> t.docKey(p.taxId) != t.docKey(TextOf(ruc))
  {
    if t.docKey(TextOf(ruc)) == "" || providers == [] then None
    else if t.docKey(providers[0].taxId) == t.docKey(TextOf(ruc)) then Some(providers[0])
    else FindByTaxId(t, providers[1..], ruc)
  }

  predicate HasName(t: Texts, p: Provider, name: string) {
    exists i :: 0 <= i < |p.names| && t.nameKey(p.names[i]) == t.nameKey(name)
  }

  /** `_find_by_name`: the first provider that has the name among its names. */
  function FindByName(t: Texts, providers: seq<Provider>, titular: Option<string>): (r: Option<Provider>)
    ensures r.Some? ==> r.value in providers && HasName(t, r.value, TextOf(titular))
    ensures r.None? ==>
      t.nameKey(TextOf(titular)) == "" || forall p :: p in providers ==> !HasName(t, p, TextOf(titular))
  {
    if t.nameKey(TextOf(titular)) == "" || providers == [] then None
    else if HasName(t, providers[0], TextOf(titular)) then Some(providers[0])
    else FindByName(t, providers[1..], titular)
  }

  function FindProvider(t: Texts, providers: seq<Provider>, p: Payment): Option<Provider> {
    var byDocument := FindByTaxId(t, providers, p.ruc);
    if byDocument.Some? then byDocument else FindByName(t, providers, p.titular)
  }

  /** `_group_key`. */
  function KeyOf(t: Texts, providers: seq<Provider>, p: Payment): GroupKey {
    var provider := FindProvider(t, providers, p);
    if provider.Some? then ById(provider.value.id)
    else if Given(p.ruc) then ByRuc(t.docKey(p.ruc.value))
    else ByName(t.nameKey(TextOf(p.titular)))
  }

  function DisplayName(t: Texts, providers: seq<Provider>, p: Payment): string {
    var provider := FindProvider(t, providers, p);
    if provider.Some? then provider.value.legalName
    else if Given(p.titular) then p.titular.value
    else if Given(p.ruc) then p.ruc.value
    else "SIN IDENTIFICAR"
  }

  /** `build_pdf_filename`. */
  function SuggestedName(t: Texts, providers: seq<Provider>, p: Payment): (r: string)
    ensures '.' in r
  {
    var name := if Given(p.titular) then p.titular.value else DisplayName(t, providers, p);
    var r := t.part(if name == "" then "PROVEEDOR" else name) + "_" + t.day(p.date) + ".pdf";
    assert r[|r| - 4] == '.';
    r
  }

  function ItemOf(t: Texts, providers: seq<Provider>, p: Payment): Item {
    Item(p, SuggestedName(t, providers, p))
  }

  function HeadOf(t: Texts, providers: seq<Provider>, p: Payment): Head {
    var provider := FindProvider(t, providers, p);
    Head(
      if provider.Some? then Some(provider.value.id) else None,
      if provider.Some? then Some(provider.value.taxId) else p.ruc,
      DisplayName(t, providers, p),
      if Given(p.titular) then p.titular else p.ruc,
      if provider.Some? then provider.value.emails else [])
  }

  /** The status `_serialize_group` writes. */
  function StatusOf(g: Group): Status {
    if g.head.providerId.None? then MissingProvider else if g.head.emails == [] then MissingPaymentEmail else Ready
  }

  /** What `group` computes from one payment alone: its key, its provider data, its entry in the group. */
  datatype Rules = Rules(keyed: Payment -> GroupKey, head: Payment -> Head, item: Payment -> Item)

  function RulesOf(t: Texts, providers: seq<Provider>): Rules {
    Rules((p: Payment) => KeyOf(t, providers, p), (p: Payment) => HeadOf(t, providers, p),
      (p: Payment) => ItemOf(t, providers, p))
  }

  // ---------------------------------------------------------------- sums

  function Sum(w: Payment -> int, s: seq<Payment>): int {
    if s == [] then 0 else Sum(w, s[..|s| - 1]) + w(s[|s| - 1])
  }

  lemma SumSnoc(w: Payment -> int, s: seq<Payment>, p: Payment)
    ensures Sum(w, s + [p]) == Sum(w, s) + w(p)
  {
    assert (s + [p])[..|s|] == s;
  }

  /** The amount of a payment in the currency `c`. */
  function InCurrency(c: string): Payment -> int {
    (p: Payment) => if p.currency == c then p.cents else 0
  }

  /** Every payment counts one. */
  function Each(): Payment -> int {
    (p: Payment) => 1
  }

  /** The payment `x` counts one. */
  function Only(x: Payment): Payment -> int {
    (p: Payment) => if p == x then 1 else 0
  }

  // ---------------------------------------------------------------- the groups

  function Keys(keyed: Payment -> GroupKey, payments: seq<Payment>): (r: seq<GroupKey>)
    ensures |r| == |payments| && forall i :: 0 <= i < |payments| ==> r[i] == keyed(payments[i])
  {
    seq(|payments|, i requires 0 <= i < |payments| => keyed(payments[i]))
  }

  /** The payments with the key, in order. */
  function Members(keyed: Payment -> GroupKey, payments: seq<Payment>, key: GroupKey): seq<Payment> {
    if payments == [] then []
    else
      var n := |payments| - 1;
      Members(keyed, payments[..n], key) + if keyed(payments[n]) == key then [payments[n]] else []
  }

  lemma {:induction false} MembersExist(keyed: Payment -> GroupKey, payments: seq<Payment>, key: GroupKey)
    ensures Members(keyed, payments, key) == [] <==> key !in Keys(keyed, payments)
  {
    if payments != [] {
      var n := |payments| - 1;
      MembersExist(keyed, payments[..n], key);
      assert Keys(keyed, payments) == Keys(keyed, payments[..n]) + [keyed(payments[n])];
    }
  }

  lemma KeysHaveMembers(keyed: Payment -> GroupKey, payments: seq<Payment>)
    ensures forall k :: k in Dedupe(Keys(keyed, payments)) ==> Members(keyed, payments, k) != []
  {
    forall k | k in Dedupe(Keys(keyed, payments)) ensures Members(keyed, payments, k) != [] {
      MembersExist(keyed, payments, k);
    }
  }

  function Archivos(s: seq<Payment>): seq<string> {
    seq(|s|, i requires 0 <= i < |s| => s[i].archivo)
  }

  function Items(item: Payment -> Item, s: seq<Payment>): (r: seq<Item>)
    ensures |r| == |s| && forall i :: 0 <= i < |s| ==> r[i] == item(s[i])
  {
    seq(|s|, i requires 0 <= i < |s| => item(s[i]))
  }

  function Currencies(s: seq<Payment>): set<string> {
    set p | p in s :: p.currency
  }

  function Totals(s: seq<Payment>): map<string, int> {
    map c | c in Currencies(s) :: Sum(InCurrency(c), s)
  }

  /** A group described by its payments: the first one gives the provider data, all of them the rest. */
  function GroupOf(r: Rules, members: seq<Payment>): Group
    requires members != []
  {
    Group(r.head(members[0]), |members|, Archivos(members), Totals(members), Items(r.item, members))
  }

  function GroupsFor(r: Rules, keys: seq<GroupKey>, payments: seq<Payment>): (groups: seq<Group>)
    requires forall k :: k in keys ==> Members(r.keyed, payments, k) != []
    ensures |groups| == |keys|
    ensures forall i :: 0 <= i < |keys| ==> groups[i] == GroupOf(r, Members(r.keyed, payments, keys[i]))
  {
    seq(|keys|, i requires 0 <= i < |keys| => GroupOf(r, Members(r.keyed, payments, keys[i])))
  }

  /** One group a key, in the order in which the keys appear. */
  function GroupsOf(r: Rules, payments: seq<Payment>): seq<Group> {
    KeysHaveMembers(r.keyed, payments);
    GroupsFor(r, Dedupe(Keys(r.keyed, payments)), payments)
  }

  // ---------------------------------------------------------------- the loop

  function Added(r: Rules, g: Group, p: Payment): Group {
    Group(
      g.head,
      g.count + 1,
      g.archivos + [p.archivo],
      g.totals[p.currency := (if p.currency in g.totals then g.totals[p.currency] else 0) + p.cents],
      g.pagos + [r.item(p)])
  }

  function NewGroup(r: Rules, p: Payment): Group {
    Group(r.head(p), 0, [], map[], [])
  }

  lemma {:induction false} NoAmount(c: string, s: seq<Payment>)
    requires c !in Currencies(s)
    ensures Sum(InCurrency(c), s) == 0
  {
    if s != [] {
      var n := |s| - 1;
      assert s[n] in s && forall p :: p in s[..n] ==> p in s;
      NoAmount(c, s[..n]);
    }
  }

  lemma CurrenciesSnoc(s: seq<Payment>, p: Payment)
    ensures Currencies(s + [p]) == Currencies(s) + {p.currency}
  {
    assert forall x :: x in s + [p] <==> x in s || x == p;
  }

  lemma TotalsSnoc(s: seq<Payment>, p: Payment)
    ensures Totals(s + [p])
      == Totals(s)[p.currency := (if p.currency in Totals(s) then Totals(s)[p.currency] else 0) + p.cents]
  {
    CurrenciesSnoc(s, p);
    TotalsAt(s, p.currency);
    forall c | c in Currencies(s + [p])
      ensures Totals(s + [p])[c] == Sum(InCurrency(c), s) + (if p.currency == c then p.cents else 0)
    {
      SumSnoc(InCurrency(c), s, p);
    }
  }

  /** The total of a currency is the sum of its payments, also when there is none. */
  lemma TotalsAt(s: seq<Payment>, c: string)
    ensures (if c in Totals(s) then Totals(s)[c] else 0) == Sum(InCurrency(c), s)
  {
    if c !in Currencies(s) { NoAmount(c, s); }
  }

  lemma ListsSnoc(item: Payment -> Item, s: seq<Payment>, p: Payment)
    ensures Archivos(s + [p]) == Archivos(s) + [p.archivo]
    ensures Items(item, s + [p]) == Items(item, s) + [item(p)]
  {
  }

  lemma AddedToNone(r: Rules, p: Payment)
    ensures GroupOf(r, [p]) == Added(r, NewGroup(r, p), p)
  {
    TotalsSnoc([], p);
    ListsSnoc(r.item, [], p);
    assert [] + [p] == [p] && Totals([]) == map[];
    assert Archivos([]) == [] && Items(r.item, []) == [];
  }

  lemma AddedToSome(r: Rules, members: seq<Payment>, p: Payment)
    requires members != []
    ensures GroupOf(r, members + [p]) == Added(r, GroupOf(r, members), p)
  {
    TotalsSnoc(members, p);
    ListsSnoc(r.item, members, p);
    var all := members + [p];
    assert all[0] == members[0] && |all| == |members| + 1;
    assert GroupOf(r, all) == Group(r.head(members[0]), |all|, Archivos(all), Totals(all), Items(r.item, all));
  }

  lemma MembersSnoc(keyed: Payment -> GroupKey, payments: seq<Payment>, p: Payment, key: GroupKey)
    ensures Members(keyed, payments + [p], key) == Members(keyed, payments, key) + if keyed(p) == key then [p] else []
  {
    assert (payments + [p])[..|payments|] == payments;
  }

  /** The dictionary of `group` and the order of its keys. */
  ghost predicate Grouping(r: Rules, payments: seq<Payment>, groups: map<GroupKey, Group>, order: seq<GroupKey>) {
    && order == Dedupe(Keys(r.keyed, payments))
    && (forall k :: k in groups <==> k in order)
    && (forall k :: k in order ==> IsGroup(r, payments, groups[k], k))
  }

  ghost predicate IsGroup(r: Rules, payments: seq<Payment>, g: Group, k: GroupKey) {
    var members := Members(r.keyed, payments, k);
    members != [] && g == GroupOf(r, members)
  }

  /** The group of the key of one more payment. */
  lemma GroupStep(r: Rules, payments: seq<Payment>, g: Group, p: Payment)
    requires r.keyed(p) in Keys(r.keyed, payments) ==> IsGroup(r, payments, g, r.keyed(p))
    requires r.keyed(p) !in Keys(r.keyed, payments) ==> g == NewGroup(r, p)
    ensures IsGroup(r, payments + [p], Added(r, g, p), r.keyed(p))
  {
    var was := Members(r.keyed, payments, r.keyed(p));
    MembersExist(r.keyed, payments, r.keyed(p));
    MembersSnoc(r.keyed, payments, p, r.keyed(p));
    if was == [] {
      assert was + [p] == [p];
      AddedToNone(r, p);
    } else {
      AddedToSome(r, was, p);
    }
  }

  lemma OtherGroup(r: Rules, payments: seq<Payment>, g: Group, p: Payment, k: GroupKey)
    requires IsGroup(r, payments, g, k) && k != r.keyed(p)
    ensures IsGroup(r, payments + [p], g, k)
  {
    MembersSnoc(r.keyed, payments, p, k);
    assert Members(r.keyed, payments + [p], k) == Members(r.keyed, payments, k);
  }

  lemma GroupingStep(
    r: Rules, payments: seq<Payment>, groups: map<GroupKey, Group>, order: seq<GroupKey>, p: Payment, g: Group,
    after: map<GroupKey, Group>, next: seq<GroupKey>)
    requires Grouping(r, payments, groups, order)
    requires g == Added(r, if r.keyed(p) in groups then groups[r.keyed(p)] else NewGroup(r, p), p)
    requires after == groups[r.keyed(p) := g] && next == if r.keyed(p) in groups then order else order + [r.keyed(p)]
    ensures Grouping(r, payments + [p], after, next)
  {
    var key := r.keyed(p);
    KeysSnoc(r.keyed, payments, p);
    assert next == Dedupe(Keys(r.keyed, payments + [p]));
    assert IsGroup(r, payments + [p], g, key) by {
      GroupStep(r, payments, if key in groups then groups[key] else NewGroup(r, p), p);
    }
    forall k | k in next ensures IsGroup(r, payments + [p], after[k], k) {
      if k != key { OtherGroup(r, payments, groups[k], p, k); }
    }
  }

  lemma KeysSnoc(keyed: Payment -> GroupKey, payments: seq<Payment>, p: Payment)
    ensures Keys(keyed, payments + [p]) == Keys(keyed, payments) + [keyed(p)]
    ensures Dedupe(Keys(keyed, payments + [p]))
      == if keyed(p) in Dedupe(Keys(keyed, payments)) then Dedupe(Keys(keyed, payments))
         else Dedupe(Keys(keyed, payments)) + [keyed(p)]
  {
    assert Keys(keyed, payments + [p]) == Keys(keyed, payments) + [keyed(p)];
    DedupeSnoc(Keys(keyed, payments), keyed(p));
  }

  /** `groups.values()`. */
  lemma GroupingDone(r: Rules, payments: seq<Payment>, groups: map<GroupKey, Group>, order: seq<GroupKey>,
      values: seq<Group>)
    requires Grouping(r, payments, groups, order)
    requires |values| == |order| && forall i :: 0 <= i < |order| ==> values[i] == groups[order[i]]
    ensures values == GroupsOf(r, payments)
  {
    KeysHaveMembers(r.keyed, payments);
    forall i | 0 <= i < |order| ensures values[i] == GroupOf(r, Members(r.keyed, payments, order[i])) {
      assert IsGroup(r, payments, groups[order[i]], order[i]);
    }
  }

  /** `group`. */
  method GroupPayments(t: Texts, providers: seq<Provider>, payments: seq<Payment>) returns (result: seq<Group>)
    ensures result == GroupsOf(RulesOf(t, providers), payments)
  {
    result := GroupWith(RulesOf(t, providers), payments);
  }

  /** The update of the entry of a payment's key. */
  method AddPayment(r: Rules, entry: Group, p: Payment) returns (g: Group)
    ensures g == Added(r, entry, p)
  {
    g := entry;
    if p.currency !in g.totals { g := g.(totals := g.totals[p.currency := 0]); }
    g := g.(totals := g.totals[p.currency := g.totals[p.currency] + p.cents], count := g.count + 1);
    g := g.(archivos := g.archivos + [p.archivo], pagos := g.pagos + [r.item(p)]);
  }

  method TakePayment(r: Rules, ghost taken: seq<Payment>, before: map<GroupKey, Group>, keys: seq<GroupKey>, p: Payment)
    returns (groups: map<GroupKey, Group>, order: seq<GroupKey>)
    requires Grouping(r, taken, before, keys)
    ensures Grouping(r, taken + [p], groups, order)
  {
    var key := r.keyed(p);
    var g := AddPayment(r, if key in before then before[key] else Group(r.head(p), 0, [], map[], []), p);
    order := if key in before then keys else keys + [key];
    groups := before[key := g];
    GroupingStep(r, taken, before, keys, p, g, groups, order);
  }

  /** The loop of `group`: a new dictionary entry for a new key, then the payment is added to the entry. */
  method GroupWith(r: Rules, payments: seq<Payment>) returns (result: seq<Group>)
    ensures result == GroupsOf(r, payments)
  {
    var groups: map<GroupKey, Group>, order: seq<GroupKey> := map[], [];
    for i := 0 to |payments|
      invariant Grouping(r, payments[..i], groups, order)
    {
      groups, order := TakePayment(r, payments[..i], groups, order, payments[i]);
      assert payments[..i + 1] == payments[..i] + [payments[i]];
    }
    assert payments[..|payments|] == payments;
    result := seq(|order|, i requires 0 <= i < |order| => groups[order[i]]);
    GroupingDone(r, payments, groups, order, result);
  }

  // ---------------------------------------------------------------- conservation

  function SumOver(keyed: Payment -> GroupKey, w: Payment -> int, keys: seq<GroupKey>, payments: seq<Payment>): int {
    if keys == [] then 0
    else SumOver(keyed, w, keys[..|keys| - 1], payments) + Sum(w, Members(keyed, payments, keys[|keys| - 1]))
  }

  lemma InFront(keys: seq<GroupKey>, k: GroupKey)
    requires keys != [] && Distinct(keys)
    ensures Distinct(keys[..|keys| - 1])
    ensures k in keys <==> k in keys[..|keys| - 1] || k == keys[|keys| - 1]
    ensures !(k in keys[..|keys| - 1] && k == keys[|keys| - 1])
  {
    assert keys == keys[..|keys| - 1] + [keys[|keys| - 1]];
  }

  lemma MemberSumSnoc(keyed: Payment -> GroupKey, w: Payment -> int, payments: seq<Payment>, p: Payment, key: GroupKey)
    ensures Sum(w, Members(keyed, payments + [p], key))
      == Sum(w, Members(keyed, payments, key)) + if keyed(p) == key then w(p) else 0
  {
    MembersSnoc(keyed, payments, p, key);
    if keyed(p) == key {
      SumSnoc(w, Members(keyed, payments, key), p);
    } else {
      assert Members(keyed, payments + [p], key) == Members(keyed, payments, key);
    }
  }

  /** One more payment adds its weight to the group of its key. */
  lemma {:induction false} SumOverSnoc(keyed: Payment -> GroupKey, w: Payment -> int, keys: seq<GroupKey>,
      payments: seq<Payment>, p: Payment)
    requires Distinct(keys)
    ensures SumOver(keyed, w, keys, payments + [p])
      == SumOver(keyed, w, keys, payments) + if keyed(p) in keys then w(p) else 0
  {
    if keys != [] {
      var n := |keys| - 1;
      var front, key := keys[..n], keys[n];
      SumOverSnoc(keyed, w, front, payments, p);
      MemberSumSnoc(keyed, w, payments, p, key);
      InFront(keys, keyed(p));
    }
  }

  /** Whatever is added up over payments adds up to the same over the groups. */
  lemma {:induction false} GroupsConserve(keyed: Payment -> GroupKey, w: Payment -> int, payments: seq<Payment>)
    ensures SumOver(keyed, w, Dedupe(Keys(keyed, payments)), payments) == Sum(w, payments)
  {
    if payments != [] {
      var n := |payments| - 1;
      var rest, p := payments[..n], payments[n];
      assert payments == rest + [p];
      GroupsConserve(keyed, w, rest);
      ConserveStep(keyed, w, rest, p);
    }
  }

  lemma ConserveStep(keyed: Payment -> GroupKey, w: Payment -> int, rest: seq<Payment>, p: Payment)
    ensures SumOver(keyed, w, Dedupe(Keys(keyed, rest + [p])), rest + [p])
      == SumOver(keyed, w, Dedupe(Keys(keyed, rest)), rest) + w(p)
  {
    var key, keys := keyed(p), Dedupe(Keys(keyed, rest));
    KeysSnoc(keyed, rest, p);
    DedupeIsDistinct(Keys(keyed, rest));
    SumOverSnoc(keyed, w, keys, rest, p);
    if key !in keys {
      NewKeyAlone(keyed, w, rest, p);
      SumOverAppend(keyed, w, keys, key, rest + [p]);
    }
  }

  lemma SumOverAppend(keyed: Payment -> GroupKey, w: Payment -> int, keys: seq<GroupKey>, key: GroupKey,
      payments: seq<Payment>)
    ensures SumOver(keyed, w, keys + [key], payments)
      == SumOver(keyed, w, keys, payments) + Sum(w, Members(keyed, payments, key))
  {
    assert (keys + [key])[..|keys|] == keys;
  }

  /** The group of a new key holds the payment that brought it. */
  lemma NewKeyAlone(keyed: Payment -> GroupKey, w: Payment -> int, rest: seq<Payment>, p: Payment)
    requires keyed(p) !in Keys(keyed, rest)
    ensures Sum(w, Members(keyed, rest + [p], keyed(p))) == w(p)
  {
    MembersExist(keyed, rest, keyed(p));
    MembersSnoc(keyed, rest, p, keyed(p));
    SumSnoc(w, [], p);
  }

  function TotalCount(groups: seq<Group>): nat {
    if groups == [] then 0 else TotalCount(groups[..|groups| - 1]) + groups[|groups| - 1].count
  }

  function TotalIn(groups: seq<Group>, c: string): int {
    if groups == [] then 0
    else
      var last := groups[|groups| - 1];
      TotalIn(groups[..|groups| - 1], c) + if c in last.totals then last.totals[c] else 0
  }

  function TimesIn(groups: seq<Group>, p: Payment): int {
    if groups == [] then 0
    else TimesIn(groups[..|groups| - 1], p) + Sum(Only(p), Unwrapped(groups[|groups| - 1].pagos))
  }

  function Unwrapped(items: seq<Item>): (r: seq<Payment>)
    ensures |r| == |items|
  {
    seq(|items|, i requires 0 <= i < |items| => items[i].payment)
  }

  lemma {:induction false} SumEach(s: seq<Payment>)
    ensures Sum(Each(), s) == |s|
  {
    if s != [] { SumEach(s[..|s| - 1]); }
  }

  /** The entry of a payment in its group holds the payment. */
  ghost predicate Transparent(r: Rules) {
    forall p :: r.item(p).payment == p
  }

  /** What a group contributes to the three totals. */
  lemma GroupTotals(r: Rules, members: seq<Payment>, c: string, x: Payment)
    requires members != [] && Transparent(r)
    ensures var g := GroupOf(r, members);
      && g.count == Sum(Each(), members)
      && (if c in g.totals then g.totals[c] else 0) == Sum(InCurrency(c), members)
      && Sum(Only(x), Unwrapped(g.pagos)) == Sum(Only(x), members)
  {
    var g := GroupOf(r, members);
    SumEach(members);
    if c !in Currencies(members) { NoAmount(c, members); }
    assert forall i :: 0 <= i < |members| ==> g.pagos[i].payment == members[i];
    assert Unwrapped(g.pagos) == members;
  }

  lemma {:induction false} TotalsAreSums(r: Rules, keys: seq<GroupKey>, payments: seq<Payment>, c: string, x: Payment)
    requires Transparent(r) && forall k :: k in keys ==> Members(r.keyed, payments, k) != []
    ensures var groups := GroupsFor(r, keys, payments);
      && TotalCount(groups) == SumOver(r.keyed, Each(), keys, payments)
      && TotalIn(groups, c) == SumOver(r.keyed, InCurrency(c), keys, payments)
      && TimesIn(groups, x) == SumOver(r.keyed, Only(x), keys, payments)
  {
    if keys != [] {
      var n := |keys| - 1;
      FrontGroups(r, keys, payments);
      TotalsAreSums(r, keys[..n], payments, c, x);
      GroupTotals(r, Members(r.keyed, payments, keys[n]), c, x);
    }
  }

  lemma FrontGroups(r: Rules, keys: seq<GroupKey>, payments: seq<Payment>)
    requires keys != [] && forall k :: k in keys ==> Members(r.keyed, payments, k) != []
    ensures (forall k :: k in keys[..|keys| - 1] ==> Members(r.keyed, payments, k) != []) && keys[|keys| - 1] in keys
    ensures GroupsFor(r, keys, payments)[..|keys| - 1] == GroupsFor(r, keys[..|keys| - 1], payments)
  {
    assert forall k :: k in keys[..|keys| - 1] ==> k in keys;
  }

  /**
   * Money and documents are conserved: the groups count every payment once, hold every payment as often as it was
   * read, and their totals add up to the amount read in each currency.
   */
  lemma PaymentsConserved(r: Rules, payments: seq<Payment>, c: string, x: Payment)
    requires Transparent(r)
    ensures var groups := GroupsOf(r, payments);
      && TotalCount(groups) == |payments|
      && TotalIn(groups, c) == Sum(InCurrency(c), payments)
      && TimesIn(groups, x) == Sum(Only(x), payments)
  {
    KeysHaveMembers(r.keyed, payments);
    TotalsAreSums(r, Dedupe(Keys(r.keyed, payments)), payments, c, x);
    GroupsConserve(r.keyed, Each(), payments);
    GroupsConserve(r.keyed, InCurrency(c), payments);
    GroupsConserve(r.keyed, Only(x), payments);
    SumEach(payments);
  }

  /** A payment is in the group of a key exactly when it was read and has the key. */
  lemma {:induction false} GroupedByKey(keyed: Payment -> GroupKey, payments: seq<Payment>, key: GroupKey, p: Payment)
    ensures p in Members(keyed, payments, key) <==> p in payments && keyed(p) == key
  {
    if payments != [] {
      var n := |payments| - 1;
      assert payments == payments[..n] + [payments[n]];
      GroupedByKey(keyed, payments[..n], key, p);
    }
  }

  /** A group is ready exactly when a provider with a payment address was found for its first payment. */
  lemma ReadyExactly(t: Texts, providers: seq<Provider>, members: seq<Payment>)
    requires members != []
    ensures var provider := FindProvider(t, providers, members[0]);
      var status := StatusOf(GroupOf(RulesOf(t, providers), members));
      && (status == Ready <==> provider.Some? && provider.value in providers && provider.value.emails != [])
      && (status == MissingProvider <==> provider.None?)
  {
  }

  // ---------------------------------------------------------------- who a payment is identified with

  /** Provider `q` has the document of the payment, which is not blank. */
  predicate DocumentOf(t: Texts, q: Provider, p: Payment) {
    t.docKey(TextOf(p.ruc)) != "" && t.docKey(q.taxId) == t.docKey(TextOf(p.ruc))
  }

  /** One of the names of provider `q` is the holder of the payment, which is not blank. */
  predicate NameOf(t: Texts, q: Provider, p: Payment) {
    && t.nameKey(TextOf(p.titular)) != ""
    && exists i :: 0 <= i < |q.names| && t.nameKey(q.names[i]) == t.nameKey(TextOf(p.titular))
  }

  ghost predicate NoDocument(t: Texts, providers: seq<Provider>, p: Payment, n: nat)
    requires n <= |providers|
  {
    forall j :: 0 <= j < n ==> !DocumentOf(t, providers[j], p)
  }

  ghost predicate NoName(t: Texts, providers: seq<Provider>, p: Payment, n: nat)
    requires n <= |providers|
  {
    forall j :: 0 <= j < n ==> !NameOf(t, providers[j], p)
  }

  /** Provider `k` is the first with the document, or, if nobody has the document, the first with the name. */
  ghost predicate Found(t: Texts, providers: seq<Provider>, p: Payment, k: nat) {
    && k < |providers|
    && (|| (DocumentOf(t, providers[k], p) && NoDocument(t, providers, p, k))
        || (NoDocument(t, providers, p, |providers|) && NameOf(t, providers[k], p) && NoName(t, providers, p, k)))
  }

  ghost predicate Unknown(t: Texts, providers: seq<Provider>, p: Payment) {
    NoDocument(t, providers, p, |providers|) && NoName(t, providers, p, |providers|)
  }

  lemma {:induction false} FirstWithDocument(t: Texts, providers: seq<Provider>, p: Payment) returns (k: nat)
    ensures k <= |providers| && NoDocument(t, providers, p, k)
    ensures k < |providers| ==> DocumentOf(t, providers[k], p) && FindByTaxId(t, providers, p.ruc) == Some(providers[k])
    ensures k == |providers| ==> FindByTaxId(t, providers, p.ruc) == None
  {
    if t.docKey(TextOf(p.ruc)) == "" {
      k := |providers|;
    } else if providers == [] || DocumentOf(t, providers[0], p) {
      k := 0;
    } else {
      var rest := FirstWithDocument(t, providers[1..], p);
      k := rest + 1;
      forall j | 0 <= j < k ensures !DocumentOf(t, providers[j], p) {
        if j > 0 { assert providers[1..][j - 1] == providers[j]; }
      }
    }
  }

  lemma {:induction false} FirstWithName(t: Texts, providers: seq<Provider>, p: Payment) returns (k: nat)
    ensures k <= |providers| && NoName(t, providers, p, k)
    ensures k < |providers| ==> NameOf(t, providers[k], p) && FindByName(t, providers, p.titular) == Some(providers[k])
    ensures k == |providers| ==> FindByName(t, providers, p.titular) == None
  {
    if t.nameKey(TextOf(p.titular)) == "" {
      k := |providers|;
    } else if providers == [] || NameOf(t, providers[0], p) {
      k := 0;
    } else {
      var rest := FirstWithName(t, providers[1..], p);
      k := rest + 1;
      forall j | 0 <= j < k ensures !NameOf(t, providers[j], p) {
        if j > 0 { assert providers[1..][j - 1] == providers[j]; }
      }
    }
  }

  /** The document comes before the name, and in both the first provider counts. */
  lemma FindProviderExactly(t: Texts, providers: seq<Provider>, p: Payment) returns (k: nat)
    ensures k <= |providers|
    ensures k < |providers| ==> Found(t, providers, p, k) && FindProvider(t, providers, p) == Some(providers[k])
    ensures k == |providers| ==> Unknown(t, providers, p) && FindProvider(t, providers, p) == None
  {
    k := FirstWithDocument(t, providers, p);
    if k == |providers| { k := FirstWithName(t, providers, p); }
  }

  lemma FoundOnce(t: Texts, providers: seq<Provider>, p: Payment, j: nat, k: nat)
    requires Found(t, providers, p, j) && Found(t, providers, p, k)
    ensures j == k
  {
  }

  /** The provider data that a payment brings into a new group. */
  ghost predicate Describes(t: Texts, providers: seq<Provider>, p: Payment, h: Head) {
    && (forall k: nat :: Found(t, providers, p, k) ==>
          && h.providerId == Some(providers[k].id) && h.emails == providers[k].emails
          && h.taxId == Some(providers[k].taxId) && h.proveedor == providers[k].legalName)
    && (Unknown(t, providers, p) ==>
          && h.providerId == None && h.emails == [] && h.taxId == p.ruc
          && h.proveedor == if Given(p.titular) then p.titular.value
                            else if Given(p.ruc) then p.ruc.value else "SIN IDENTIFICAR")
    && h.titularPdf == if Given(p.titular) then p.titular else p.ruc
  }

  lemma HeadDescribes(t: Texts, providers: seq<Provider>, p: Payment)
    ensures Describes(t, providers, p, HeadOf(t, providers, p))
  {
    var k := FindProviderExactly(t, providers, p);
    forall j: nat | Found(t, providers, p, j) ensures j == k {
      if k < |providers| { FoundOnce(t, providers, p, j, k); }
    }
  }

  /** The suggested file name shows the holder, else the provider found, else the document. */
  lemma SuggestedNameExactly(t: Texts, providers: seq<Provider>, p: Payment)
    ensures Given(p.titular) ==>
      SuggestedName(t, providers, p) == t.part(p.titular.value) + "_" + t.day(p.date) + ".pdf"
    ensures !Given(p.titular) ==> forall k: nat :: Found(t, providers, p, k) && providers[k].legalName != "" ==>
      SuggestedName(t, providers, p) == t.part(providers[k].legalName) + "_" + t.day(p.date) + ".pdf"
    ensures !Given(p.titular) && Unknown(t, providers, p) ==>
      SuggestedName(t, providers, p)
      == t.part(if Given(p.ruc) then p.ruc.value else "SIN IDENTIFICAR") + "_" + t.day(p.date) + ".pdf"
  {
    HeadDescribes(t, providers, p);
  }

  ghost predicate DistinctIds(providers: seq<Provider>) {
    forall j, k :: 0 <= j < k < |providers| ==> providers[j].id != providers[k].id
  }

  /** Two payments belong together: same provider, else same document, else same name. */
  ghost predicate Alike(t: Texts, providers: seq<Provider>, p: Payment, q: Payment) {
    || (exists k :: Found(t, providers, p, k) && Found(t, providers, q, k))
    || (&& Unknown(t, providers, p) && Unknown(t, providers, q)
        && if Given(p.ruc) then Given(q.ruc) && t.docKey(p.ruc.value) == t.docKey(q.ruc.value)
           else !Given(q.ruc) && t.nameKey(TextOf(p.titular)) == t.nameKey(TextOf(q.titular)))
  }

  lemma SameKeyExactly(t: Texts, providers: seq<Provider>, p: Payment, q: Payment)
    requires DistinctIds(providers)
    ensures KeyOf(t, providers, p) == KeyOf(t, providers, q) <==> Alike(t, providers, p, q)
  {
    var j := FindProviderExactly(t, providers, p);
    var k := FindProviderExactly(t, providers, q);
    if i :| Found(t, providers, p, i) && Found(t, providers, q, i) {
      if j < |providers| { FoundOnce(t, providers, p, i, j); }
      if k < |providers| { FoundOnce(t, providers, q, i, k); }
    }
  }

  /** Group `g` holds the payment. */
  predicate Holds(g: Group, p: Payment) {
    exists i :: 0 <= i < |g.pagos| && g.pagos[i].payment == p
  }

  lemma HoldsExactly(t: Texts, providers: seq<Provider>, payments: seq<Payment>, p: Payment, g: nat)
    requires g < |GroupsOf(RulesOf(t, providers), payments)|
    ensures var r := RulesOf(t, providers);
      && g < |Dedupe(Keys(r.keyed, payments))|
      && (Holds(GroupsOf(r, payments)[g], p)
          <==> p in payments && KeyOf(t, providers, p) == Dedupe(Keys(r.keyed, payments))[g])
  {
    var r := RulesOf(t, providers);
    KeysHaveMembers(r.keyed, payments);
    var key := Dedupe(Keys(r.keyed, payments))[g];
    var members := Members(r.keyed, payments, key);
    var pagos := GroupsOf(r, payments)[g].pagos;
    assert forall i :: 0 <= i < |members| ==> pagos[i].payment == members[i];
    GroupedByKey(r.keyed, payments, key, p);
  }

  /** The group of a payment. */
  lemma GroupOfPayment(t: Texts, providers: seq<Provider>, payments: seq<Payment>, p: Payment) returns (g: nat)
    requires p in payments
    ensures var r := RulesOf(t, providers);
      && g < |GroupsOf(r, payments)| == |Dedupe(Keys(r.keyed, payments))|
      && Holds(GroupsOf(r, payments)[g], p) && Dedupe(Keys(r.keyed, payments))[g] == KeyOf(t, providers, p)
  {
    var r := RulesOf(t, providers);
    KeysHaveMembers(r.keyed, payments);
    var i :| 0 <= i < |payments| && payments[i] == p;
    assert Keys(r.keyed, payments)[i] == KeyOf(t, providers, p);
    assert KeyOf(t, providers, p) in Dedupe(Keys(r.keyed, payments));
    g :| 0 <= g < |Dedupe(Keys(r.keyed, payments))| && Dedupe(Keys(r.keyed, payments))[g] == KeyOf(t, providers, p);
    HoldsExactly(t, providers, payments, p, g);
  }

  /** Two payments share a group exactly when they have the same provider, else document, else name. */
  lemma SameGroupExactly(t: Texts, providers: seq<Provider>, payments: seq<Payment>, p: Payment, q: Payment)
    requires DistinctIds(providers) && p in payments && q in payments
    ensures (exists g :: 0 <= g < |GroupsOf(RulesOf(t, providers), payments)|
                         && Holds(GroupsOf(RulesOf(t, providers), payments)[g], p)
                         && Holds(GroupsOf(RulesOf(t, providers), payments)[g], q))
      <==> Alike(t, providers, p, q)
  {
    var groups := GroupsOf(RulesOf(t, providers), payments);
    SameKeyExactly(t, providers, p, q);
    var i := GroupOfPayment(t, providers, payments, p);
    HoldsExactly(t, providers, payments, q, i);
    forall g: nat | g < |groups| && Holds(groups[g], p) && Holds(groups[g], q) ensures Alike(t, providers, p, q) {
      HoldsExactly(t, providers, payments, p, g);
      HoldsExactly(t, providers, payments, q, g);
    }
  }

  /** The first payment with a key, which gives the group its provider data. */
  lemma {:induction false} FirstMember(keyed: Payment -> GroupKey, payments: seq<Payment>, key: GroupKey)
      returns (i: nat)
    requires Members(keyed, payments, key) != []
    ensures i < |payments| && Members(keyed, payments, key)[0] == payments[i] && keyed(payments[i]) == key
    ensures forall j :: 0 <= j < i ==> keyed(payments[j]) != key
  {
    var n := |payments| - 1;
    if Members(keyed, payments[..n], key) == [] {
      MembersExist(keyed, payments[..n], key);
      i := n;
      forall j | 0 <= j < n ensures keyed(payments[j]) != key {
        assert Keys(keyed, payments[..n])[j] == keyed(payments[j]);
      }
    } else {
      i := FirstMember(keyed, payments[..n], key);
    }
  }

  /**
   Every payment is in a group, and the provider of the group is the one the payment is identified with: the first
   provider with its document, else the first with its name, else none.
   */
  lemma PaymentIdentified(t: Texts, providers: seq<Provider>, payments: seq<Payment>, p: Payment) returns (g: nat)
    requires DistinctIds(providers) && p in payments
    ensures var groups := GroupsOf(RulesOf(t, providers), payments);
      && g < |groups| && Holds(groups[g], p)
      && (forall k: nat :: Found(t, providers, p, k) ==>
            groups[g].head.providerId == Some(providers[k].id) && groups[g].head.emails == providers[k].emails)
      && (Unknown(t, providers, p) ==> groups[g].head.providerId == None && groups[g].head.emails == [])
  {
    g := GroupOfPayment(t, providers, payments, p);
    var q := HeadPayment(t, providers, payments, g);
    SameKeyExactly(t, providers, p, q);
    HeadDescribes(t, providers, q);
    SameProvider(t, providers, p, q, HeadOf(t, providers, q));
  }

  lemma HeadPayment(t: Texts, providers: seq<Provider>, payments: seq<Payment>, g: nat) returns (q: Payment)
    requires g < |GroupsOf(RulesOf(t, providers), payments)|
    ensures g < |Dedupe(Keys(RulesOf(t, providers).keyed, payments))|
    ensures KeyOf(t, providers, q) == Dedupe(Keys(RulesOf(t, providers).keyed, payments))[g]
    ensures GroupsOf(RulesOf(t, providers), payments)[g].head == HeadOf(t, providers, q)
  {
    var r := RulesOf(t, providers);
    KeysHaveMembers(r.keyed, payments);
    var i := FirstMember(r.keyed, payments, Dedupe(Keys(r.keyed, payments))[g]);
    q := payments[i];
  }

  lemma SameProvider(t: Texts, providers: seq<Provider>, p: Payment, q: Payment, h: Head)
    requires Alike(t, providers, p, q) && Describes(t, providers, q, h)
    ensures forall k: nat :: Found(t, providers, p, k) ==>
      h.providerId == Some(providers[k].id) && h.emails == providers[k].emails
    ensures Unknown(t, providers, p) ==> h.providerId == None && h.emails == []
  {
    if k: nat :| Found(t, providers, p, k) && Found(t, providers, q, k) {
      forall j: nat | Found(t, providers, p, j) ensures j == k { FoundOnce(t, providers, p, j, k); }
    }
  }

  /** The head of a group is that of its first payment in the order in which the documents were read. */
  lemma GroupHead(t: Texts, providers: seq<Provider>, payments: seq<Payment>, g: nat) returns (i: nat)
    requires g < |GroupsOf(RulesOf(t, providers), payments)|
    ensures var group := GroupsOf(RulesOf(t, providers), payments)[g];
      && i < |payments| && Holds(group, payments[i]) && Describes(t, providers, payments[i], group.head)
      && forall j :: 0 <= j < i ==> !Holds(group, payments[j])
  {
    var r := RulesOf(t, providers);
    KeysHaveMembers(r.keyed, payments);
    var key := Dedupe(Keys(r.keyed, payments))[g];
    i := FirstMember(r.keyed, payments, key);
    HoldsExactly(t, providers, payments, payments[i], g);
    HeadDescribes(t, providers, payments[i]);
    forall j | 0 <= j < i ensures !Holds(GroupsOf(r, payments)[g], payments[j]) {
      HoldsExactly(t, providers, payments, payments[j], g);
    }
  }
}
