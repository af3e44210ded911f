/** One e-mail payload for each group of payments: references, attachment names, and the files that are attached. */
module PaymentEmails {
  import opened Prelude
  import opened Payments
  import Text

  // ---------------------------------------------------------------- numbered names

  /** The candidates both renaming loops try: `prefix`, a counter, `suffix`. */
  function Variant(prefix: string, n: nat, suffix: string): string {
    prefix + Text.Numeral(n) + suffix
  }

  lemma VariantInjective(prefix: string, m: nat, n: nat, suffix: string)
    ensures Variant(prefix, m, suffix) == Variant(prefix, n, suffix) ==> m == n
  {
    var a, b := Variant(prefix, m, suffix), Variant(prefix, n, suffix);
    if a == b {
      assert |a| == |prefix| + |Text.Numeral(m)| + |suffix| && |b| == |prefix| + |Text.Numeral(n)| + |suffix|;
      assert a[|prefix|..|a| - |suffix|] == Text.Numeral(m) && b[|prefix|..|b| - |suffix|] == Text.Numeral(n);
      Text.NumeralInjective(m, n);
    }
  }

  /** `n` is the first counter from 2 on whose candidate is not taken. */
  ghost predicate FirstFree(prefix: string, suffix: string, used: set<string>, n: nat) {
    n >= 2 && Variant(prefix, n, suffix) !in used && forall m :: 2 <= m < n ==> Variant(prefix, m, suffix) in used
  }

  /** The loop stops at the candidate `s` after `n` - 1 tries. */
  ghost predicate IsNext(prefix: string, suffix: string, used: set<string>, n: nat, s: string) {
    FirstFree(prefix, suffix, used, n) && s == Variant(prefix, n, suffix) && n - 1 <= |used| + 1
  }

  /** The renaming loop: it ends after at most |used| + 1 tries. */
  method NextFree(prefix: string, suffix: string, used: set<string>) returns (candidate: string, counter: nat)
    ensures IsNext(prefix, suffix, used, counter, candidate)
  {
    counter := 2;
    candidate := Variant(prefix, counter, suffix);
    ghost var tried: set<string> := {};
    while candidate in used
      invariant counter >= 2 && candidate == Variant(prefix, counter, suffix)
      invariant tried <= used && |tried| == counter - 2 <= |used|
      invariant forall m :: 2 <= m < counter ==> Variant(prefix, m, suffix) in used
      invariant forall x :: x in tried ==> exists m :: 2 <= m < counter && x == Variant(prefix, m, suffix)
      decreases |used| + 2 - counter
    {
      forall m | 2 <= m < counter ensures Variant(prefix, m, suffix) != candidate {
        VariantInjective(prefix, m, counter, suffix);
      }
      tried := tried + {candidate};
      SubsetSize(tried, used);
      counter := counter + 1;
      candidate := Variant(prefix, counter, suffix);
    }
  }

  // ---------------------------------------------------------------- file names

  /** The position of the last dot, at which `rsplit` cuts. */
  function LastDot(s: string): (i: nat)
    requires '.' in s
    ensures i < |s| && s[i] == '.' && '.' !in s[i + 1..]
  {
    if s[|s| - 1] == '.' then |s| - 1
    else
      assert s == s[..|s| - 1] + [s[|s| - 1]];
      LastDot(s[..|s| - 1])
  }

  function Stem(filename: string): string
    requires '.' in filename
  {
    filename[..LastDot(filename)]
  }

  /** The last dot and what follows it. */
  function Extension(filename: string): (r: string)
    requires '.' in filename
    ensures Stem(filename) + r == filename
  {
    filename[LastDot(filename)..]
  }

  /** `_deduplicate_filename`; a taken name without a dot cannot be split, which is the only failure. */
  method DeduplicateFilename(filename: string, used: set<string>) returns (r: Option<string>)
    ensures r.None? <==> filename in used && '.' !in filename
    ensures r.Some? ==> r.value !in used
    ensures filename !in used ==> r == Some(filename)
    ensures filename in used && r.Some?
      ==> exists n: nat :: IsNext(Stem(filename) + "_", Extension(filename), used, n, r.value)
    ensures r.Some? ==> ChosenName(filename, used, r.value)
  {
    if filename !in used { return Some(filename); }
    if '.' !in filename { return None; }
    var candidate, counter := NextFree(Stem(filename) + "_", Extension(filename), used);
    ChosenByNumber(filename, used, counter, candidate);
    return Some(candidate);
  }

  /** The numbered name `n`: the counter goes in front of the last dot. */
  ghost predicate NumberedName(want: string, n: nat, name: string) {
    exists stem, extension ::
      want == stem + "." + extension && '.' !in extension && name == stem + "_" + Text.Numeral(n) + "." + extension
  }

  lemma NumberedNameExactly(want: string, n: nat, name: string)
    requires '.' in want
    ensures NumberedName(want, n, name) <==> name == Variant(Stem(want) + "_", n, Extension(want))
  {
    var l := LastDot(want);
    var stem, extension := want[..l], want[l + 1..];
    assert want == stem + "." + extension && Extension(want) == "." + extension;
    assert Variant(Stem(want) + "_", n, Extension(want)) == stem + "_" + Text.Numeral(n) + "." + extension;
    forall a, b | want == a + "." + b && '.' !in b ensures a == stem && b == extension {
      SplitAtLastDot(want, a, b);
    }
  }

  lemma NoDotFrom(s: string, i: nat)
    requires i <= |s| && '.' !in s[i..]
    ensures forall k :: i <= k < |s| ==> s[k] != '.'
  {
    forall k | i <= k < |s| ensures s[k] != '.' { assert s[i..][k - i] == s[k]; }
  }

  lemma SplitAtLastDot(want: string, a: string, b: string)
    requires want == a + "." + b && '.' !in b
    ensures LastDot(want) == |a| && a == want[..|a|] && b == want[|a| + 1..]
  {
    assert want[|a|] == '.' && b == want[|a| + 1..];
    NoDotFrom(want, |a| + 1);
    NoDotFrom(want, LastDot(want) + 1);
  }

  /** `name` is the wanted name if that is free, else its first free numbered name. */
  ghost predicate ChosenName(want: string, used: set<string>, name: string) {
    if want !in used then name == want
    else exists n: nat ::
      && n >= 2 && NumberedName(want, n, name) && name !in used
      && forall m: nat, other :: 2 <= m < n && NumberedName(want, m, other) ==> other in used
  }

  lemma ChosenByNumber(want: string, used: set<string>, n: nat, name: string)
    requires '.' in want && want in used && IsNext(Stem(want) + "_", Extension(want), used, n, name)
    ensures ChosenName(want, used, name)
  {
    NumberedNameExactly(want, n, name);
    forall m: nat, other | 2 <= m < n && NumberedName(want, m, other) ensures other in used {
      NumberedNameExactly(want, m, other);
    }
  }

  /** The first `k` names. */
  function Taken(names: seq<string>, k: nat): set<string>
    requires k <= |names|
  {
    set j | 0 <= j < k :: names[j]
  }

  /** Each name is chosen among what the names before it leave free. */
  ghost predicate AllChosen(wanted: seq<string>, names: seq<string>) {
    |names| == |wanted| && forall k :: 0 <= k < |names| ==> ChosenName(wanted[k], Taken(names, k), names[k])
  }

  lemma ChosenSnoc(wanted: seq<string>, names: seq<string>, want: string, name: string)
    requires AllChosen(wanted, names) && ChosenName(want, Taken(names, |names|), name)
    ensures AllChosen(wanted + [want], names + [name])
  {
    forall k | 0 <= k <= |names|
      ensures ChosenName((wanted + [want])[k], Taken(names + [name], k), (names + [name])[k])
    {
      TakenSnoc(names, name, k);
    }
  }

  lemma TakenSnoc(names: seq<string>, name: string, k: nat)
    requires k <= |names|
    ensures Taken(names + [name], k) == Taken(names, k)
    ensures Taken(names + [name], |names| + 1) == Taken(names, |names|) + {name}
  {
    var all := names + [name];
    assert forall j :: 0 <= j < |names| ==> all[j] == names[j];
    assert all[|names|] == name;
    forall x ensures x in Taken(all, k) <==> x in Taken(names, k) {}
    forall x ensures x in Taken(all, |names| + 1) <==> x in Taken(names, |names|) + {name} {}
  }

  // ---------------------------------------------------------------- attachments

  datatype Attachment = Attachment(path: string, filename: string)

  /** The stored file of a payment, if there is one. */
  function PathOf(p: Payment, saved: map<string, string>): Option<string> {
    if p.archivo in saved && saved[p.archivo] != "" then Some(saved[p.archivo]) else None
  }

  /** The stored files of the payments, in order. */
  function FilePaths(items: seq<Item>, saved: map<string, string>): seq<string> {
    if items == [] then []
    else
      var path := PathOf(items[|items| - 1].payment, saved);
      FilePaths(items[..|items| - 1], saved) + if path.Some? then [path.value] else []
  }

  /** The suggested names of the payments with a stored file, in order. */
  function Suggested(items: seq<Item>, saved: map<string, string>): seq<string> {
    if items == [] then []
    else
      var item := items[|items| - 1];
      Suggested(items[..|items| - 1], saved) + if PathOf(item.payment, saved).Some? then [item.suggested] else []
  }

  ghost predicate HasFile(item: Item, saved: map<string, string>) {
    item.payment.archivo in saved && saved[item.payment.archivo] != ""
  }

  /** `places` lists the items with a stored file, in order. */
  ghost predicate Places(items: seq<Item>, saved: map<string, string>, places: seq<nat>) {
    && (forall j, k :: 0 <= j < k < |places| ==> places[j] < places[k])
    && (forall i: nat :: i in places <==> i < |items| && HasFile(items[i], saved))
  }

  /** Each path and each wanted name belongs to the item at its place. */
  ghost predicate FromPlaces(items: seq<Item>, saved: map<string, string>, places: seq<nat>, paths: seq<string>,
      wanted: seq<string>) {
    && |paths| == |wanted| == |places|
    && forall k :: 0 <= k < |places| ==> At(items, saved, places[k], paths[k], wanted[k])
  }

  ghost predicate At(items: seq<Item>, saved: map<string, string>, i: nat, path: string, want: string) {
    && i < |items|
    && HasFile(items[i], saved)
    && path == saved[items[i].payment.archivo]
    && want == items[i].suggested
  }

  lemma PlacesSnoc(items: seq<Item>, saved: map<string, string>, places: seq<nat>, item: Item)
    requires Places(items, saved, places)
    ensures HasFile(item, saved) ==> Places(items + [item], saved, places + [|items|])
    ensures !HasFile(item, saved) ==> Places(items + [item], saved, places)
  {
    assert forall k :: 0 <= k < |places| ==> places[k] in places;
    assert forall i: nat :: i < |items| ==> (items + [item])[i] == items[i];
    assert (items + [item])[|items|] == item;
  }

  lemma FromPlacesSnoc(items: seq<Item>, saved: map<string, string>, places: seq<nat>, paths: seq<string>,
      wanted: seq<string>, item: Item)
    requires FromPlaces(items, saved, places, paths, wanted)
    ensures FromPlaces(items + [item], saved, places, paths, wanted)
    ensures HasFile(item, saved) ==> FromPlaces(items + [item], saved, places + [|items|],
      paths + [saved[item.payment.archivo]], wanted + [item.suggested])
  {
    forall k | 0 <= k < |places| ensures At(items + [item], saved, places[k], paths[k], wanted[k]) {
      assert At(items, saved, places[k], paths[k], wanted[k]);
    }
    if HasFile(item, saved) {
      assert At(items + [item], saved, |items|, saved[item.payment.archivo], item.suggested);
    }
  }

  lemma FilesSnoc(items: seq<Item>, item: Item, saved: map<string, string>)
    ensures HasFile(item, saved) ==>
      && FilePaths(items + [item], saved) == FilePaths(items, saved) + [saved[item.payment.archivo]]
      && Suggested(items + [item], saved) == Suggested(items, saved) + [item.suggested]
    ensures !HasFile(item, saved) ==>
      && FilePaths(items + [item], saved) == FilePaths(items, saved)
      && Suggested(items + [item], saved) == Suggested(items, saved)
  {
    assert (items + [item])[..|items|] == items;
  }

  /** What is attached, with which suggestion: one entry for each item with a stored file, in order. */
  lemma {:induction false} AttachedExactly(items: seq<Item>, saved: map<string, string>) returns (places: seq<nat>)
    ensures Places(items, saved, places)
    ensures FromPlaces(items, saved, places, FilePaths(items, saved), Suggested(items, saved))
  {
    if items == [] {
      places := [];
    } else {
      var front, item := items[..|items| - 1], items[|items| - 1];
      places := AttachedExactly(front, saved);
      PlacesSnoc(front, saved, places, item);
      FromPlacesSnoc(front, saved, places, FilePaths(front, saved), Suggested(front, saved), item);
      FilesSnoc(front, item, saved);
      assert items == front + [item];
      if HasFile(item, saved) { places := places + [|front|]; }
    }
  }

  function AttachedPaths(attachments: seq<Attachment>): seq<string> {
    seq(|attachments|, i requires 0 <= i < |attachments| => attachments[i].path)
  }

  function FileNames(attachments: seq<Attachment>): (r: seq<string>)
    ensures |r| == |attachments| && forall i :: 0 <= i < |attachments| ==> r[i] == attachments[i].filename
  {
    seq(|attachments|, i requires 0 <= i < |attachments| => attachments[i].filename)
  }

  lemma PathsStep(items: seq<Item>, i: nat, saved: map<string, string>)
    requires i < |items|
    ensures var path := PathOf(items[i].payment, saved);
      FilePaths(items[..i + 1], saved)
      == if path.Some? then FilePaths(items[..i], saved) + [path.value] else FilePaths(items[..i], saved)
    ensures Suggested(items[..i + 1], saved)
      == if PathOf(items[i].payment, saved).Some? then Suggested(items[..i], saved) + [items[i].suggested]
         else Suggested(items[..i], saved)
  {
    assert items[..i + 1][..i] == items[..i];
  }

  lemma Attach(attachments: seq<Attachment>, a: Attachment)
    ensures AttachedPaths(attachments + [a]) == AttachedPaths(attachments) + [a.path]
    ensures FileNames(attachments + [a]) == FileNames(attachments) + [a.filename]
  {
  }

  /** `_build_email_job_attachments`: every stored file once, under its suggested name or the first free variant. */
  method BuildAttachments(items: seq<Item>, saved: map<string, string>) returns (attachments: seq<Attachment>)
    requires forall i :: 0 <= i < |items| ==> '.' in items[i].suggested
    ensures AttachedPaths(attachments) == FilePaths(items, saved)
    ensures Distinct(FileNames(attachments)) && AllChosen(Suggested(items, saved), FileNames(attachments))
  {
    attachments := [];
    var used: set<string> := {};
    for i := 0 to |items|
      invariant AttachedPaths(attachments) == FilePaths(items[..i], saved)
      invariant used == Taken(FileNames(attachments), |attachments|)
      invariant Distinct(FileNames(attachments)) && AllChosen(Suggested(items[..i], saved), FileNames(attachments))
    {
      PathsStep(items, i, saved);
      var path := PathOf(items[i].payment, saved);
      if path.None? { continue; }
      var filename := DeduplicateFilename(items[i].suggested, used);
      Attach(attachments, Attachment(path.value, filename.value));
      ChosenSnoc(Suggested(items[..i], saved), FileNames(attachments), items[i].suggested, filename.value);
      TakenSnoc(FileNames(attachments), filename.value, |attachments|);
      used := used + {filename.value};
      attachments := attachments + [Attachment(path.value, filename.value)];
    }
    assert items[..|items|] == items;
  }

  // ---------------------------------------------------------------- references

  const MaxReference: nat := 120
  const MaxBase: nat := 116

  function Cut(s: string, n: nat): string {
    if |s| <= n then s else s[..n]
  }

  /** `_build_email_job_reference`. */
  function BaseReference(h: Head): (r: string)
    ensures |r| <= MaxReference
  {
    var name :=
      if h.proveedor != "" then h.proveedor
      else if Given(h.titularPdf) then h.titularPdf.value
      else "Proveedor sin nombre";
    Cut("Enviar correo - " + name, MaxReference)
  }

  /** `r` is `full`, or its first 120 characters if it is longer. */
  ghost predicate FitsFrom(r: string, full: string) {
    r <= full && |r| == if |full| > 120 then 120 else |full|
  }

  /** The base reference names the provider, without one the account holder of the document, else nobody. */
  lemma BaseReferenceExactly(h: Head)
    ensures h.proveedor != "" ==> FitsFrom(BaseReference(h), "Enviar correo - " + h.proveedor)
    ensures h.proveedor == "" ==>
      match h.titularPdf
      case Some(holder) =>
        FitsFrom(BaseReference(h), "Enviar correo - " + if holder != "" then holder else "Proveedor sin nombre")
      case None => BaseReference(h) == "Enviar correo - Proveedor sin nombre"
  {
  }

  /** The numbered reference `n`: the counter follows the first 116 characters. */
  ghost predicate NumberedReference(base: string, n: nat, r: string) {
    if |base| <= 116 then r == base + " #" + Text.Numeral(n) else r == base[..116] + " #" + Text.Numeral(n)
  }

  /** `r` is the base reference if that is free, else its first free numbered one. */
  ghost predicate ChosenReference(base: string, taken: set<string>, r: string) {
    if base !in taken then r == base
    else exists n: nat ::
      && n >= 2 && NumberedReference(base, n, r) && r !in taken
      && forall m: nat, other :: 2 <= m < n && NumberedReference(base, m, other) ==> other in taken
  }

  lemma ReferenceByNumber(base: string, taken: set<string>, n: nat, r: string)
    requires base in taken && IsNext(Cut(base, MaxBase) + " #", "", taken, n, r)
    ensures ChosenReference(base, taken, r)
  {
    NumberedReferenceExactly(base, n, r);
    forall m: nat, other | 2 <= m < n && NumberedReference(base, m, other) ensures other in taken {
      NumberedReferenceExactly(base, m, other);
    }
  }

  lemma NumberedReferenceExactly(base: string, n: nat, r: string)
    ensures NumberedReference(base, n, r) <==> r == Variant(Cut(base, MaxBase) + " #", n, "")
  {
    var s := Cut(base, MaxBase) + " #" + Text.Numeral(n);
    assert s + "" == s;
  }

  /** Each group is referred to by its base reference or the first free numbered one. */
  ghost predicate AllReferred(groups: seq<Group>, references: seq<string>) {
    && |references| == |groups|
    && forall k :: 0 <= k < |groups| ==>
      ChosenReference(BaseReference(groups[k].head), Taken(references, k), references[k])
  }

  lemma ReferredSnoc(groups: seq<Group>, references: seq<string>, g: Group, r: string)
    requires AllReferred(groups, references)
    requires ChosenReference(BaseReference(g.head), Taken(references, |references|), r)
    ensures AllReferred(groups + [g], references + [r])
  {
    forall k | 0 <= k <= |groups|
      ensures ChosenReference(BaseReference((groups + [g])[k].head), Taken(references + [r], k), (references + [r])[k])
    {
      TakenSnoc(references, r, k);
    }
  }

  /** `_deduplicate_reference`: a free reference, which fits its column while at most 97 are taken. */
  method DeduplicateReference(reference: string, taken: set<string>) returns (r: string)
    ensures r !in taken
    ensures exists n: nat :: IsNext(Cut(reference, MaxBase) + " #", "", taken, n, r)
    ensures |taken| <= 97 ==> |r| <= MaxReference
    ensures |r| > MaxReference <==> Crowded(Cut(reference, MaxBase), taken)
    ensures reference in taken ==> ChosenReference(reference, taken, r)
  {
    var counter;
    r, counter := NextFree(Cut(reference, MaxBase) + " #", "", taken);
    Text.NumeralLength(counter);
    if reference in taken { ReferenceByNumber(reference, taken, counter, r); }
    OverflowsExactly(Cut(reference, MaxBase), taken, counter);
  }

  /** All numbered references that fit the column are taken. */
  ghost predicate Crowded(base: string, taken: set<string>) {
    forall m: nat :: m >= 2 && |Variant(base + " #", m, "")| <= MaxReference ==> Variant(base + " #", m, "") in taken
  }

  /** The first free reference overflows its column if and only if all the fitting ones are taken. */
  lemma OverflowsExactly(base: string, taken: set<string>, n: nat)
    requires FirstFree(base + " #", "", taken, n)
    ensures |Variant(base + " #", n, "")| > MaxReference <==> Crowded(base, taken)
  {
    if |Variant(base + " #", n, "")| > MaxReference {
      forall m: nat | m >= 2 && |Variant(base + " #", m, "")| <= MaxReference
        ensures Variant(base + " #", m, "") in taken
      {
        if m >= n { Text.NumeralMonotone(n, m); }
      }
    }
  }

  /** The references that make the 98th renaming overflow. */
  function Crowd(base: string, n: nat): (r: set<string>) {
    set m | 2 <= m < n :: Variant(base + " #", m, "")
  }

  lemma {:induction false} CrowdSize(base: string, n: nat)
    requires n >= 2
    ensures |Crowd(base, n)| == n - 2
  {
    if n > 2 {
      CrowdSize(base, n - 1);
      forall m | 2 <= m < n - 1 ensures Variant(base + " #", m, "") != Variant(base + " #", n - 1, "") {
        VariantInjective(base + " #", m, n - 1, "");
      }
      assert Crowd(base, n) == Crowd(base, n - 1) + {Variant(base + " #", n - 1, "")};
    } else {
      assert Crowd(base, n) == {};
    }
  }

  /** 97 is exact: with 98 references of at most 120 characters taken, the next free one has 121. */
  lemma NinetyEightOverflow(base: string, n: nat)
    requires |base| == MaxBase
    requires FirstFree(Cut(Variant(base + " #", 50, ""), MaxBase) + " #", "", Crowd(base, 100), n)
    ensures |Crowd(base, 100)| == 98 && Variant(base + " #", 50, "") in Crowd(base, 100)
    ensures forall r :: r in Crowd(base, 100) ==> |r| <= MaxReference
    ensures |Variant(Cut(Variant(base + " #", 50, ""), MaxBase) + " #", n, "")| == MaxReference + 1
  {
    CrowdSize(base, 100);
    assert Cut(Variant(base + " #", 50, ""), MaxBase) == base;
    forall r | r in Crowd(base, 100) ensures |r| <= MaxReference {
      var m :| 2 <= m < 100 && r == Variant(base + " #", m, "");
      Text.NumeralLength(m);
    }
    assert Variant(base + " #", 100, "") !in Crowd(base, 100) by {
      forall m | 2 <= m < 100 ensures Variant(base + " #", m, "") != Variant(base + " #", 100, "") {
        VariantInjective(base + " #", m, 100, "");
      }
    }
    assert n == 100;
    Text.NumeralLength(100);
  }

  // ---------------------------------------------------------------- the payloads of a job

  datatype Payload = Payload(group: Group, attachments: seq<Attachment>)

  ghost predicate GroupNamed(g: Group) {
    forall k :: 0 <= k < |g.pagos| ==> '.' in g.pagos[k].suggested
  }

  ghost predicate Named(groups: seq<Group>) {
    forall i :: 0 <= i < |groups| ==> GroupNamed(groups[i])
  }

  ghost predicate PayloadFor(p: Payload, g: Group, saved: map<string, string>) {
    && p.group == g
    && AttachedPaths(p.attachments) == FilePaths(g.pagos, saved)
    && Distinct(FileNames(p.attachments))
    && AllChosen(Suggested(g.pagos, saved), FileNames(p.attachments))
  }

  /** The first 98 references fit their column. */
  ghost predicate ShortReferences(references: seq<string>) {
    forall k :: 0 <= k < |references| && k <= 97 ==> |references[k]| <= MaxReference
  }

  /** One payload a group, each under a reference of its own. */
  ghost predicate Paired(groups: seq<Group>, saved: map<string, string>, references: seq<string>,
      payloads: map<string, Payload>) {
    && |references| == |groups| == |payloads.Keys|
    && Distinct(references)
    && (forall r :: r in payloads <==> r in references)
    && (forall k :: 0 <= k < |groups| ==> PayloadFor(payloads[references[k]], groups[k], saved))
  }

  lemma AddPayload(groups: seq<Group>, saved: map<string, string>, references: seq<string>,
      payloads: map<string, Payload>, g: Group, reference: string, p: Payload, all: seq<string>,
      after: map<string, Payload>)
    requires Paired(groups, saved, references, payloads)
    requires reference !in payloads && PayloadFor(p, g, saved)
    requires all == references + [reference] && after == payloads[reference := p]
    ensures Paired(groups + [g], saved, all, after)
  {
    assert after.Keys == payloads.Keys + {reference};
    DistinctSnoc(references, reference);
    forall k | 0 <= k < |groups| ensures PayloadFor(after[all[k]], (groups + [g])[k], saved) {
      assert all[k] == references[k] && references[k] in payloads;
    }
  }

  /** `_build_email_job_payload`, as far as the group and the attachments go. */
  method BuildPayload(g: Group, saved: map<string, string>) returns (p: Payload)
    requires GroupNamed(g)
    ensures PayloadFor(p, g, saved)
  {
    var attachments := BuildAttachments(g.pagos, saved);
    p := Payload(g, attachments);
  }

  lemma TakenAll(references: seq<string>, taken: set<string>)
    requires forall r :: r in taken <==> r in references
    ensures Taken(references, |references|) == taken
  {
  }

  method FreshReference(h: Head, taken: set<string>) returns (reference: string)
    ensures reference !in taken
    ensures |taken| <= 97 ==> |reference| <= MaxReference
    ensures ChosenReference(BaseReference(h), taken, reference)
  {
    reference := BaseReference(h);
    if reference in taken { reference := DeduplicateReference(reference, taken); }
  }

  /** The body of the loop of `enqueue_payment_emails`. */
  method AddGroup(ghost groups: seq<Group>, saved: map<string, string>, references: seq<string>,
      payloads: map<string, Payload>, g: Group)
    returns (all: seq<string>, after: map<string, Payload>)
    requires Paired(groups, saved, references, payloads) && ShortReferences(references) && GroupNamed(g)
    requires AllReferred(groups, references)
    ensures Paired(groups + [g], saved, all, after) && ShortReferences(all)
    ensures AllReferred(groups + [g], all)
  {
    var reference := FreshReference(g.head, payloads.Keys);
    var payload := BuildPayload(g, saved);
    all, after := references + [reference], payloads[reference := payload];
    TakenAll(references, payloads.Keys);
    ReferredSnoc(groups, references, g, reference);
    AddPayload(groups, saved, references, payloads, g, reference, payload, all, after);
  }

  /**
   * The loop of `enqueue_payment_emails`: one payload a group, under references that differ.
   * The first 98 references fit their column.
   */
  method BuildPayloads(groups: seq<Group>, saved: map<string, string>)
    returns (references: seq<string>, payloads: map<string, Payload>)
    requires Named(groups)
    ensures Paired(groups, saved, references, payloads)
    ensures ShortReferences(references) && AllReferred(groups, references)
    ensures Dedupe(references) == references
  {
    references, payloads := [], map[];
    NothingPaired(saved);
    ghost var done: seq<Group> := [];
    for i := 0 to |groups|
      invariant done == groups[..i]
      invariant Paired(done, saved, references, payloads) && ShortReferences(references)
      invariant AllReferred(done, references)
    {
      references, payloads := AddGroup(done, saved, references, payloads, groups[i]);
      TakeSnoc(groups, i);
      done := done + [groups[i]];
    }
    assert done == groups;
    NothingDropped(groups, saved, references, payloads);
  }

  lemma NothingPaired(saved: map<string, string>)
    ensures Paired([], saved, [], map[]) && ShortReferences([]) && AllReferred([], [])
  {
  }

  lemma NothingDropped(groups: seq<Group>, saved: map<string, string>, references: seq<string>,
      payloads: map<string, Payload>)
    requires Paired(groups, saved, references, payloads)
    ensures Dedupe(references) == references
  {
    DedupeDistinct(references);
  }

  // ---------------------------------------------------------------- the saved files

  /** The dictionary of stored paths: a later upload with the same name replaces the earlier one. */
  function SavedPaths(names: seq<string>, paths: seq<string>, n: nat): map<string, string>
    requires n <= |names| == |paths|
  {
    if n == 0 then map[] else SavedPaths(names, paths, n - 1)[names[n - 1] := paths[n - 1]]
  }

  /** The loop of `_save_uploaded_files`. */
  method SaveUploadedFiles(names: seq<string>, paths: seq<string>) returns (saved: map<string, string>)
    requires |names| == |paths|
    ensures saved == SavedPaths(names, paths, |names|)
    ensures forall i :: 0 <= i < |names| ==> names[i] in saved
  {
    saved := map[];
    for i := 0 to |names|
      invariant saved == SavedPaths(names, paths, i)
      invariant forall k :: 0 <= k < i ==> names[k] in saved
    {
      saved := saved[names[i] := paths[i]];
    }
  }

  /** Upload `l` is the last of the first `n` with the name. */
  ghost predicate LastUpload(names: seq<string>, n: nat, name: string, l: nat)
    requires n <= |names|
  {
    l < n && names[l] == name && forall j :: l < j < n ==> names[j] != name
  }

  /** What is stored under a name is the path of its last upload. */
  lemma {:induction false} SavedIsLast(names: seq<string>, paths: seq<string>, n: nat, i: nat) returns (l: nat)
    requires i < n <= |names| == |paths|
    ensures names[i] in SavedPaths(names, paths, n)
    ensures LastUpload(names, n, names[i], l) && SavedPaths(names, paths, n)[names[i]] == paths[l]
  {
    if names[n - 1] == names[i] {
      l := n - 1;
    } else {
      l := SavedIsLast(names, paths, n - 1, i);
    }
  }

  /** A payment whose stored file is `x` counts one. */
  function WithPath(saved: map<string, string>, x: string): Payment -> int {
    (p: Payment) => if PathOf(p, saved) == Some(x) then 1 else 0
  }

  function Times(s: seq<string>, x: string): nat {
    if s == [] then 0 else Times(s[..|s| - 1], x) + if s[|s| - 1] == x then 1 else 0
  }

  lemma TimesSnoc(s: seq<string>, y: string, x: string)
    ensures Times(s + [y], x) == Times(s, x) + if y == x then 1 else 0
  {
    assert (s + [y])[..|s|] == s;
  }

  /** How often the stored file `x` is attached in all the payloads. */
  function AttachedTimes(groups: seq<Group>, saved: map<string, string>, x: string): nat {
    if groups == [] then 0
    else AttachedTimes(groups[..|groups| - 1], saved, x) + Times(FilePaths(groups[|groups| - 1].pagos, saved), x)
  }

  lemma {:induction false} TimesIsSum(items: seq<Item>, saved: map<string, string>, x: string)
    ensures Times(FilePaths(items, saved), x) == Sum(WithPath(saved, x), Unwrapped(items))
  {
    if items != [] {
      var n := |items| - 1;
      TimesIsSum(items[..n], saved, x);
      var path := PathOf(items[n].payment, saved);
      if path.Some? { TimesSnoc(FilePaths(items[..n], saved), path.value, x); }
      assert FilePaths(items[..n], saved) + [] == FilePaths(items[..n], saved);
      assert Unwrapped(items)[..n] == Unwrapped(items[..n]);
    }
  }

  lemma UnwrappedItems(r: Rules, members: seq<Payment>)
    requires Transparent(r)
    ensures Unwrapped(Items(r.item, members)) == members
  {
    assert forall i :: 0 <= i < |members| ==> Items(r.item, members)[i].payment == members[i];
  }

  lemma {:induction false} AttachedIsSumOver(r: Rules, keys: seq<GroupKey>, payments: seq<Payment>,
      saved: map<string, string>, x: string)
    requires Transparent(r) && forall k :: k in keys ==> Members(r.keyed, payments, k) != []
    ensures AttachedTimes(GroupsFor(r, keys, payments), saved, x)
      == SumOver(r.keyed, WithPath(saved, x), keys, payments)
  {
    if keys != [] {
      var n := |keys| - 1;
      FrontGroups(r, keys, payments);
      AttachedIsSumOver(r, keys[..n], payments, saved, x);
      var members := Members(r.keyed, payments, keys[n]);
      TimesIsSum(Items(r.item, members), saved, x);
      UnwrappedItems(r, members);
    }
  }

  /** A stored file is attached once for every payment whose upload has its name. */
  lemma AttachedIsSum(r: Rules, payments: seq<Payment>, saved: map<string, string>, x: string)
    requires Transparent(r)
    ensures AttachedTimes(GroupsOf(r, payments), saved, x) == Sum(WithPath(saved, x), payments)
  {
    KeysHaveMembers(r.keyed, payments);
    AttachedIsSumOver(r, Dedupe(Keys(r.keyed, payments)), payments, saved, x);
    GroupsConserve(r.keyed, WithPath(saved, x), payments);
  }

  /** The uploads: stored under different paths, each read as one payment. */
  ghost predicate Uploaded(names: seq<string>, paths: seq<string>, payments: seq<Payment>) {
    && |names| == |paths| == |payments|
    && Distinct(paths)
    && (forall i :: 0 <= i < |names| ==> paths[i] != "" && payments[i].archivo == names[i])
  }

  /**
   The stored file of payment `i` is the upload `j` only if the names agree and `j` is the last upload of the name.
   */
  lemma StoredFile(names: seq<string>, paths: seq<string>, payments: seq<Payment>, i: nat, j: nat)
    requires Uploaded(names, paths, payments) && i < |names| && j < |names|
    ensures PathOf(payments[i], SavedPaths(names, paths, |names|)) == Some(paths[j])
      <==> names[i] == names[j] && forall k :: j < k < |names| ==> names[k] != names[j]
  {
    var l := SavedIsLast(names, paths, |names|, i);
    assert paths[l] == paths[j] <==> l == j;
  }

  lemma {:induction false} CountStored(names: seq<string>, paths: seq<string>, payments: seq<Payment>, j: nat, n: nat)
    requires Uploaded(names, paths, payments) && j < |names| && n <= |names|
    ensures var sum := Sum(WithPath(SavedPaths(names, paths, |names|), paths[j]), payments[..n]);
      && (Distinct(names) ==> sum == if j < n then 1 else 0)
      && ((exists k :: j < k < |names| && names[k] == names[j]) ==> sum == 0)
  {
    if n > 0 {
      CountStored(names, paths, payments, j, n - 1);
      StoredFile(names, paths, payments, n - 1, j);
      SumSnoc(WithPath(SavedPaths(names, paths, |names|), paths[j]), payments[..n - 1], payments[n - 1]);
      assert payments[..n] == payments[..n - 1] + [payments[n - 1]];
    }
  }

  /** Every stored file is attached in exactly one payload, once, if and only if the uploads have different names. */
  lemma EachFileOnceExactly(r: Rules, names: seq<string>, paths: seq<string>, payments: seq<Payment>)
    requires Transparent(r) && Uploaded(names, paths, payments)
    ensures (forall j :: 0 <= j < |paths| ==>
        AttachedTimes(GroupsOf(r, payments), SavedPaths(names, paths, |names|), paths[j]) == 1)
      <==> Distinct(names)
  {
    var groups, saved := GroupsOf(r, payments), SavedPaths(names, paths, |names|);
    forall j | 0 <= j < |paths|
      ensures AttachedTimes(groups, saved, paths[j]) == Sum(WithPath(saved, paths[j]), payments)
      ensures Distinct(names) ==> AttachedTimes(groups, saved, paths[j]) == 1
      ensures (exists k :: j < k < |names| && names[k] == names[j]) ==> AttachedTimes(groups, saved, paths[j]) == 0
    {
      AttachedIsSum(r, payments, saved, paths[j]);
      CountStored(names, paths, payments, j, |names|);
      assert payments[..|names|] == payments;
    }
  }

  /** The rules of the processor keep the payment in its entry and always suggest a name with an extension. */
  lemma ProcessorRules(t: Texts, providers: seq<Provider>, payments: seq<Payment>)
    ensures Transparent(RulesOf(t, providers))
    ensures Named(GroupsOf(RulesOf(t, providers), payments))
  {
  }

  // ---------------------------------------------------------------- the whole request

  datatype EnqueueError = NotReady

  datatype Enqueued = Enqueued(references: seq<string>, payloads: map<string, Payload>)

  /** Every document was read and every group has a provider with a payment address. */
  predicate ReadyToSend(groups: seq<Group>, failures: nat) {
    failures == 0 && forall i :: 0 <= i < |groups| ==> StatusOf(groups[i]) == Ready
  }

  /**
   `enqueue_payment_emails` up to the call of `create_job`; `failures` counts the documents that could not be read.
   */
  method EnqueuePaymentEmails(t: Texts, providers: seq<Provider>, payments: seq<Payment>, failures: nat,
      names: seq<string>, paths: seq<string>)
    returns (r: Result<Enqueued, EnqueueError>)
    requires |names| == |paths|
    ensures var groups := GroupsOf(RulesOf(t, providers), payments);
      && (r.Ok? <==> failures == 0 && forall i ::
            0 <= i < |groups| ==> groups[i].head.providerId.Some? && groups[i].head.emails != [])
      && (r.Ok? ==>
            && Paired(groups, SavedPaths(names, paths, |names|), r.value.references, r.value.payloads)
            && AllReferred(groups, r.value.references) && ShortReferences(r.value.references))
  {
    var groups := GroupPayments(t, providers, payments);
    if !ReadyToSend(groups, failures) { return Err(NotReady); }
    ProcessorRules(t, providers, payments);
    var saved := SaveUploadedFiles(names, paths);
    var references, payloads := BuildPayloads(groups, saved);
    return Ok(Enqueued(references, payloads));
  }
}
