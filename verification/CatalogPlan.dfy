/** What a plan contains, said about the account instead of the listing: the
    items Diff emits are exactly the wanted ones, each once, except that it only
    archives what belongs to a product its second walk visits. */
module CatalogPlan {
  import opened Options
  import opened Text
  import opened Ordering
  import opened CatalogSpec
  import opened CatalogAccount
  import opened CatalogDiff

  /** A complete listing of the account, in any order. */
  ghost predicate IsListing(a: Account, cur: seq<ExistingProduct>) {
    && (forall i, j :: 0 <= i < j < |cur| ==> cur[i].id != cur[j].id)
    && (forall i :: 0 <= i < |cur| ==> cur[i].id in a.products && cur[i].record == a.products[cur[i].id])
    && (forall id :: id in a.products ==> exists i :: 0 <= i < |cur| && cur[i].id == id)
    && (forall i :: 0 <= i < |cur| ==> PricesOf(a, cur[i].id, cur[i].prices))
  }

  ghost predicate PricesOf(a: Account, id: string, ps: seq<ExistingPrice>) {
    && (forall j, k :: 0 <= j < k < |ps| ==> ps[j].id != ps[k].id)
    && (forall j :: 0 <= j < |ps| ==>
          ps[j].id in a.prices && ps[j].record == a.prices[ps[j].id] && ps[j].record.productId == id)
    && (forall q :: q in a.prices && a.prices[q].productId == id ==> exists j :: 0 <= j < |ps| && ps[j].id == q)
  }

  /** The Stripe price is active and charges what the declared one says; how often
      matters for recurring prices only. */
  predicate ChargesAsDeclared(p: Price, r: PriceRecord) {
    && r.active && r.amount == p.amount && r.currency == p.currency && r.kind == p.kind
    && (p.kind == "recurring" ==> r.interval == p.interval && r.intervalCount == p.intervalCount)
  }

  predicate ReadsAsDeclared(p: Product, r: ProductRecord) {
    r.name == p.name && r.description == p.description
  }

  /** The operations that separate the account from the spec. */
  ghost predicate Wanted(spec: Spec, a: Account, it: PlanItem) {
    match it
    case CreateProductItem(k, np) =>
      k in spec.products && ProductId(spec.namespace, k) !in a.products && np == NewProductFor(spec, k)
    case UpdateProductItem(k, np) =>
      && k in spec.products && ProductId(spec.namespace, k) in a.products && np == NewProductFor(spec, k)
      && a.products[ProductId(spec.namespace, k)].active
      && !ReadsAsDeclared(spec.products[k], a.products[ProductId(spec.namespace, k)])
    case UnarchiveProductItem(k, id) =>
      && k in spec.products && id == ProductId(spec.namespace, k) && id in a.products && !a.products[id].active
    case CreatePriceItem(k, pk, np) =>
      && Declared(spec, k, pk) && np == NewPriceFor(spec, k, pk, false)
      && (forall q :: q in a.prices ==> a.prices[q].lookupKey != np.lookupKey)
    case ReplacePriceItem(k, pk, np, q) =>
      && Declared(spec, k, pk) && np == NewPriceFor(spec, k, pk, true)
      && q in a.prices && a.prices[q].lookupKey == np.lookupKey
      && !ChargesAsDeclared(spec.products[k].prices[pk], a.prices[q])
    case ArchivePriceItem(q) =>
      q in a.prices && a.prices[q].active && !DeclaredKey(spec, a.prices[q].lookupKey)
    case ArchiveProductItem(k, id) =>
      id in a.products && ExistingProductKey(id, spec.namespace) == k && k !in spec.products && a.products[id].active
  }

  ghost predicate NoDup<T>(s: seq<T>) {
    forall i, j :: 0 <= i < j < |s| ==> s[i] != s[j]
  }

  predicate ArchiveItem(it: PlanItem) {
    it.ArchivePriceItem? || it.ArchiveProductItem?
  }

  /** The product an archiving item belongs to. */
  function OwnerOf(a: Account, it: PlanItem): string
    requires ArchiveItem(it)
  {
    if it.ArchiveProductItem? then it.id
    else if it.oldPrice in a.prices then a.prices[it.oldPrice].productId else ""
  }

  /** The walk for archiving looks products up by the suffixes of the ids in the
      account: it comes by this product when its key is one of them. */
  ghost predicate Visited(namespace: string, a: Account, id: string) {
    exists other :: other in a.products && |other| >= 5
                    && StripeProductSuffix(other) == ExistingProductKey(id, namespace)
  }

  /** Wanted, and found. */
  ghost predicate Planned(spec: Spec, a: Account, it: PlanItem) {
    Wanted(spec, a, it) && (ArchiveItem(it) ==> Visited(spec.namespace, a, OwnerOf(a, it)))
  }

  ghost predicate PlanFor(spec: Spec, a: Account, items: seq<PlanItem>) {
    NoDup(items) && forall it :: it in items <==> Planned(spec, a, it)
  }

  lemma {:induction false} NoDupConcat<T>(a: seq<T>, b: seq<T>)
    requires NoDup(a) && NoDup(b) && forall x :: x in a ==> x !in b
    ensures NoDup(a + b)
  {
    forall i, j | 0 <= i < j < |a + b| ensures (a + b)[i] != (a + b)[j] {
      if i < |a| <= j { assert a[i] in a && b[j - |a|] in b; }
    }
  }

  // ------------------------------------------------------------- the indices

  lemma {:induction false} ByIdMembers(cur: seq<ExistingProduct>, id: string)
    requires forall i, j :: 0 <= i < j < |cur| ==> cur[i].id != cur[j].id
    ensures id in ById(cur) <==> exists i :: 0 <= i < |cur| && cur[i].id == id
    ensures forall i :: 0 <= i < |cur| && cur[i].id == id ==> ById(cur)[id] == cur[i].record
  {
    if cur != [] {
      var n := |cur| - 1;
      ByIdMembers(cur[..n], id);
      if id in ById(cur[..n]) {
        var i :| 0 <= i < n && cur[..n][i].id == id;
        assert cur[i].id == id;
      }
      forall i | 0 <= i < |cur| && cur[i].id == id
        ensures id in ById(cur) && ById(cur)[id] == cur[i].record
      {
        if i < n { assert cur[..n][i].id == id; }
      }
    }
  }

  lemma {:induction false} ByIdIsProducts(a: Account, cur: seq<ExistingProduct>)
    requires IsListing(a, cur)
    ensures ById(cur) == a.products
  {
    forall id ensures id in ById(cur) <==> id in a.products
              ensures id in a.products ==> ById(cur)[id] == a.products[id]
    {
      ByIdMembers(cur, id);
    }
  }

  lemma {:induction false} AddPricesMembers(m: map<string, ExistingPrice>, ps: seq<ExistingPrice>, key: string)
    ensures key in AddPrices(m, ps) <==>
              key in m || (key != "" && exists j :: 0 <= j < |ps| && ps[j].record.lookupKey == key)
    ensures key in AddPrices(m, ps) ==>
              (key in m && AddPrices(m, ps)[key] == m[key]) ||
              (AddPrices(m, ps)[key] in ps && AddPrices(m, ps)[key].record.lookupKey == key)
  {
    if ps != [] {
      var n := |ps| - 1;
      AddPricesMembers(m, ps[..n], key);
      assert ps == ps[..n] + [ps[n]];
      if key != "" && exists j :: 0 <= j < n && ps[..n][j].record.lookupKey == key {
        var j :| 0 <= j < n && ps[..n][j].record.lookupKey == key;
        assert ps[j].record.lookupKey == key;
      }
      if j :| 0 <= j < n && ps[j].record.lookupKey == key {
        assert ps[..n][j].record.lookupKey == key;
      }
    }
  }

  ghost predicate Listed(cur: seq<ExistingProduct>, p: ExistingPrice) {
    exists i :: 0 <= i < |cur| && p in cur[i].prices
  }

  lemma {:induction false} ByKeyMembers(cur: seq<ExistingProduct>, key: string)
    ensures key in ByLookupKey(cur) ==>
              key != "" && Listed(cur, ByLookupKey(cur)[key]) && ByLookupKey(cur)[key].record.lookupKey == key
    ensures forall p :: Listed(cur, p) && p.record.lookupKey == key && key != "" ==> key in ByLookupKey(cur)
  {
    if cur != [] {
      var n := |cur| - 1;
      var init, ps := cur[..n], cur[n].prices;
      ByKeyMembers(init, key);
      AddPricesMembers(ByLookupKey(init), ps, key);
      if key in ByLookupKey(init) {
        var i :| 0 <= i < n && ByLookupKey(init)[key] in init[i].prices;
        assert ByLookupKey(init)[key] in cur[i].prices;
      }
      forall p | Listed(cur, p) && p.record.lookupKey == key && key != "" ensures key in ByLookupKey(cur) {
        var i :| 0 <= i < |cur| && p in cur[i].prices;
        if i < n {
          assert p in init[i].prices;
          assert Listed(init, p);
        } else {
          var j :| 0 <= j < |ps| && ps[j] == p;
        }
      }
    }
  }

  lemma {:induction false} ListedIsPrice(a: Account, cur: seq<ExistingProduct>, p: ExistingPrice)
    requires IsListing(a, cur) && (forall q :: q in a.prices ==> a.prices[q].productId in a.products)
    ensures Listed(cur, p) <==> p.id in a.prices && p.record == a.prices[p.id]
  {
    if Listed(cur, p) {
      var i :| 0 <= i < |cur| && p in cur[i].prices;
      assert PricesOf(a, cur[i].id, cur[i].prices);
    }
    if p.id in a.prices && p.record == a.prices[p.id] {
      var i :| 0 <= i < |cur| && cur[i].id == p.record.productId;
      assert PricesOf(a, cur[i].id, cur[i].prices);
      var j :| 0 <= j < |cur[i].prices| && cur[i].prices[j].id == p.id;
      assert cur[i].prices[j] == p;
    }
  }

  /** The key index finds the one price that holds the key. */
  lemma {:induction false} ByKeyIsHolder(namespace: string, a: Account, cur: seq<ExistingProduct>, key: string)
    requires IsListing(a, cur) && Sound(namespace, a) && key != ""
    ensures key in ByLookupKey(cur) <==> exists q :: q in a.prices && a.prices[q].lookupKey == key
    ensures key in ByLookupKey(cur) ==>
              forall q :: q in a.prices && a.prices[q].lookupKey == key ==>
                ByLookupKey(cur)[key] == ExistingPrice(q, a.prices[q])
  {
    ByKeyMembers(cur, key);
    if key in ByLookupKey(cur) {
      ListedIsPrice(a, cur, ByLookupKey(cur)[key]);
    }
    forall q | q in a.prices && a.prices[q].lookupKey == key
      ensures key in ByLookupKey(cur) && ByLookupKey(cur)[key] == ExistingPrice(q, a.prices[q])
    {
      ListedIsPrice(a, cur, ExistingPrice(q, a.prices[q]));
    }
  }

  // ------------------------------------------------------------ first half

  lemma {:induction false} PriceItemsMembers(spec: Spec, byKey: map<string, ExistingPrice>, k: string,
                                             pks: seq<string>, it: PlanItem)
    requires forall i :: 0 <= i < |pks| ==> Declared(spec, k, pks[i])
    ensures it in PriceItems(spec, byKey, k, pks) <==>
              exists j :: 0 <= j < |pks| && it in PriceItem(spec, byKey, k, pks[j])
  {
    if pks != [] {
      var n := |pks| - 1;
      PriceItemsMembers(spec, byKey, k, pks[..n], it);
      if j :| 0 <= j < n && it in PriceItem(spec, byKey, k, pks[..n][j]) {
        assert it in PriceItem(spec, byKey, k, pks[j]);
      }
      if j :| 0 <= j < n && it in PriceItem(spec, byKey, k, pks[j]) {
        assert it in PriceItem(spec, byKey, k, pks[..n][j]);
      }
    }
  }

  lemma {:induction false} PriceItemsNoDup(spec: Spec, byKey: map<string, ExistingPrice>, k: string, pks: seq<string>)
    requires forall i :: 0 <= i < |pks| ==> Declared(spec, k, pks[i])
    requires NoDup(pks)
    ensures NoDup(PriceItems(spec, byKey, k, pks))
  {
    if pks != [] {
      var n := |pks| - 1;
      PriceItemsNoDup(spec, byKey, k, pks[..n]);
      forall it | it in PriceItems(spec, byKey, k, pks[..n]) ensures it !in PriceItem(spec, byKey, k, pks[n]) {
        PriceItemsMembers(spec, byKey, k, pks[..n], it);
      }
      NoDupConcat(PriceItems(spec, byKey, k, pks[..n]), PriceItem(spec, byKey, k, pks[n]));
    }
  }

  /** The spec half emits an item of product k, exactly when it is wanted. */
  predicate SpecItem(it: PlanItem) {
    !it.ArchivePriceItem? && !it.ArchiveProductItem?
  }

  lemma {:induction false} ProductItemsWanted(spec: Spec, a: Account, k: string, it: PlanItem)
    requires k in spec.products
    ensures it in ProductItems(spec, a.products, k) <==>
              (it.CreateProductItem? || it.UpdateProductItem? || it.UnarchiveProductItem?)
              && it.key == k && Wanted(spec, a, it)
  {
  }

  /** The index maps the key to the one price that holds it. */
  ghost predicate Holds(a: Account, byKey: map<string, ExistingPrice>, key: string) {
    && (key in byKey ==> byKey[key].id in a.prices && byKey[key].record == a.prices[byKey[key].id])
    && (forall q :: q in a.prices && a.prices[q].lookupKey == key ==> key in byKey && byKey[key].id == q)
    && (key in byKey ==> byKey[key].record.lookupKey == key)
  }

  lemma {:induction false} PriceItemWanted(spec: Spec, a: Account, byKey: map<string, ExistingPrice>, k: string,
                                           pk: string, it: PlanItem)
    requires Declared(spec, k, pk) && Holds(a, byKey, PriceKey(spec.namespace, k, pk))
    ensures it in PriceItem(spec, byKey, k, pk) <==>
              (it.CreatePriceItem? || it.ReplacePriceItem?) && it.key == k && it.priceKey == pk && Wanted(spec, a, it)
  {
  }

  lemma {:induction false} ByKeyHolds(namespace: string, a: Account, cur: seq<ExistingProduct>, key: string)
    requires IsListing(a, cur) && Sound(namespace, a) && key != ""
    ensures Holds(a, ByLookupKey(cur), key)
  {
    ByKeyIsHolder(namespace, a, cur, key);
    if key in ByLookupKey(cur) {
      var q :| q in a.prices && a.prices[q].lookupKey == key;
      assert ByLookupKey(cur)[key] == ExistingPrice(q, a.prices[q]);
    }
  }

  lemma {:induction false} PriceItemsWanted(spec: Spec, a: Account, byKey: map<string, ExistingPrice>, k: string,
                                            pks: seq<string>, it: PlanItem)
    requires k in spec.products && (forall pk :: pk in pks <==> pk in spec.products[k].prices)
    requires forall i :: 0 <= i < |pks| ==> Declared(spec, k, pks[i])
    requires forall pk :: pk in pks ==> Holds(a, byKey, PriceKey(spec.namespace, k, pk))
    ensures it in PriceItems(spec, byKey, k, pks) <==>
              (it.CreatePriceItem? || it.ReplacePriceItem?) && it.key == k && Wanted(spec, a, it)
  {
    PriceItemsMembers(spec, byKey, k, pks, it);
    if j :| 0 <= j < |pks| && it in PriceItem(spec, byKey, k, pks[j]) {
      PriceItemWanted(spec, a, byKey, k, pks[j], it);
    }
    if (it.CreatePriceItem? || it.ReplacePriceItem?) && it.key == k && Wanted(spec, a, it) {
      var j :| 0 <= j < |pks| && pks[j] == it.priceKey;
      PriceItemWanted(spec, a, byKey, k, pks[j], it);
    }
  }

  lemma {:induction false} PriceKeyNotEmpty(namespace: string, k: string, pk: string)
    ensures PriceKey(namespace, k, pk) != ""
  {
  }

  lemma {:induction false} DeclaredItemsWanted(spec: Spec, a: Account, cur: seq<ExistingProduct>, k: string,
                                               it: PlanItem)
    requires k in spec.products && IsListing(a, cur) && Sound(spec.namespace, a)
    ensures it in DeclaredItems(spec, ById(cur), ByLookupKey(cur), k) <==>
              SpecItem(it) && it.key == k && Wanted(spec, a, it)
  {
    hide IsListing, Sound, Wanted, ProductItems, PriceItems, ById, ByLookupKey, Holds, PriceKey;
    ByIdIsProducts(a, cur);
    ProductItemsWanted(spec, a, k, it);
    var pks := Sorted(spec.products[k].prices.Keys);
    forall pk | pk in pks ensures Holds(a, ByLookupKey(cur), PriceKey(spec.namespace, k, pk)) {
      PriceKeyNotEmpty(spec.namespace, k, pk);
      ByKeyHolds(spec.namespace, a, cur, PriceKey(spec.namespace, k, pk));
    }
    assert forall i :: 0 <= i < |pks| ==> pks[i] in pks;
    PriceItemsWanted(spec, a, ByLookupKey(cur), k, pks, it);
  }

  lemma {:induction false} DeclaredItemsNoDup(spec: Spec, byId: map<string, ProductRecord>, byKey: map<string,
                                              ExistingPrice>, k: string)
    requires k in spec.products
    ensures NoDup(DeclaredItems(spec, byId, byKey, k))
    ensures forall it :: it in DeclaredItems(spec, byId, byKey, k) ==> SpecItem(it) && it.key == k
  {
    var pks := Sorted(spec.products[k].prices.Keys);
    AscendingDistinct(pks);
    assert forall i :: 0 <= i < |pks| ==> pks[i] in spec.products[k].prices.Keys;
    PriceItemsNoDup(spec, byKey, k, pks);
    forall it | it in PriceItems(spec, byKey, k, pks)
      ensures (it.CreatePriceItem? || it.ReplacePriceItem?) && it.key == k
    {
      PriceItemsMembers(spec, byKey, k, pks, it);
    }
    NoDupConcat(ProductItems(spec, byId, k), PriceItems(spec, byKey, k, pks));
  }

  lemma {:induction false} SpecWalkWanted(spec: Spec, a: Account, cur: seq<ExistingProduct>, ks: seq<string>,
                                          it: PlanItem)
    requires IsListing(a, cur) && Sound(spec.namespace, a)
    requires forall i :: 0 <= i < |ks| ==> ks[i] in spec.products
    ensures it in SpecWalk(spec, ById(cur), ByLookupKey(cur), ks) <==>
              SpecItem(it) && it.key in ks && Wanted(spec, a, it)
  {
    hide IsListing, Sound, Wanted, DeclaredItems, ById, ByLookupKey;
    if ks != [] {
      var n := |ks| - 1;
      assert ks == ks[..n] + [ks[n]];
      SpecWalkWanted(spec, a, cur, ks[..n], it);
      DeclaredItemsWanted(spec, a, cur, ks[n], it);
    }
  }

  lemma {:induction false} SpecWalkNoDup(spec: Spec, byId: map<string, ProductRecord>, byKey: map<string,
                                         ExistingPrice>, ks: seq<string>)
    requires forall i :: 0 <= i < |ks| ==> ks[i] in spec.products
    requires NoDup(ks)
    ensures NoDup(SpecWalk(spec, byId, byKey, ks))
    ensures forall it :: it in SpecWalk(spec, byId, byKey, ks) ==> SpecItem(it) && it.key in ks
  {
    if ks != [] {
      var n := |ks| - 1;
      assert ks == ks[..n] + [ks[n]];
      assert ks[n] !in ks[..n];
      SpecWalkNoDup(spec, byId, byKey, ks[..n]);
      DeclaredItemsNoDup(spec, byId, byKey, ks[n]);
      NoDupConcat(SpecWalk(spec, byId, byKey, ks[..n]), DeclaredItems(spec, byId, byKey, ks[n]));
    }
  }

  // ----------------------------------------------------------- second half

  lemma {:induction false} ArchivePricesMembers(spec: Spec, ps: seq<ExistingPrice>, it: PlanItem)
    ensures it in ArchivePrices(spec, ps) <==>
              it.ArchivePriceItem? && exists j :: 0 <= j < |ps| && ps[j].id == it.oldPrice && ps[j].record.active
                                                  && !DeclaredKey(spec, ps[j].record.lookupKey)
  {
    if ps != [] {
      var n := |ps| - 1;
      ArchivePricesMembers(spec, ps[..n], it);
      assert forall j :: 0 <= j < n ==> ps[..n][j] == ps[j];
    }
  }

  lemma {:induction false} ArchivePricesNoDup(spec: Spec, ps: seq<ExistingPrice>)
    requires forall j, k :: 0 <= j < k < |ps| ==> ps[j].id != ps[k].id
    ensures NoDup(ArchivePrices(spec, ps))
  {
    if ps != [] {
      var n := |ps| - 1;
      ArchivePricesNoDup(spec, ps[..n]);
      ArchivePricesMembers(spec, ps[..n], ArchivePriceItem(ps[n].id));
      assert forall j :: 0 <= j < n ==> ps[..n][j] == ps[j];
    }
  }

  lemma {:induction false} FindProductFirst(cur: seq<ExistingProduct>, namespace: string, k: string)
    ensures FindProduct(cur, namespace, k).None? ==>
              forall i :: 0 <= i < |cur| ==> ExistingProductKey(cur[i].id, namespace) != k
    ensures FindProduct(cur, namespace, k).Some? ==>
              var p := FindProduct(cur, namespace, k).value;
              p in cur && ExistingProductKey(p.id, namespace) == k
  {
    if cur != [] {
      FindProductFirst(cur[1..], namespace, k);
      assert cur == [cur[0]] + cur[1..];
    }
  }

  /** A non-empty key belongs to one id. */
  lemma {:induction false} KeyDeterminesId(namespace: string, id: string, k: string)
    requires ExistingProductKey(id, namespace) == k && k != ""
    ensures id == ProductId(namespace, k)
  {
    var prefix := "prod_" + namespace + "_";
    assert id == prefix + id[|prefix|..];
  }

  lemma {:induction false} FindProductIs(a: Account, cur: seq<ExistingProduct>, namespace: string, k: string)
    requires IsListing(a, cur) && k != ""
    ensures FindProduct(cur, namespace, k).Some? <==> ProductId(namespace, k) in a.products
    ensures FindProduct(cur, namespace, k).Some? ==>
              var p := FindProduct(cur, namespace, k).value;
              && p.id == ProductId(namespace, k) && p.record == a.products[p.id]
              && PricesOf(a, p.id, p.prices)
  {
    FindProductFirst(cur, namespace, k);
    match FindProduct(cur, namespace, k)
    case Some(p) =>
      KeyDeterminesId(namespace, p.id, k);
      var i :| 0 <= i < |cur| && cur[i] == p;
      assert PricesOf(a, cur[i].id, cur[i].prices);
    case None =>
      SuffixIsKey(namespace, k);
      assert forall i :: 0 <= i < |cur| ==> cur[i].id != ProductId(namespace, k);
  }

  lemma {:induction false} SuffixMembers(cur: seq<ExistingProduct>, k: string)
    requires forall i :: 0 <= i < |cur| ==> |cur[i].id| >= 5
    ensures k in Suffixes(cur) <==> k != "" && exists i :: 0 <= i < |cur| && StripeProductSuffix(cur[i].id) == k
  {
    if cur != [] {
      var n := |cur| - 1;
      SuffixMembers(cur[..n], k);
      assert forall i :: 0 <= i < n ==> cur[..n][i] == cur[i];
    }
  }

  lemma {:induction false} LongIds(namespace: string, a: Account, cur: seq<ExistingProduct>)
    requires IsListing(a, cur) && Sound(namespace, a)
    ensures forall i :: 0 <= i < |cur| ==> |cur[i].id| >= 5
  {
    forall i | 0 <= i < |cur| ensures |cur[i].id| >= 5 {
      KeyDeterminesId(namespace, cur[i].id, ExistingProductKey(cur[i].id, namespace));
    }
  }

  /** The suffixes of a listing are the keys the walk visits. */
  lemma {:induction false} VisitedIsSuffix(namespace: string, a: Account, cur: seq<ExistingProduct>, id: string)
    requires IsListing(a, cur) && Sound(namespace, a) && id in a.products
    requires forall i :: 0 <= i < |cur| ==> |cur[i].id| >= 5
    ensures Visited(namespace, a, id) <==> ExistingProductKey(id, namespace) in Suffixes(cur)
  {
    var k := ExistingProductKey(id, namespace);
    SuffixMembers(cur, k);
    if other :| other in a.products && |other| >= 5 && StripeProductSuffix(other) == k {
      var i :| 0 <= i < |cur| && cur[i].id == other;
    }
    if i :| 0 <= i < |cur| && StripeProductSuffix(cur[i].id) == k {
      assert cur[i].id in a.products;
    }
  }

  lemma {:induction false} ArchivePricesWanted(spec: Spec, a: Account, id: string, ps: seq<ExistingPrice>, it: PlanItem)
    requires PricesOf(a, id, ps)
    ensures it in ArchivePrices(spec, ps) <==> it.ArchivePriceItem? && OwnerOf(a, it) == id && Wanted(spec, a, it)
  {
    ArchivePricesMembers(spec, ps, it);
    if it.ArchivePriceItem? && it.oldPrice in a.prices && a.prices[it.oldPrice].productId == id {
      var j :| 0 <= j < |ps| && ps[j].id == it.oldPrice;
    }
    if it in ArchivePrices(spec, ps) {
      var j :| 0 <= j < |ps| && ps[j].id == it.oldPrice;
      assert ps[j].record == a.prices[it.oldPrice];
    }
  }

  lemma {:induction false} ArchiveItemsWanted(spec: Spec, a: Account, cur: seq<ExistingProduct>, k: string,
                                              it: PlanItem)
    requires IsListing(a, cur) && Sound(spec.namespace, a) && k != ""
    ensures it in ArchiveItems(spec, cur, k) <==>
              ArchiveItem(it) && OwnerOf(a, it) == ProductId(spec.namespace, k) && Wanted(spec, a, it)
  {
    hide IsListing, Sound, PricesOf, FindProduct, ProductId, ExistingProductKey, ArchiveItems, ArchivePrices;
    hide Wanted, OwnerOf;
    FindProductIs(a, cur, spec.namespace, k);
    ArchiveItemsAre(spec, cur, k, it);
    match FindProduct(cur, spec.namespace, k)
    case None => if ArchiveItem(it) && Wanted(spec, a, it) { OwnerExists(spec, a, it); }
    case Some(p) =>
      ArchivePricesWanted(spec, a, p.id, p.prices, it);
      ArchiveProductWanted(spec, a, k, it);
  }

  lemma {:induction false} ArchiveProductWanted(spec: Spec, a: Account, k: string, it: PlanItem)
    requires ProductId(spec.namespace, k) in a.products
    ensures var id := ProductId(spec.namespace, k);
            it.ArchiveProductItem? && OwnerOf(a, it) == id && Wanted(spec, a, it) <==>
              it == ArchiveProductItem(k, id) && k !in spec.products && a.products[id].active
  {
    hide ProductId, ExistingProductKey, DeclaredKey, ChargesAsDeclared, ReadsAsDeclared, Declared;
    SuffixIsKey(spec.namespace, k);
  }

  lemma {:induction false} ArchiveItemsAre(spec: Spec, cur: seq<ExistingProduct>, k: string, it: PlanItem)
    ensures it in ArchiveItems(spec, cur, k) <==>
              match FindProduct(cur, spec.namespace, k)
              case None => false
              case Some(p) =>
                || (it == ArchiveProductItem(k, p.id) && k !in spec.products && p.record.active)
                || it in ArchivePrices(spec, p.prices)
  {
    hide FindProduct, ArchivePrices;
  }

  lemma {:induction false} OwnerExists(spec: Spec, a: Account, it: PlanItem)
    requires Sound(spec.namespace, a) && ArchiveItem(it) && Wanted(spec, a, it)
    ensures OwnerOf(a, it) in a.products
  {
  }

  lemma {:induction false} ArchiveItemsNoDup(spec: Spec, a: Account, cur: seq<ExistingProduct>, k: string)
    requires IsListing(a, cur) && k != ""
    ensures NoDup(ArchiveItems(spec, cur, k))
  {
    FindProductIs(a, cur, spec.namespace, k);
    match FindProduct(cur, spec.namespace, k)
    case None =>
    case Some(p) =>
      ArchivePricesNoDup(spec, p.prices);
      ArchivePricesMembers(spec, p.prices, ArchiveProductItem(k, p.id));
      NoDupConcat(if k !in spec.products && p.record.active then [ArchiveProductItem(k, p.id)] else [],
                  ArchivePrices(spec, p.prices));
  }

  lemma {:induction false} CurrentWalkWanted(spec: Spec, a: Account, cur: seq<ExistingProduct>, ks: seq<string>,
                                             it: PlanItem)
    requires IsListing(a, cur) && Sound(spec.namespace, a) && "" !in ks
    ensures it in CurrentWalk(spec, cur, ks) <==>
              && ArchiveItem(it) && Wanted(spec, a, it)
              && exists i :: 0 <= i < |ks| && OwnerOf(a, it) == ProductId(spec.namespace, ks[i])
  {
    hide IsListing, Sound, Wanted, ArchiveItems, ProductId, OwnerOf;
    if ks != [] {
      var n := |ks| - 1;
      assert ks == ks[..n] + [ks[n]];
      assert ks[n] in ks;
      CurrentWalkWanted(spec, a, cur, ks[..n], it);
      ArchiveItemsWanted(spec, a, cur, ks[n], it);
      assert forall i :: 0 <= i < n ==> ks[..n][i] == ks[i];
    }
  }

  lemma {:induction false} CurrentWalkNoDup(spec: Spec, a: Account, cur: seq<ExistingProduct>, ks: seq<string>)
    requires IsListing(a, cur) && Sound(spec.namespace, a) && "" !in ks && NoDup(ks)
    ensures NoDup(CurrentWalk(spec, cur, ks))
  {
    hide IsListing, Sound, Wanted, ArchiveItems, ProductId, OwnerOf;
    if ks != [] {
      var n := |ks| - 1;
      var init := ks[..n];
      assert ks == init + [ks[n]];
      assert ks[n] in ks;
      CurrentWalkNoDup(spec, a, cur, init);
      ArchiveItemsNoDup(spec, a, cur, ks[n]);
      forall it | it in CurrentWalk(spec, cur, init) ensures it !in ArchiveItems(spec, cur, ks[n]) {
        CurrentWalkWanted(spec, a, cur, init, it);
        ArchiveItemsWanted(spec, a, cur, ks[n], it);
        var i :| 0 <= i < n && OwnerOf(a, it) == ProductId(spec.namespace, init[i]);
        ProductIdInjective(spec.namespace, init[i], ks[n]);
        assert ks[i] != ks[n];
      }
      NoDupConcat(CurrentWalk(spec, cur, init), ArchiveItems(spec, cur, ks[n]));
    }
  }

  // -------------------------------------------------------------- together

  /** In every namespace Diff plans exactly the operations that separate account
      and spec, each of them once, apart from archiving what it does not visit. */
  lemma {:induction false} DiffIsPlan(spec: Spec, a: Account, cur: seq<ExistingProduct>)
    requires IsListing(a, cur) && Sound(spec.namespace, a)
    ensures forall i :: 0 <= i < |cur| ==> |cur[i].id| >= 5
    ensures PlanFor(spec, a, DiffPlan(spec, cur))
  {
    hide IsListing, Sound, Wanted, Visited, SpecWalk, CurrentWalk, Suffixes, ById, ByLookupKey, ProductId, OwnerOf;
    LongIds(spec.namespace, a, cur);
    var ks, us := Sorted(spec.products.Keys), Sorted(Suffixes(cur));
    AscendingDistinct(ks);
    AscendingDistinct(us);
    assert forall i :: 0 <= i < |ks| ==> ks[i] in spec.products.Keys;
    SuffixMembers(cur, "");
    var first := SpecWalk(spec, ById(cur), ByLookupKey(cur), ks);
    var second := CurrentWalk(spec, cur, us);
    SpecWalkNoDup(spec, ById(cur), ByLookupKey(cur), ks);
    CurrentWalkNoDup(spec, a, cur, us);
    forall it
      ensures it in first <==> SpecItem(it) && Planned(spec, a, it)
      ensures it in second <==> ArchiveItem(it) && Planned(spec, a, it)
    {
      SpecWalkWanted(spec, a, cur, ks, it);
      if SpecItem(it) && Wanted(spec, a, it) { WantedKey(spec, a, it); }
      CurrentWalkWanted(spec, a, cur, us, it);
      if ArchiveItem(it) && Wanted(spec, a, it) { ArchivedIffVisited(spec, a, cur, us, it); }
    }
    NoDupConcat(first, second);
  }

  lemma {:induction false} WantedKey(spec: Spec, a: Account, it: PlanItem)
    requires SpecItem(it) && Wanted(spec, a, it)
    ensures it.key in spec.products.Keys
  {
  }

  /** The walk over the suffixes meets an item's product exactly when the account
      makes it a visited one. */
  lemma {:induction false} ArchivedIffVisited(spec: Spec, a: Account, cur: seq<ExistingProduct>, us: seq<string>,
                                              it: PlanItem)
    requires IsListing(a, cur) && Sound(spec.namespace, a)
    requires forall i :: 0 <= i < |cur| ==> |cur[i].id| >= 5
    requires forall u :: u in us <==> u in Suffixes(cur)
    requires ArchiveItem(it) && Wanted(spec, a, it)
    ensures Visited(spec.namespace, a, OwnerOf(a, it)) <==>
              exists i :: 0 <= i < |us| && OwnerOf(a, it) == ProductId(spec.namespace, us[i])
  {
    hide IsListing, Suffixes, Visited, ProductId, ExistingProductKey;
    var id := OwnerOf(a, it);
    var k := ExistingProductKey(id, spec.namespace);
    KeyDeterminesId(spec.namespace, id, k);
    VisitedIsSuffix(spec.namespace, a, cur, id);
    if k in us { var i :| 0 <= i < |us| && us[i] == k; }
    forall i | 0 <= i < |us| && id == ProductId(spec.namespace, us[i]) ensures k in us {
      ProductIdInjective(spec.namespace, us[i], k);
      assert us[i] in us;
    }
  }

  /** An update is planned for an active declared product exactly when its name or
      its description differs. */
  lemma {:induction false} UpdatedIff(spec: Spec, a: Account, cur: seq<ExistingProduct>, k: string)
    requires IsListing(a, cur) && Sound(spec.namespace, a) && k in spec.products
    requires ProductId(spec.namespace, k) in a.products && a.products[ProductId(spec.namespace, k)].active
    ensures forall i :: 0 <= i < |cur| ==> |cur[i].id| >= 5
    ensures var p, r := spec.products[k], a.products[ProductId(spec.namespace, k)];
            UpdateProductItem(k, NewProductFor(spec, k)) in DiffPlan(spec, cur) <==>
              r.name != p.name || r.description != p.description
  {
    hide IsListing, Sound, DiffPlan;
    DiffIsPlan(spec, a, cur);
    assert UpdateProductItem(k, NewProductFor(spec, k)) in DiffPlan(spec, cur) <==>
      Planned(spec, a, UpdateProductItem(k, NewProductFor(spec, k)));
  }

  /** A replacement is planned for a held key exactly when the holder is inactive or
      differs in one of the fields that count. */
  lemma {:induction false} ReplacedIff(spec: Spec, a: Account, cur: seq<ExistingProduct>, k: string, pk: string, q: nat)
    requires IsListing(a, cur) && Sound(spec.namespace, a) && Declared(spec, k, pk)
    requires q in a.prices && a.prices[q].lookupKey == PriceKey(spec.namespace, k, pk)
    ensures forall i :: 0 <= i < |cur| ==> |cur[i].id| >= 5
    ensures var p, r := spec.products[k].prices[pk], a.prices[q];
            ReplacePriceItem(k, pk, NewPriceFor(spec, k, pk, true), q) in DiffPlan(spec, cur) <==>
              || !r.active || r.amount != p.amount || r.currency != p.currency || r.kind != p.kind
              || (p.kind == "recurring" && (r.interval != p.interval || r.intervalCount != p.intervalCount))
  {
    hide IsListing, Sound, DiffPlan;
    DiffIsPlan(spec, a, cur);
    assert ReplacePriceItem(k, pk, NewPriceFor(spec, k, pk, true), q) in DiffPlan(spec, cur) <==>
      Planned(spec, a, ReplacePriceItem(k, pk, NewPriceFor(spec, k, pk, true), q));
  }

  // --------------------------------------------------- which products it visits

  /** Without an underscore in the namespace every product is visited. */
  lemma {:induction false} PlainNamespaceVisitsAll(namespace: string, a: Account, id: string)
    requires Sound(namespace, a) && id in a.products && '_' !in namespace
    ensures Visited(namespace, a, id)
  {
    var k := ExistingProductKey(id, namespace);
    KeyDeterminesId(namespace, id, k);
    SuffixIsKey(namespace, k);
  }

  /** In a namespace head_tail, where head has no underscore, the walk looks for
      tail_j where it should look for j: it visits product k exactly when the
      account also has a product j with k = tail_j. */
  lemma {:induction false} UnderscoreVisits(namespace: string, a: Account, head: string, tail: string, k: string)
    requires Sound(namespace, a) && namespace == head + "_" + tail && '_' !in head
    ensures Visited(namespace, a, ProductId(namespace, k)) <==>
              exists j :: ProductId(namespace, j) in a.products && k == tail + "_" + j
  {
    hide StripeProductSuffix, ExistingProductKey, ProductId, Visited;
    SuffixIsKey(namespace, k);
    forall j
      ensures |ProductId(namespace, j)| >= 5 && StripeProductSuffix(ProductId(namespace, j)) == tail + "_" + j
    {
      LongId(namespace, j);
      SuffixOfSplit(head, tail, j);
    }
    if Visited(namespace, a, ProductId(namespace, k)) {
      var other := VisitedBy(namespace, a, ProductId(namespace, k));
      var j := ExistingProductKey(other, namespace);
      KeyDeterminesId(namespace, other, j);
      assert ProductId(namespace, j) in a.products && k == tail + "_" + j;
    }
    if j :| ProductId(namespace, j) in a.products && k == tail + "_" + j {
      VisitedFrom(namespace, a, ProductId(namespace, k), ProductId(namespace, j));
    }
  }

  lemma {:induction false} VisitedBy(namespace: string, a: Account, id: string) returns (other: string)
    requires Visited(namespace, a, id)
    ensures other in a.products && |other| >= 5 && StripeProductSuffix(other) == ExistingProductKey(id, namespace)
  {
    other :| other in a.products && |other| >= 5 && StripeProductSuffix(other) == ExistingProductKey(id, namespace);
  }

  lemma {:induction false} VisitedFrom(namespace: string, a: Account, id: string, other: string)
    requires other in a.products && |other| >= 5 && StripeProductSuffix(other) == ExistingProductKey(id, namespace)
    ensures Visited(namespace, a, id)
  {
  }

  lemma {:induction false} LongId(namespace: string, k: string)
    ensures |ProductId(namespace, k)| >= 5
  {
  }

  /** So in such a namespace what belongs to product k, the product itself and
      undeclared prices on it alike, is archived only by that coincidence. */
  lemma {:induction false} UnderscoreHidesProducts(spec: Spec, a: Account, cur: seq<ExistingProduct>, head: string,
                                                   tail: string, k: string, it: PlanItem)
    requires IsListing(a, cur) && Sound(spec.namespace, a)
    requires spec.namespace == head + "_" + tail && '_' !in head
    requires ArchiveItem(it) && Wanted(spec, a, it) && OwnerOf(a, it) == ProductId(spec.namespace, k)
    ensures forall i :: 0 <= i < |cur| ==> |cur[i].id| >= 5
    ensures it in DiffPlan(spec, cur) <==>
              exists j :: ProductId(spec.namespace, j) in a.products && k == tail + "_" + j
  {
    hide IsListing, Sound, DiffPlan, Wanted, Visited, OwnerOf, ProductId;
    DiffIsPlan(spec, a, cur);
    UnderscoreVisits(spec.namespace, a, head, tail, k);
  }

  lemma {:induction false} SuffixOfSplit(head: string, tail: string, k: string)
    requires '_' !in head
    ensures StripeProductSuffix(ProductId(head + "_" + tail, k)) == tail + "_" + k
  {
    var id, rest := ProductId(head + "_" + tail, k), head + "_" + (tail + "_" + k);
    assert id == "prod_" + rest;
    assert id[5..] == rest;
    assert rest[|head|] == '_' && forall p :: 0 <= p < |head| ==> rest[p] == head[p];
    var i := IndexFrom(rest, '_', 0).value;
    assert i == |head|;
    assert id[5 + i + 1..] == rest[i + 1..];
  }
}
