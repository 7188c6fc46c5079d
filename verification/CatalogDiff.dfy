/** The planner: compares the declared catalog with a listing of Stripe and
    emits the operations that close the gap. */
module CatalogDiff {
  import opened Options
  import opened Text
  import opened Ordering
  import opened CatalogSpec
  import opened CatalogAccount

  const NAMESPACE_METADATA_KEY := "app_namespace"

  datatype ExistingPrice = ExistingPrice(id: nat, record: PriceRecord)

  datatype ExistingProduct = ExistingProduct(id: string, record: ProductRecord, prices: seq<ExistingPrice>)

  /** One operation of a plan, with what the executor needs of it. */
  datatype PlanItem =
    | CreateProductItem(key: string, product: NewProduct)
    | UpdateProductItem(key: string, product: NewProduct)
    | UnarchiveProductItem(key: string, id: string)
    | CreatePriceItem(key: string, priceKey: string, price: NewPrice)
    | ReplacePriceItem(key: string, priceKey: string, price: NewPrice, oldPrice: nat)
    | ArchivePriceItem(oldPrice: nat)
    | ArchiveProductItem(key: string, id: string)

  function NewProductFor(spec: Spec, k: string): NewProduct
    requires k in spec.products
  {
    var p := spec.products[k];
    NewProduct(ProductId(spec.namespace, k), p.name, p.taxCategory, p.description,
               p.metadata[NAMESPACE_METADATA_KEY := spec.namespace])
  }

  function NewPriceFor(spec: Spec, k: string, pk: string, transfer: bool): NewPrice
    requires Declared(spec, k, pk)
  {
    var p := spec.products[k].prices[pk];
    NewPrice(ProductId(spec.namespace, k), PriceKey(spec.namespace, k, pk),
             p.amount, p.currency, p.kind, p.interval, p.intervalCount, transfer)
  }

  predicate PriceNeedsReplace(p: Price, r: PriceRecord) {
    || !r.active
    || p.amount != r.amount
    || p.currency != r.currency
    || p.kind != r.kind
    || (p.kind == RECURRING && (p.interval != r.interval || p.intervalCount != r.intervalCount))
  }

  predicate ProductNeedsUpdate(p: Product, r: ProductRecord) {
    p.name != r.name || p.description != r.description
  }

  // ------------------------------------------------------------- the indices

  function ById(cur: seq<ExistingProduct>): map<string, ProductRecord> {
    if cur == [] then map[]
    else ById(cur[..|cur| - 1])[cur[|cur| - 1].id := cur[|cur| - 1].record]
  }

  function AddPrices(m: map<string, ExistingPrice>, ps: seq<ExistingPrice>): map<string, ExistingPrice> {
    if ps == [] then m
    else
      var r, p := AddPrices(m, ps[..|ps| - 1]), ps[|ps| - 1];
      if p.record.lookupKey == "" then r else r[p.record.lookupKey := p]
  }

  function ByLookupKey(cur: seq<ExistingProduct>): map<string, ExistingPrice> {
    if cur == [] then map[]
    else AddPrices(ByLookupKey(cur[..|cur| - 1]), cur[|cur| - 1].prices)
  }

  /** The first listed product with this key in the namespace. */
  function FindProduct(cur: seq<ExistingProduct>, namespace: string, k: string): Option<ExistingProduct> {
    if cur == [] then None
    else if ExistingProductKey(cur[0].id, namespace) == k then Some(cur[0])
    else FindProduct(cur[1..], namespace, k)
  }

  function Suffixes(cur: seq<ExistingProduct>): set<string>
    requires forall i :: 0 <= i < |cur| ==> |cur[i].id| >= 5
  {
    if cur == [] then {}
    else
      var s := StripeProductSuffix(cur[|cur| - 1].id);
      Suffixes(cur[..|cur| - 1]) + (if s == "" then {} else {s})
  }

  // ---------------------------------------------------------------- the plan

  function ProductItems(spec: Spec, byId: map<string, ProductRecord>, k: string): seq<PlanItem>
    requires k in spec.products
  {
    var id := ProductId(spec.namespace, k);
    if id !in byId then [CreateProductItem(k, NewProductFor(spec, k))]
    else if byId[id].active && ProductNeedsUpdate(spec.products[k], byId[id]) then
      [UpdateProductItem(k, NewProductFor(spec, k))]
    else if !byId[id].active then [UnarchiveProductItem(k, id)]
    else []
  }

  function PriceItem(spec: Spec, byKey: map<string, ExistingPrice>, k: string, pk: string): seq<PlanItem>
    requires Declared(spec, k, pk)
  {
    var key := PriceKey(spec.namespace, k, pk);
    if key !in byKey then [CreatePriceItem(k, pk, NewPriceFor(spec, k, pk, false))]
    else if PriceNeedsReplace(spec.products[k].prices[pk], byKey[key].record) then
      [ReplacePriceItem(k, pk, NewPriceFor(spec, k, pk, true), byKey[key].id)]
    else []
  }

  function PriceItems(spec: Spec, byKey: map<string, ExistingPrice>, k: string, pks: seq<string>): seq<PlanItem>
    requires forall i :: 0 <= i < |pks| ==> Declared(spec, k, pks[i])
  {
    if pks == [] then [] else PriceItems(spec, byKey, k, pks[..|pks| - 1]) + PriceItem(spec, byKey, k, pks[|pks| - 1])
  }

  ghost function DeclaredItems(spec: Spec, byId: map<string, ProductRecord>, byKey: map<string, ExistingPrice>,
                               k: string): seq<PlanItem>
    requires k in spec.products
  {
    ProductItems(spec, byId, k) + PriceItems(spec, byKey, k, Sorted(spec.products[k].prices.Keys))
  }

  /** First half: walk the spec. */
  ghost function SpecWalk(spec: Spec, byId: map<string, ProductRecord>, byKey: map<string, ExistingPrice>,
                          ks: seq<string>): seq<PlanItem>
    requires forall i :: 0 <= i < |ks| ==> ks[i] in spec.products
  {
    if ks == [] then []
    else SpecWalk(spec, byId, byKey, ks[..|ks| - 1]) + DeclaredItems(spec, byId, byKey, ks[|ks| - 1])
  }

  function ArchivePrices(spec: Spec, ps: seq<ExistingPrice>): seq<PlanItem> {
    if ps == [] then []
    else
      var p := ps[|ps| - 1];
      ArchivePrices(spec, ps[..|ps| - 1]) +
      (if !DeclaredKey(spec, p.record.lookupKey) && p.record.active then [ArchivePriceItem(p.id)] else [])
  }

  function ArchiveItems(spec: Spec, cur: seq<ExistingProduct>, k: string): seq<PlanItem> {
    match FindProduct(cur, spec.namespace, k)
    case None => []
    case Some(p) =>
      (if k !in spec.products && p.record.active then [ArchiveProductItem(k, p.id)] else []) +
      ArchivePrices(spec, p.prices)
  }

  /** Second half: walk the listing. */
  function CurrentWalk(spec: Spec, cur: seq<ExistingProduct>, ks: seq<string>): seq<PlanItem> {
    if ks == [] then [] else CurrentWalk(spec, cur, ks[..|ks| - 1]) + ArchiveItems(spec, cur, ks[|ks| - 1])
  }

  ghost function DiffPlan(spec: Spec, cur: seq<ExistingProduct>): seq<PlanItem>
    requires forall i :: 0 <= i < |cur| ==> |cur[i].id| >= 5
  {
    SpecWalk(spec, ById(cur), ByLookupKey(cur), Sorted(spec.products.Keys)) +
    CurrentWalk(spec, cur, Sorted(Suffixes(cur)))
  }

  // --------------------------------------------------------------- the loops

  method IndexCurrent(cur: seq<ExistingProduct>)
    returns (byId: map<string, ProductRecord>, byKey: map<string, ExistingPrice>)
    ensures byId == ById(cur) && byKey == ByLookupKey(cur)
  {
    byId, byKey := map[], map[];
    for i := 0 to |cur|
      invariant byId == ById(cur[..i]) && byKey == ByLookupKey(cur[..i])
    {
      var p := cur[i];
      byId := byId[p.id := p.record];
      ghost var before := byKey;
      for j := 0 to |p.prices|
        invariant byKey == AddPrices(before, p.prices[..j])
      {
        assert p.prices[..j + 1][..j] == p.prices[..j];
        if p.prices[j].record.lookupKey != "" {
          byKey := byKey[p.prices[j].record.lookupKey := p.prices[j]];
        }
      }
      assert p.prices[..|p.prices|] == p.prices;
      assert cur[..i + 1][..i] == cur[..i];
    }
    assert cur[..|cur|] == cur;
  }

  method WalkSpec(spec: Spec, byId: map<string, ProductRecord>, byKey: map<string, ExistingPrice>)
    returns (items: seq<PlanItem>)
    ensures items == SpecWalk(spec, byId, byKey, Sorted(spec.products.Keys))
  {
    var ks := SortedKeys(spec.products.Keys);
    EnumerationUnique(ks, Sorted(spec.products.Keys), spec.products.Keys);
    assert forall i :: 0 <= i < |ks| ==> ks[i] in spec.products.Keys;
    items := ProductsInOrder(spec, byId, byKey, ks);
  }

  method ProductsInOrder(spec: Spec, byId: map<string, ProductRecord>, byKey: map<string, ExistingPrice>,
                         ks: seq<string>)
    returns (items: seq<PlanItem>)
    requires forall i :: 0 <= i < |ks| ==> ks[i] in spec.products
    ensures items == SpecWalk(spec, byId, byKey, ks)
  {
    hide DeclaredItems;
    items := [];
    for i := 0 to |ks|
      invariant items == SpecWalk(spec, byId, byKey, ks[..i])
    {
      var own := WalkProduct(spec, byId, byKey, ks[i]);
      items := items + own;
      assert ks[..i + 1][..i] == ks[..i];
    }
    assert ks[..|ks|] == ks;
  }

  method WalkProduct(spec: Spec, byId: map<string, ProductRecord>, byKey: map<string, ExistingPrice>, k: string)
    returns (items: seq<PlanItem>)
    requires k in spec.products
    ensures items == DeclaredItems(spec, byId, byKey, k)
  {
    var product := spec.products[k];
    var id := ProductId(spec.namespace, k);
    items := [];
    if id !in byId {
      items := [CreateProductItem(k, NewProductFor(spec, k))];
    } else if byId[id].active && ProductNeedsUpdate(product, byId[id]) {
      items := [UpdateProductItem(k, NewProductFor(spec, k))];
    } else if !byId[id].active {
      items := [UnarchiveProductItem(k, id)];
    }
    var prices := WalkPrices(spec, byKey, k);
    items := items + prices;
  }

  method WalkPrices(spec: Spec, byKey: map<string, ExistingPrice>, k: string) returns (items: seq<PlanItem>)
    requires k in spec.products
    ensures items == PriceItems(spec, byKey, k, Sorted(spec.products[k].prices.Keys))
  {
    var prices := spec.products[k].prices;
    var pks := SortedKeys(prices.Keys);
    EnumerationUnique(pks, Sorted(prices.Keys), prices.Keys);
    items := PricesInOrder(spec, byKey, k, pks);
  }

  method PricesInOrder(spec: Spec, byKey: map<string, ExistingPrice>, k: string, pks: seq<string>)
    returns (items: seq<PlanItem>)
    requires forall j :: 0 <= j < |pks| ==> Declared(spec, k, pks[j])
    ensures items == PriceItems(spec, byKey, k, pks)
  {
    items := [];
    for j := 0 to |pks|
      invariant items == PriceItems(spec, byKey, k, pks[..j])
    {
      var pk := pks[j];
      var price := spec.products[k].prices[pk];
      var key := PriceKey(spec.namespace, k, pk);
      assert pks[..j + 1][..j] == pks[..j];
      if key !in byKey {
        items := items + [CreatePriceItem(k, pk, NewPriceFor(spec, k, pk, false))];
      } else if PriceNeedsReplace(price, byKey[key].record) {
        items := items + [ReplacePriceItem(k, pk, NewPriceFor(spec, k, pk, true), byKey[key].id)];
      }
    }
    assert pks[..|pks|] == pks;
  }

  method SuffixKeys(cur: seq<ExistingProduct>) returns (ks: seq<string>)
    requires forall i :: 0 <= i < |cur| ==> |cur[i].id| >= 5
    ensures ks == Sorted(Suffixes(cur))
  {
    var seen: set<string> := {};
    for i := 0 to |cur|
      invariant seen == Suffixes(cur[..i])
    {
      var s := StripeProductSuffix(cur[i].id);
      assert cur[..i + 1][..i] == cur[..i];
      if s != "" { seen := seen + {s}; }
    }
    assert cur[..|cur|] == cur;
    ks := SortedKeys(seen);
    EnumerationUnique(ks, Sorted(seen), seen);
  }

  method WalkCurrent(spec: Spec, cur: seq<ExistingProduct>) returns (items: seq<PlanItem>)
    requires forall i :: 0 <= i < |cur| ==> |cur[i].id| >= 5
    ensures items == CurrentWalk(spec, cur, Sorted(Suffixes(cur)))
  {
    items := [];
    var ks := SuffixKeys(cur);
    for i := 0 to |ks|
      invariant items == CurrentWalk(spec, cur, ks[..i])
    {
      assert ks[..i + 1][..i] == ks[..i];
      var own := WalkExisting(spec, cur, ks[i]);
      items := items + own;
    }
    assert ks[..|ks|] == ks;
  }

  method WalkExisting(spec: Spec, cur: seq<ExistingProduct>, k: string) returns (items: seq<PlanItem>)
    ensures items == ArchiveItems(spec, cur, k)
  {
    items := [];
    var j := 0;
    while j < |cur| && ExistingProductKey(cur[j].id, spec.namespace) != k
      invariant 0 <= j <= |cur|
      invariant FindProduct(cur, spec.namespace, k) == FindProduct(cur[j..], spec.namespace, k)
    {
      j := j + 1;
    }
    if j == |cur| { return; }
    var existing := cur[j];
    if k !in spec.products && existing.record.active {
      items := [ArchiveProductItem(k, existing.id)];
    }
    ghost var first := items;
    for i := 0 to |existing.prices|
      invariant items == first + ArchivePrices(spec, existing.prices[..i])
    {
      var p := existing.prices[i];
      assert existing.prices[..i + 1][..i] == existing.prices[..i];
      if !DeclaredKey(spec, p.record.lookupKey) && p.record.active {
        items := items + [ArchivePriceItem(p.id)];
      }
    }
    assert existing.prices[..|existing.prices|] == existing.prices;
  }

  /** The planner.  Ids shorter than "prod_" make the original panic. */
  method Diff(spec: Spec, cur: seq<ExistingProduct>) returns (items: seq<PlanItem>)
    requires forall i :: 0 <= i < |cur| ==> |cur[i].id| >= 5
    ensures items == DiffPlan(spec, cur)
  {
    var byId, byKey := IndexCurrent(cur);
    var declared := WalkSpec(spec, byId, byKey);
    var archived := WalkCurrent(spec, cur);
    items := declared + archived;
  }
}
