/** The Stripe side of the catalog: products and prices of one namespace, and
    the backend calls that change them. */
module CatalogAccount {
  import opened Options
  import opened CatalogSpec

  datatype ProductRecord = ProductRecord(
    name: string, description: string, taxCode: string, active: bool, metadata: map<string, string>)

  datatype PriceRecord = PriceRecord(
    productId: string, lookupKey: string, active: bool,
    amount: int, currency: string, kind: string, interval: string, intervalCount: int)

  /** Prices are numbered; `nextPrice` is the id the next one gets. */
  datatype Account = Account(products: map<string, ProductRecord>, prices: map<nat, PriceRecord>, nextPrice: nat)

  datatype NewProduct = NewProduct(id: string, name: string, taxCode: string, description: string,
                                   metadata: map<string, string>)

  datatype NewPrice = NewPrice(
    productId: string, lookupKey: string,
    amount: int, currency: string, kind: string, interval: string, intervalCount: int,
    transferLookupKey: bool)

  datatype Call =
    | CreateProduct(product: NewProduct)
    | SetProductActive(productId: string, active: bool)
    | UpdateProduct(productId: string, name: string, description: string, metadata: map<string, string>)
    | CreatePrice(price: NewPrice)
    | SetPriceActive(priceId: nat, active: bool)

  function FreshProduct(p: NewProduct): ProductRecord {
    ProductRecord(p.name, p.description, p.taxCode, true, p.metadata)
  }

  function FreshPrice(p: NewPrice): PriceRecord {
    PriceRecord(p.productId, p.lookupKey, true, p.amount, p.currency, p.kind, p.interval, p.intervalCount)
  }

  /** Stripe refuses a call that names a missing object, an id that is taken, or
      a lookup key that is taken and not to be transferred. */
  predicate Permitted(a: Account, c: Call) {
    match c
    case CreateProduct(p) => p.id !in a.products
    case SetProductActive(id, _) => id in a.products
    case UpdateProduct(id, _, _, _) => id in a.products
    case CreatePrice(p) =>
      && p.productId in a.products
      && (p.transferLookupKey || forall q :: q in a.prices ==> a.prices[q].lookupKey != p.lookupKey)
    case SetPriceActive(id, _) => id in a.prices
  }

  function Surrender(r: PriceRecord, p: NewPrice): PriceRecord {
    if p.transferLookupKey && r.lookupKey == p.lookupKey then r.(lookupKey := "") else r
  }

  /** Only non-empty fields of an update are applied. */
  function Updated(r: ProductRecord, name: string, description: string, metadata: map<string, string>): ProductRecord {
    r.(name := if name == "" then r.name else name,
       description := if description == "" then r.description else description,
       metadata := metadata)
  }

  function Exec(a: Account, c: Call): Account {
    match c
    case CreateProduct(p) => a.(products := a.products[p.id := FreshProduct(p)])
    case SetProductActive(id, active) =>
      if id in a.products then a.(products := a.products[id := a.products[id].(active := active)]) else a
    case UpdateProduct(id, name, description, metadata) =>
      if id in a.products then a.(products := a.products[id := Updated(a.products[id], name, description, metadata)])
      else a
    case CreatePrice(p) =>
      a.(prices := (map q | q in a.prices :: Surrender(a.prices[q], p))[a.nextPrice := FreshPrice(p)],
         nextPrice := a.nextPrice + 1)
    case SetPriceActive(id, active) =>
      if id in a.prices then a.(prices := a.prices[id := a.prices[id].(active := active)]) else a
  }

  /** An update leaves alone what it is not given, and never the metadata. */
  lemma {:induction false} UpdateSkipsEmpty(a: Account, id: string, name: string, description: string,
                                            metadata: map<string, string>)
    requires id in a.products
    ensures var r, t := a.products[id], Exec(a, UpdateProduct(id, name, description, metadata)).products[id];
            && (name == "" ==> t.name == r.name) && (name != "" ==> t.name == name)
            && (description == "" ==> t.description == r.description)
            && (description != "" ==> t.description == description)
            && t.metadata == metadata && t.active == r.active && t.taxCode == r.taxCode
  {
  }

  /** The account after a sequence of calls. */
  function Run(a: Account, cs: seq<Call>): Account {
    if cs == [] then a else Exec(Run(a, cs[..|cs| - 1]), cs[|cs| - 1])
  }

  /** An account the reconciler can meet: every product id has the form
      prod_<namespace>_<key>, every price hangs on a product, and no two prices
      share a lookup key. */
  ghost predicate Sound(namespace: string, a: Account) {
    && (forall id :: id in a.products ==> ExistingProductKey(id, namespace) != "")
    && (forall q :: q in a.prices ==> q < a.nextPrice && a.prices[q].productId in a.products)
    && (forall q, r :: q in a.prices && r in a.prices && q != r && a.prices[q].lookupKey != "" ==>
          a.prices[q].lookupKey != a.prices[r].lookupKey)
  }

  ghost predicate InNamespace(namespace: string, c: Call) {
    && (c.CreateProduct? ==> ExistingProductKey(c.product.id, namespace) != "")
    && (c.CreatePrice? ==> c.price.lookupKey != "")
  }

  /** Every permitted call keeps the account sound; in particular lookup keys
      stay unique, whether a key is new or transferred. */
  lemma {:induction false} ExecSound(namespace: string, a: Account, c: Call)
    requires Sound(namespace, a) && Permitted(a, c) && InNamespace(namespace, c)
    ensures Sound(namespace, Exec(a, c))
  {
    hide ExistingProductKey;
    var b := Exec(a, c);
    if c.CreatePrice? {
      forall q, r | q in b.prices && r in b.prices && q != r && b.prices[q].lookupKey != ""
        ensures b.prices[q].lookupKey != b.prices[r].lookupKey
      {
        if q != a.nextPrice && r != a.nextPrice {
          assert a.prices[q].lookupKey != a.prices[r].lookupKey;
        }
      }
    }
  }

  // --------------------------------------------- effects of call sequences

  predicate Touches(c: Call, id: string) {
    match c
    case CreateProduct(p) => p.id == id
    case SetProductActive(p, _) => p == id
    case UpdateProduct(p, _, _, _) => p == id
    case _ => false
  }

  lemma {:induction false} ProductsPersist(a: Account, cs: seq<Call>, id: string)
    requires id in a.products
    ensures id in Run(a, cs).products
  {
    if cs != [] { ProductsPersist(a, cs[..|cs| - 1], id); }
  }

  /** A product no call names keeps its record, or its absence. */
  lemma {:induction false} ProductUntouched(a: Account, cs: seq<Call>, id: string)
    requires forall c :: c in cs ==> !Touches(c, id)
    ensures id in Run(a, cs).products <==> id in a.products
    ensures id in a.products ==> Run(a, cs).products[id] == a.products[id]
  {
    if cs != [] {
      assert !Touches(cs[|cs| - 1], id);
      ProductUntouched(a, cs[..|cs| - 1], id);
    }
  }

  /** A product that one call value names ends with that call's effect. */
  lemma {:induction false} ProductTouched(a: Account, cs: seq<Call>, c: Call, id: string)
    requires c in cs && Touches(c, id) && (c.CreateProduct? || id in a.products)
    requires forall d :: d in cs && Touches(d, id) ==> d == c
    ensures id in Run(a, cs).products
    ensures Run(a, cs).products[id] == Exec(a, c).products[id]
  {
    var n := |cs| - 1;
    var init, last := cs[..n], cs[n];
    assert cs == init + [last];
    assert last in cs;
    if c in init {
      ProductTouched(a, init, c, id);
    } else {
      assert forall d :: d in init ==> d in cs && d != c;
      ProductUntouched(a, init, id);
    }
  }

  lemma {:induction false} NextPriceGrows(a: Account, cs: seq<Call>)
    ensures a.nextPrice <= Run(a, cs).nextPrice
  {
    if cs != [] { NextPriceGrows(a, cs[..|cs| - 1]); }
  }

  /** Only deactivations of prices that already existed. */
  ghost predicate Deactivates(a: Account, cs: seq<Call>) {
    forall c :: c in cs && c.SetPriceActive? ==> !c.active && c.priceId in a.prices
  }

  ghost predicate DistinctCreates(cs: seq<Call>) {
    forall i, j :: 0 <= i < j < |cs| && cs[i].CreatePrice? && cs[j].CreatePrice? ==>
      cs[i].price.lookupKey != cs[j].price.lookupKey
  }

  ghost predicate TakesKey(cs: seq<Call>, key: string) {
    exists p :: CreatePrice(p) in cs && p.transferLookupKey && p.lookupKey == key
  }

  /** What becomes of a price that existed before the calls: it may lose its key
      to a transfer and it may be deactivated, nothing else. */
  lemma {:induction false} OldPrice(a: Account, cs: seq<Call>, q: nat)
    requires q in a.prices && q < a.nextPrice && Deactivates(a, cs)
    ensures q in Run(a, cs).prices
    ensures Run(a, cs).prices[q] == a.prices[q].(
              active := a.prices[q].active && SetPriceActive(q, false) !in cs,
              lookupKey := if TakesKey(cs, a.prices[q].lookupKey) then "" else a.prices[q].lookupKey)
  {
    if cs != [] {
      var n := |cs| - 1;
      var init, last := cs[..n], cs[n];
      assert cs == init + [last];
      assert last in cs;
      assert Deactivates(a, init) by {
        forall c | c in init && c.SetPriceActive? ensures !c.active && c.priceId in a.prices { assert c in cs; }
      }
      OldPrice(a, init, q);
      NextPriceGrows(a, init);
      var key := a.prices[q].lookupKey;
      var taken := last.CreatePrice? && last.price.transferLookupKey && last.price.lookupKey == key;
      assert TakesKey(cs, key) <==> TakesKey(init, key) || taken by {
        if last.CreatePrice? { assert last == CreatePrice(last.price); }
      }
    }
  }

  ghost predicate OldIds(a: Account) {
    forall q :: q in a.prices ==> q < a.nextPrice
  }

  lemma {:induction false} DistinctInit(cs: seq<Call>)
    requires cs != [] && DistinctCreates(cs)
    ensures DistinctCreates(cs[..|cs| - 1])
    ensures forall p :: CreatePrice(p) in cs[..|cs| - 1] && cs[|cs| - 1].CreatePrice? ==>
              p.lookupKey != cs[|cs| - 1].price.lookupKey
  {
  }

  /** A created price is there, active and under its key. */
  lemma {:induction false} CreatedPrice(a: Account, cs: seq<Call>, p: NewPrice) returns (q: nat)
    requires OldIds(a) && Deactivates(a, cs) && DistinctCreates(cs) && CreatePrice(p) in cs
    ensures a.nextPrice <= q && q in Run(a, cs).prices && Run(a, cs).prices[q] == FreshPrice(p)
    ensures q < Run(a, cs).nextPrice
  {
    var n := |cs| - 1;
    var init, last := cs[..n], cs[n];
    assert cs == init + [last];
    assert last in cs;
    DistinctInit(cs);
    assert Deactivates(a, init) by {
      forall c | c in init && c.SetPriceActive? ensures !c.active && c.priceId in a.prices { assert c in cs; }
    }
    if last == CreatePrice(p) {
      q := Run(a, init).nextPrice;
      NextPriceGrows(a, init);
    } else {
      q := CreatedPrice(a, init, p);
    }
  }

  /** Every price beyond the old ones was created by one of the calls. */
  lemma {:induction false} PriceOrigin(a: Account, cs: seq<Call>, q: nat) returns (p: NewPrice)
    requires OldIds(a) && Deactivates(a, cs) && DistinctCreates(cs)
    requires q in Run(a, cs).prices && q !in a.prices
    ensures CreatePrice(p) in cs && Run(a, cs).prices[q] == FreshPrice(p) && a.nextPrice <= q
  {
    var n := |cs| - 1;
    var init, last := cs[..n], cs[n];
    assert cs == init + [last];
    assert last in cs;
    DistinctInit(cs);
    assert Deactivates(a, init) by {
      forall c | c in init && c.SetPriceActive? ensures !c.active && c.priceId in a.prices { assert c in cs; }
    }
    if last.CreatePrice? && q == Run(a, init).nextPrice {
      p := last.price;
      NextPriceGrows(a, init);
    } else {
      p := PriceOrigin(a, init, q);
    }
  }
}
