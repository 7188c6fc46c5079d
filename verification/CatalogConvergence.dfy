/** Why syncing works: every call of a plan is accepted, every intermediate
    account is safe, and two rounds of Diff and Apply reach the declared catalog
    from any sound account, also from one a failed run left behind.  What is not
    declared disappears as far as Diff visits it, which is everywhere in a
    namespace without an underscore. */
module CatalogConvergence {
  import opened Options
  import opened CatalogSpec
  import opened CatalogAccount
  import opened CatalogDiff
  import opened CatalogPlan
  import opened CatalogApply

  /** A validated spec, a sound account, and the plan between them. */
  ghost predicate Setting(spec: Spec, a: Account, items: seq<PlanItem>) {
    WellFormed(spec) && Sound(spec.namespace, a) && PlanFor(spec, a, items)
  }

  /** What Diff computes from a listing is such a plan. */
  lemma {:induction false} DiffGivesSetting(spec: Spec, a: Account, cur: seq<ExistingProduct>)
    requires WellFormed(spec) && Sound(spec.namespace, a) && IsListing(a, cur)
    ensures forall i :: 0 <= i < |cur| ==> |cur[i].id| >= 5
    ensures Setting(spec, a, DiffPlan(spec, cur))
  {
    DiffIsPlan(spec, a, cur);
  }

  // ------------------------------------------------- what the calls look like

  lemma {:induction false} CallIsWanted(spec: Spec, a: Account, items: seq<PlanItem>, c: Call) returns (it: PlanItem)
    requires PlanFor(spec, a, items) && c in Calls(items)
    ensures it in items && Wanted(spec, a, it) && c in CallsOf(it)
  {
    it := CallIsPlanned(spec, a, items, c);
  }

  lemma {:induction false} CallIsPlanned(spec: Spec, a: Account, items: seq<PlanItem>, c: Call) returns (it: PlanItem)
    requires PlanFor(spec, a, items) && c in Calls(items)
    ensures it in items && Planned(spec, a, it) && c in CallsOf(it)
  {
    CallOrigin(items, c);
    it :| it in items && c in CallsOf(it);
  }

  lemma {:induction false} WantedIsCalled(spec: Spec, a: Account, items: seq<PlanItem>, it: PlanItem, c: Call)
    requires PlanFor(spec, a, items) && Planned(spec, a, it) && c in CallsOf(it)
    ensures c in Calls(items)
  {
    CallOrigin(items, c);
  }

  lemma {:induction false} PhaseNoDup(spec: Spec, a: Account, items: seq<PlanItem>, phase: nat)
    requires WellFormed(spec) && Sound(spec.namespace, a)
    requires NoDup(items) && forall it :: it in items ==> Wanted(spec, a, it)
    ensures NoDup(PhaseCalls(items, phase))
  {
    hide WellFormed, Sound, Wanted;
    if items != [] {
      var n := |items| - 1;
      var init, last := items[..n], items[n];
      assert items == init + [last];
      assert last !in init;
      PhaseNoDup(spec, a, init, phase);
      if Phase(last) == phase {
        forall c | c in PhaseCalls(init, phase) ensures c !in CallsOf(last) {
          PhaseOrigin(init, phase, c);
          var it :| it in init && Phase(it) == phase && c in CallsOf(it);
          if c in CallsOf(last) {
            DotFree(spec);
            CallOwner(spec, a, it, last, c);
          }
        }
        NoDupConcat(PhaseCalls(init, phase), CallsOf(last));
      }
    }
  }

  lemma {:induction false} UpToNoDup(spec: Spec, a: Account, items: seq<PlanItem>, n: nat)
    requires Setting(spec, a, items)
    ensures NoDup(CallsUpTo(items, n))
  {
    hide WellFormed, Sound, Wanted, PhaseCalls;
    if n > 0 {
      var before, own := CallsUpTo(items, n - 1), PhaseCalls(items, n - 1);
      UpToNoDup(spec, a, items, n - 1);
      PhaseNoDup(spec, a, items, n - 1);
      forall c | c in before ensures c !in own {
        if c in own { OnePhasePerCall(spec, a, items, n - 1, c); }
      }
      NoDupConcat(before, own);
    }
  }

  /** No call of an earlier phase comes back in a later one. */
  lemma {:induction false} OnePhasePerCall(spec: Spec, a: Account, items: seq<PlanItem>, n: nat, c: Call)
    requires Setting(spec, a, items) && c in CallsUpTo(items, n)
    ensures c !in PhaseCalls(items, n)
  {
    hide WellFormed, Sound, Wanted, CallsOf, Phase, CallsUpTo, PhaseCalls;
    UpToOrigin(items, n, c);
    PhaseOrigin(items, n, c);
    var it :| it in items && Phase(it) < n && c in CallsOf(it);
    DotFree(spec);
    forall other | other in items && c in CallsOf(other) ensures other == it {
      CallOwner(spec, a, it, other, c);
    }
  }

  lemma {:induction false} CallsNoDup(spec: Spec, a: Account, items: seq<PlanItem>)
    requires Setting(spec, a, items)
    ensures NoDup(Calls(items))
  {
    hide Setting, NoDup, CallsUpTo;
    UpToNoDup(spec, a, items, PHASES);
  }

  /** One call per product. */
  lemma {:induction false} OneCallPerProduct(spec: Spec, a: Account, items: seq<PlanItem>, c: Call, d: Call, id: string)
    requires Setting(spec, a, items)
    requires c in Calls(items) && d in Calls(items) && Touches(c, id) && Touches(d, id)
    ensures c == d
  {
    hide WellFormed, Sound, Calls, ExistingProductKey;
    var it := CallIsWanted(spec, a, items, c);
    var other := CallIsWanted(spec, a, items, d);
    ProductItemId(spec, a, it, c, id);
    ProductItemId(spec, a, other, d, id);
  }

  /** The product a product call concerns is the one its item is about. */
  lemma {:induction false} ProductItemId(spec: Spec, a: Account, it: PlanItem, c: Call, id: string)
    requires Wanted(spec, a, it) && c in CallsOf(it) && Touches(c, id)
    ensures it.CreateProductItem? || it.UpdateProductItem? || it.UnarchiveProductItem? || it.ArchiveProductItem?
    ensures ExistingProductKey(id, spec.namespace) == it.key
    ensures it.CreateProductItem? || it.UpdateProductItem? || it.UnarchiveProductItem? ==>
              id == ProductId(spec.namespace, it.key)
  {
    if it.CreateProductItem? || it.UpdateProductItem? || it.UnarchiveProductItem? {
      SuffixIsKey(spec.namespace, it.key);
    }
  }

  /** One new price per lookup key. */
  lemma {:induction false} OneCreatePerKey(spec: Spec, a: Account, items: seq<PlanItem>, p: NewPrice, q: NewPrice)
    requires Setting(spec, a, items)
    requires CreatePrice(p) in Calls(items) && CreatePrice(q) in Calls(items) && p.lookupKey == q.lookupKey
    ensures p == q
  {
    hide WellFormed, Sound, Calls;
    var it := CallIsWanted(spec, a, items, CreatePrice(p));
    var other := CallIsWanted(spec, a, items, CreatePrice(q));
    DotFree(spec);
    PriceKeyInjective(spec.namespace, it.key, it.priceKey, spec.namespace, other.key, other.priceKey);
  }

  lemma {:induction false} PlanCalls(spec: Spec, a: Account, items: seq<PlanItem>)
    requires Setting(spec, a, items)
    ensures Deactivates(a, Calls(items)) && DistinctCreates(Calls(items)) && OldIds(a)
  {
    hide WellFormed, Calls;
    var cs := Calls(items);
    forall c | c in cs && c.SetPriceActive? ensures !c.active && c.priceId in a.prices {
      var it := CallIsWanted(spec, a, items, c);
    }
    CallsNoDup(spec, a, items);
    forall i, j | 0 <= i < j < |cs| && cs[i].CreatePrice? && cs[j].CreatePrice?
      ensures cs[i].price.lookupKey != cs[j].price.lookupKey
    {
      if cs[i].price.lookupKey == cs[j].price.lookupKey {
        assert cs[i] == CreatePrice(cs[i].price) && cs[j] == CreatePrice(cs[j].price);
        OneCreatePerKey(spec, a, items, cs[i].price, cs[j].price);
      }
    }
  }

  lemma {:induction false} PrefixCalls(spec: Spec, a: Account, items: seq<PlanItem>, n: nat)
    requires Setting(spec, a, items) && n <= |Calls(items)|
    ensures var cs := Calls(items)[..n];
            && Deactivates(a, cs) && DistinctCreates(cs) && OldIds(a)
            && forall c :: c in cs ==> c in Calls(items)
  {
    hide Setting, Calls, OldIds;
    PlanCalls(spec, a, items);
    var cs := Calls(items)[..n];
    forall c | c in cs ensures c in Calls(items) {
      var i :| 0 <= i < n && cs[i] == c;
      assert Calls(items)[i] == c;
    }
  }

  // ------------------------------------------------------- the order of calls

  /** Products are created before any price is. */
  lemma {:induction false} ProductsFirst(spec: Spec, a: Account, items: seq<PlanItem>, n: nat, p: NewProduct)
    requires Setting(spec, a, items) && n < |Calls(items)| && Calls(items)[n].CreatePrice?
    requires CreateProduct(p) in Calls(items)
    ensures CreateProduct(p) in Calls(items)[..n]
  {
    hide WellFormed, Sound, Calls, CallsUpTo, PhaseCalls;
    var first, cs := CallsUpTo(items, 1), Calls(items);
    UpToPrefix(items, 1);
    var it := CallIsWanted(spec, a, items, CreateProduct(p));
    UpToOrigin(items, 1, CreateProduct(p));
    assert n < |first| ==> cs[n] in first;
    UpToOrigin(items, 1, cs[n]);
    var i :| 0 <= i < |first| && first[i] == CreateProduct(p);
    assert cs[..n][i] == CreateProduct(p);
  }

  /** Inside the replace phase a price is deactivated right after its
      replacement was created. */
  lemma {:induction false} PairedInPhase(items: seq<PlanItem>, j: nat)
    requires j < |PhaseCalls(items, 4)| && PhaseCalls(items, 4)[j].SetPriceActive?
    ensures j > 0
    ensures exists k, pk, np :: ReplacePriceItem(k, pk, np, PhaseCalls(items, 4)[j].priceId) in items
                                && PhaseCalls(items, 4)[j - 1] == CreatePrice(np)
  {
    var n := |items| - 1;
    var init, last := items[..n], items[n];
    assert items == init + [last];
    var before := PhaseCalls(init, 4);
    if j < |before| {
      PairedInPhase(init, j);
      var k, pk, np :| ReplacePriceItem(k, pk, np, before[j].priceId) in init && before[j - 1] == CreatePrice(np);
      assert ReplacePriceItem(k, pk, np, PhaseCalls(items, 4)[j].priceId) in items;
    } else {
      assert last == ReplacePriceItem(last.key, last.priceKey, last.price, last.oldPrice);
      assert j == |before| + 1;
    }
  }

  /** A replaced price is deactivated only after its replacement exists. */
  lemma {:induction false} ReplacementFirst(spec: Spec, a: Account, items: seq<PlanItem>, n: nat, it: PlanItem)
    requires Setting(spec, a, items) && n <= |Calls(items)|
    requires it.ReplacePriceItem? && Wanted(spec, a, it)
    requires SetPriceActive(it.oldPrice, false) in Calls(items)[..n]
    ensures CreatePrice(it.price) in Calls(items)[..n]
  {
    hide WellFormed, Sound, Calls, PhaseCalls;
    var cs := Calls(items);
    var c := SetPriceActive(it.oldPrice, false);
    var j :| 0 <= j < n && cs[..n][j] == c;
    var four, before := PhaseCalls(items, 4), CallsUpTo(items, 4);
    assert CallsUpTo(items, 5) == before + four;
    UpToPrefix(items, 5);
    InReplacePhase(spec, a, items, j, it);
    assert cs[j] == four[j - |before|];
    PairedInPhase(items, j - |before|);
    var k, pk, np :| ReplacePriceItem(k, pk, np, it.oldPrice) in items && four[j - |before| - 1] == CreatePrice(np);
    DotFree(spec);
    CallOwner(spec, a, it, ReplacePriceItem(k, pk, np, it.oldPrice), c);
    assert cs[..n][j - 1] == CreatePrice(np);
  }

  lemma {:induction false} InReplacePhase(spec: Spec, a: Account, items: seq<PlanItem>, j: nat, it: PlanItem)
    requires Setting(spec, a, items) && j < |Calls(items)|
    requires it.ReplacePriceItem? && Wanted(spec, a, it)
    requires Calls(items)[j] == SetPriceActive(it.oldPrice, false)
    ensures |CallsUpTo(items, 4)| <= j < |CallsUpTo(items, 5)|
  {
    hide WellFormed, Sound, Calls, CallsUpTo;
    var cs, c := Calls(items), SetPriceActive(it.oldPrice, false);
    var upTo4, upTo5 := CallsUpTo(items, 4), CallsUpTo(items, 5);
    UpToPrefix(items, 4);
    UpToPrefix(items, 5);
    UpToOrigin(items, 4, c);
    UpToOrigin(items, 5, c);
    assert c in CallsOf(it);
    var i :| 0 <= i < |upTo5| && upTo5[i] == c;
    CallsNoDup(spec, a, items);
    assert cs[i] == cs[j];
    assert j < |upTo4| ==> c in upTo4;
  }

  // ----------------------------------------------- products and prices so far

  /** A created price is under its key from then on. */
  ghost predicate Resolves(a: Account, key: string) {
    exists q :: q in a.prices && a.prices[q].active && a.prices[q].lookupKey == key
  }

  /** The key sits on an active price with the declared values. */
  ghost predicate Settled(spec: Spec, a: Account, k: string, pk: string)
    requires Declared(spec, k, pk)
  {
    exists q :: q in a.prices && a.prices[q].lookupKey == PriceKey(spec.namespace, k, pk)
                && ChargesAsDeclared(spec.products[k].prices[pk], a.prices[q])
  }

  lemma {:induction false} CreatedIsSettled(spec: Spec, a: Account, cs: seq<Call>, k: string, pk: string,
                                            transfer: bool)
    requires Declared(spec, k, pk)
    requires OldIds(a) && Deactivates(a, cs) && DistinctCreates(cs)
    requires CreatePrice(NewPriceFor(spec, k, pk, transfer)) in cs
    ensures Settled(spec, Run(a, cs), k, pk)
  {
    var q := CreatedPrice(a, cs, NewPriceFor(spec, k, pk, transfer));
  }

  /** The item a declared price gets in the plan. */
  lemma {:induction false} PriceFate(spec: Spec, a: Account, k: string, pk: string, q: nat)
    requires Declared(spec, k, pk) && q in a.prices && a.prices[q].lookupKey == PriceKey(spec.namespace, k, pk)
    requires !ChargesAsDeclared(spec.products[k].prices[pk], a.prices[q])
    ensures Wanted(spec, a, ReplacePriceItem(k, pk, NewPriceFor(spec, k, pk, true), q))
  {
  }

  /** A declared key loses its price only to the replacement. */
  lemma {:induction false} KeyKept(spec: Spec, a: Account, items: seq<PlanItem>, n: nat, k: string, pk: string, q: nat)
    requires Setting(spec, a, items) && n <= |Calls(items)| && Declared(spec, k, pk)
    requires q in a.prices && a.prices[q].active && a.prices[q].lookupKey == PriceKey(spec.namespace, k, pk)
    ensures var s := Run(a, Calls(items)[..n]);
            || Settled(spec, s, k, pk)
            || (q in s.prices && s.prices[q] == a.prices[q])
  {
    hide WellFormed, Sound, Calls, Settled, PriceKey, LookupKeyInSpec, ChargesAsDeclared;
    var cs := Calls(items)[..n];
    var key := PriceKey(spec.namespace, k, pk);
    PrefixCalls(spec, a, items, n);
    OldPrice(a, cs, q);
    DotFree(spec);
    LookupKeyRoundTrip(spec, k, pk);
    if TakesKey(cs, key) {
      var p :| CreatePrice(p) in cs && p.transferLookupKey && p.lookupKey == key;
      CreateIsFor(spec, a, items, p, k, pk);
      CreatedIsSettled(spec, a, cs, k, pk, true);
    } else if SetPriceActive(q, false) in cs {
      var it := CallIsWanted(spec, a, items, SetPriceActive(q, false));
      assert it.ReplacePriceItem?;
      PriceKeyInjective(spec.namespace, it.key, it.priceKey, spec.namespace, k, pk);
      ReplacementFirst(spec, a, items, n, it);
      CreatedIsSettled(spec, a, cs, k, pk, true);
    }
  }

  lemma {:induction false} CreateIsFor(spec: Spec, a: Account, items: seq<PlanItem>, p: NewPrice, k: string, pk: string)
    requires Setting(spec, a, items) && CreatePrice(p) in Calls(items) && Declared(spec, k, pk)
    requires p.lookupKey == PriceKey(spec.namespace, k, pk)
    ensures p == NewPriceFor(spec, k, pk, p.transferLookupKey)
  {
    hide WellFormed, Sound, Calls;
    var it := CallIsWanted(spec, a, items, CreatePrice(p));
    DotFree(spec);
    PriceKeyInjective(spec.namespace, it.key, it.priceKey, spec.namespace, k, pk);
  }

  // -------------------------------------------------------- accepted and sound

  /** The next call of a plan is one Stripe accepts: its product exists, its id
      or key is free or being transferred. */
  lemma {:induction false} NextAccepted(spec: Spec, a: Account, items: seq<PlanItem>, n: nat)
    requires Setting(spec, a, items) && n < |Calls(items)|
    ensures Permitted(Run(a, Calls(items)[..n]), Calls(items)[n])
    ensures InNamespace(spec.namespace, Calls(items)[n])
  {
    hide WellFormed, Calls, Visited, PlanFor, Sound;
    var cs, c := Calls(items)[..n], Calls(items)[n];
    var it := CallIsWanted(spec, a, items, c);
    PrefixCalls(spec, a, items, n);
    match c
    case CreateProduct(p) =>
      SuffixIsKey(spec.namespace, it.key);
      KeyNotEmpty(spec, it.key);
      CallsNoDup(spec, a, items);
      forall i | 0 <= i < n ensures !Touches(cs[i], p.id) {
        assert cs[i] in cs && Calls(items)[i] != Calls(items)[n];
        if Touches(cs[i], p.id) { OneCallPerProduct(spec, a, items, c, cs[i], p.id); }
      }
      ProductUntouched(a, cs, p.id);
    case SetProductActive(id, _) => ProductsPersist(a, cs, id);
    case UpdateProduct(id, _, _, _) => ProductsPersist(a, cs, id);
    case SetPriceActive(q, _) => OldPrice(a, cs, q);
    case CreatePrice(p) => PriceAccepted(spec, a, items, n, it);
  }

  lemma {:induction false} KeyNotEmpty(spec: Spec, k: string)
    requires WellFormed(spec) && k in spec.products
    ensures k != ""
  {
    assert k in spec.products.Keys;
  }

  lemma {:induction false} PriceAccepted(spec: Spec, a: Account, items: seq<PlanItem>, n: nat, it: PlanItem)
    requires Setting(spec, a, items) && n < |Calls(items)| && Calls(items)[n].CreatePrice?
    requires Wanted(spec, a, it) && Calls(items)[n] in CallsOf(it)
    ensures Permitted(Run(a, Calls(items)[..n]), Calls(items)[n])
  {
    hide WellFormed, Sound, Calls;
    var cs, p := Calls(items)[..n], Calls(items)[n].price;
    var s := Run(a, cs);
    var id := ProductId(spec.namespace, it.key);
    PrefixCalls(spec, a, items, n);
    if id in a.products {
      ProductsPersist(a, cs, id);
    } else {
      var np := NewProductFor(spec, it.key);
      WantedIsCalled(spec, a, items, CreateProductItem(it.key, np), CreateProduct(np));
      ProductsFirst(spec, a, items, n, np);
      CreatedPersists(a, cs, np);
    }
    forall q | q in s.prices && !p.transferLookupKey ensures s.prices[q].lookupKey != p.lookupKey {
      if q in a.prices {
        OldPrice(a, cs, q);
      } else {
        var r := PriceOrigin(a, cs, q);
        var i :| 0 <= i < n && cs[i] == CreatePrice(r);
        PlanCalls(spec, a, items);
        assert Calls(items)[i].price.lookupKey != Calls(items)[n].price.lookupKey;
      }
    }
  }

  lemma {:induction false} CreatedPersists(a: Account, cs: seq<Call>, p: NewProduct)
    requires CreateProduct(p) in cs
    ensures p.id in Run(a, cs).products
  {
    var n := |cs| - 1;
    assert cs == cs[..n] + [cs[n]];
    if cs[n] != CreateProduct(p) {
      CreatedPersists(a, cs[..n], p);
    }
  }

  /** After any number of calls the account is sound: keys unique, every price on
      an existing product. */
  lemma {:induction false} PrefixSound(spec: Spec, a: Account, items: seq<PlanItem>, n: nat)
    requires Setting(spec, a, items) && n <= |Calls(items)|
    ensures Sound(spec.namespace, Run(a, Calls(items)[..n]))
  {
    hide WellFormed, Calls, PlanFor, Exec, Permitted, InNamespace;
    if n > 0 {
      PrefixSound(spec, a, items, n - 1);
      NextAccepted(spec, a, items, n - 1);
      var cs := Calls(items)[..n];
      assert cs[..n - 1] == Calls(items)[..n - 1];
      ExecSound(spec.namespace, Run(a, cs[..n - 1]), cs[n - 1]);
    }
  }

  // ------------------------------------------------------------------- safety

  /** No declared product or price is worse off than before. */
  ghost predicate Safe(spec: Spec, a: Account, s: Account) {
    && Sound(spec.namespace, s)
    && (forall k :: k in spec.products && ProductId(spec.namespace, k) in a.products
                    && a.products[ProductId(spec.namespace, k)].active ==>
          ProductId(spec.namespace, k) in s.products && s.products[ProductId(spec.namespace, k)].active)
    && (forall k, pk :: Declared(spec, k, pk) && Resolves(a, PriceKey(spec.namespace, k, pk)) ==>
          Resolves(s, PriceKey(spec.namespace, k, pk)))
    && (forall q :: q in a.prices && a.prices[q].active ==>
          q in s.prices && (s.prices[q].active || Replaced(spec, a.prices[q].lookupKey, s)))
  }

  /** Deactivating a price with this key is right: nobody declares it, or its
      declared replacement is already active. */
  ghost predicate Replaced(spec: Spec, key: string, s: Account) {
    match LookupKeyInSpec(spec, key)
    case None => true
    case Some((k, pk)) => Settled(spec, s, k, pk)
  }

  lemma {:induction false} ProductStaysActive(spec: Spec, a: Account, items: seq<PlanItem>, n: nat, k: string)
    requires Setting(spec, a, items) && n <= |Calls(items)|
    requires k in spec.products && ProductId(spec.namespace, k) in a.products
    requires a.products[ProductId(spec.namespace, k)].active
    ensures var s := Run(a, Calls(items)[..n]);
            ProductId(spec.namespace, k) in s.products && s.products[ProductId(spec.namespace, k)].active
  {
    hide WellFormed, Sound, Calls, ExistingProductKey, ProductId;
    var cs, id := Calls(items)[..n], ProductId(spec.namespace, k);
    PrefixCalls(spec, a, items, n);
    SuffixIsKey(spec.namespace, k);
    if c :| c in cs && Touches(c, id) {
      forall d | d in cs && Touches(d, id) ensures d == c { OneCallPerProduct(spec, a, items, c, d, id); }
      var it := CallIsWanted(spec, a, items, c);
      ProductItemId(spec, a, it, c, id);
      ProductTouched(a, cs, c, id);
    } else {
      ProductUntouched(a, cs, id);
    }
  }

  lemma {:induction false} PriceStaysUsable(spec: Spec, a: Account, items: seq<PlanItem>, n: nat, q: nat)
    requires Setting(spec, a, items) && n <= |Calls(items)| && q in a.prices && a.prices[q].active
    ensures var s := Run(a, Calls(items)[..n]);
            q in s.prices && (s.prices[q].active || Replaced(spec, a.prices[q].lookupKey, s))
  {
    PrefixCalls(spec, a, items, n);
    OldPrice(a, Calls(items)[..n], q);
    match LookupKeyInSpec(spec, a.prices[q].lookupKey)
    case None =>
    case Some((k, pk)) =>
      DotFree(spec);
      LookupKeyRoundTrip(spec, k, pk);
      KeyKept(spec, a, items, n, k, pk, q);
  }

  /** Apply is safe at every prefix: after any number of backend calls the account
      is sound, the next call will be accepted, no declared product or price has
      been deactivated without an active replacement, and every declared key that
      resolved still resolves. */
  lemma {:induction false} EveryPrefixIsSafe(spec: Spec, a: Account, items: seq<PlanItem>, n: nat)
    requires Setting(spec, a, items) && n <= |Calls(items)|
    ensures Safe(spec, a, Run(a, Calls(items)[..n]))
    ensures n < |Calls(items)| ==> Permitted(Run(a, Calls(items)[..n]), Calls(items)[n])
  {
    var s := Run(a, Calls(items)[..n]);
    PrefixSound(spec, a, items, n);
    if n < |Calls(items)| { NextAccepted(spec, a, items, n); }
    forall k | k in spec.products && ProductId(spec.namespace, k) in a.products
               && a.products[ProductId(spec.namespace, k)].active
      ensures ProductId(spec.namespace, k) in s.products && s.products[ProductId(spec.namespace, k)].active
    {
      ProductStaysActive(spec, a, items, n, k);
    }
    forall k, pk | Declared(spec, k, pk) && Resolves(a, PriceKey(spec.namespace, k, pk))
      ensures Resolves(s, PriceKey(spec.namespace, k, pk))
    {
      var q :| q in a.prices && a.prices[q].active && a.prices[q].lookupKey == PriceKey(spec.namespace, k, pk);
      KeyKept(spec, a, items, n, k, pk, q);
    }
    forall q | q in a.prices && a.prices[q].active
      ensures q in s.prices && (s.prices[q].active || Replaced(spec, a.prices[q].lookupKey, s))
    {
      PriceStaysUsable(spec, a, items, n, q);
    }
  }

  // -------------------------------------------------------------- convergence

  ghost predicate ProductsActive(spec: Spec, s: Account) {
    forall k :: k in spec.products ==>
      ProductId(spec.namespace, k) in s.products && s.products[ProductId(spec.namespace, k)].active
  }

  ghost predicate PricesSettled(spec: Spec, s: Account) {
    forall k, pk :: Declared(spec, k, pk) ==> Settled(spec, s, k, pk)
  }

  /** Active, but in no declaration. */
  predicate StrayProduct(spec: Spec, s: Account, id: string) {
    id in s.products && s.products[id].active && ExistingProductKey(id, spec.namespace) !in spec.products
  }

  predicate StrayPrice(spec: Spec, s: Account, q: nat) {
    q in s.prices && s.prices[q].active && !DeclaredKey(spec, s.prices[q].lookupKey)
  }

  ghost predicate NothingElse(spec: Spec, s: Account) {
    (forall id :: !StrayProduct(spec, s, id)) && (forall q :: !StrayPrice(spec, s, q))
  }

  /** The strays of s are those of a whose product a walk over v does not visit,
      and they are as they were. */
  ghost predicate StraysAre(spec: Spec, s: Account, a: Account, v: Account) {
    && (forall id :: StrayProduct(spec, s, id) <==> StrayProduct(spec, a, id) && !Visited(spec.namespace, v, id))
    && (forall q :: StrayPrice(spec, s, q) <==>
          StrayPrice(spec, a, q) && !Visited(spec.namespace, v, a.prices[q].productId))
    && (forall id :: StrayProduct(spec, s, id) ==> s.products[id] == a.products[id])
    && (forall q :: StrayPrice(spec, s, q) ==> s.prices[q] == a.prices[q])
  }

  /** The products of s are those of a and the declared ones. */
  ghost predicate ProductsAre(spec: Spec, s: Account, a: Account) {
    forall id :: id in s.products <==>
      id in a.products || exists k :: k in spec.products && id == ProductId(spec.namespace, k)
  }

  /** Everything declared is active with the declared prices. */
  ghost predicate DeclaredInSync(spec: Spec, s: Account) {
    ProductsActive(spec, s) && PricesSettled(spec, s)
  }

  /** And nothing else is. */
  ghost predicate InSync(spec: Spec, s: Account) {
    DeclaredInSync(spec, s) && NothingElse(spec, s)
  }

  /** The record a round leaves for a declared product. */
  ghost function RoundRecord(spec: Spec, a: Account, k: string): ProductRecord
    requires k in spec.products
  {
    var id, np := ProductId(spec.namespace, k), NewProductFor(spec, k);
    if id !in a.products then FreshProduct(np)
    else if !a.products[id].active then a.products[id].(active := true)
    else if !ReadsAsDeclared(spec.products[k], a.products[id])
      then Updated(a.products[id], np.name, np.description, np.metadata)
    else a.products[id]
  }

  lemma {:induction false} RoundProduct(spec: Spec, a: Account, items: seq<PlanItem>, k: string)
    requires Setting(spec, a, items) && k in spec.products
    ensures ProductId(spec.namespace, k) in Run(a, Calls(items)).products
    ensures Run(a, Calls(items)).products[ProductId(spec.namespace, k)] == RoundRecord(spec, a, k)
    ensures RoundRecord(spec, a, k).active
  {
    hide WellFormed, Sound, Calls, Visited, ExistingProductKey, ProductId;
    var cs, id, np := Calls(items), ProductId(spec.namespace, k), NewProductFor(spec, k);
    SuffixIsKey(spec.namespace, k);
    if id in a.products && a.products[id].active && ReadsAsDeclared(spec.products[k], a.products[id]) {
      forall c | c in cs ensures !Touches(c, id) {
        var it := CallIsWanted(spec, a, items, c);
        if Touches(c, id) {
          ProductItemId(spec, a, it, c, id);
        }
      }
      ProductUntouched(a, cs, id);
    } else {
      var it :=
        if id !in a.products then CreateProductItem(k, np)
        else if !a.products[id].active then UnarchiveProductItem(k, id)
        else UpdateProductItem(k, np);
      var c := CallsOf(it)[0];
      WantedIsCalled(spec, a, items, it, c);
      forall d | d in cs && Touches(d, id) ensures d == c { OneCallPerProduct(spec, a, items, c, d, id); }
      ProductTouched(a, cs, c, id);
    }
  }

  lemma {:induction false} RoundPrice(spec: Spec, a: Account, items: seq<PlanItem>, k: string, pk: string)
    requires Setting(spec, a, items) && Declared(spec, k, pk)
    ensures Settled(spec, Run(a, Calls(items)), k, pk)
  {
    hide WellFormed, Sound, Calls, Visited;
    var cs, key := Calls(items), PriceKey(spec.namespace, k, pk);
    PlanCalls(spec, a, items);
    if q :| q in a.prices && a.prices[q].lookupKey == key {
      if !ChargesAsDeclared(spec.products[k].prices[pk], a.prices[q]) {
        var np := NewPriceFor(spec, k, pk, true);
        PriceFate(spec, a, k, pk, q);
        WantedIsCalled(spec, a, items, ReplacePriceItem(k, pk, np, q), CreatePrice(np));
        CreatedIsSettled(spec, a, cs, k, pk, true);
      } else {
        assert cs[..|cs|] == cs;
        KeyKept(spec, a, items, |cs|, k, pk, q);
      }
    } else {
      var np := NewPriceFor(spec, k, pk, false);
      WantedIsCalled(spec, a, items, CreatePriceItem(k, pk, np), CreatePrice(np));
      CreatedIsSettled(spec, a, cs, k, pk, false);
    }
  }

  /** What a round creates carries the declared values under the namespaced id and
      key: the product if there was none, and every price it makes. */
  lemma {:induction false} RoundCreatesAsDeclared(spec: Spec, a: Account, items: seq<PlanItem>, k: string)
    requires Setting(spec, a, items) && k in spec.products && "prod_" + spec.namespace + "_" + k !in a.products
    ensures var s, id, p := Run(a, Calls(items)), "prod_" + spec.namespace + "_" + k, spec.products[k];
            id in s.products && s.products[id] ==
              ProductRecord(p.name, p.description, p.taxCategory, true, p.metadata["app_namespace" := spec.namespace])
  {
    hide Setting, Calls, Run;
    RoundProduct(spec, a, items, k);
  }

  lemma {:induction false} RoundPricesAsDeclared(spec: Spec, a: Account, items: seq<PlanItem>, q: nat)
    requires Setting(spec, a, items) && q in Run(a, Calls(items)).prices && q !in a.prices
    ensures exists k, pk :: Declared(spec, k, pk) && MadeFor(spec, k, pk, Run(a, Calls(items)).prices[q])
  {
    hide WellFormed, Sound, Calls, Run;
    PlanCalls(spec, a, items);
    var p := PriceOrigin(a, Calls(items), q);
    var it := CallIsWanted(spec, a, items, CreatePrice(p));
    assert MadeFor(spec, it.key, it.priceKey, Run(a, Calls(items)).prices[q]);
  }

  predicate MadeFor(spec: Spec, k: string, pk: string, r: PriceRecord)
    requires Declared(spec, k, pk)
  {
    var p := spec.products[k].prices[pk];
    r == PriceRecord("prod_" + spec.namespace + "_" + k, spec.namespace + "." + k + "." + pk, true,
                     p.amount, p.currency, p.kind, p.interval, p.intervalCount)
  }

  /** The round archives an undeclared product exactly when Diff visits it, and
      brings no new one. */
  lemma {:induction false} RoundRetiresProduct(spec: Spec, a: Account, items: seq<PlanItem>, id: string)
    requires Setting(spec, a, items)
    ensures StrayProduct(spec, Run(a, Calls(items)), id) <==>
              StrayProduct(spec, a, id) && !Visited(spec.namespace, a, id)
    ensures StrayProduct(spec, Run(a, Calls(items)), id) ==> Run(a, Calls(items)).products[id] == a.products[id]
  {
    hide WellFormed, Sound, Calls, ExistingProductKey, Visited;
    var cs, k := Calls(items), ExistingProductKey(id, spec.namespace);
    if k !in spec.products {
      if StrayProduct(spec, a, id) && Visited(spec.namespace, a, id) {
        var c := SetProductActive(id, false);
        WantedIsCalled(spec, a, items, ArchiveProductItem(k, id), c);
        forall d | d in cs && Touches(d, id) ensures d == c { OneCallPerProduct(spec, a, items, c, d, id); }
        ProductTouched(a, cs, c, id);
      } else {
        forall c | c in cs ensures !Touches(c, id) {
          var it := CallIsPlanned(spec, a, items, c);
          if Touches(c, id) { ProductItemId(spec, a, it, c, id); }
        }
        ProductUntouched(a, cs, id);
      }
    }
  }

  /** Likewise for undeclared prices: they go with the product they hang on. */
  lemma {:induction false} RoundRetiresPrice(spec: Spec, a: Account, items: seq<PlanItem>, q: nat)
    requires Setting(spec, a, items)
    ensures StrayPrice(spec, Run(a, Calls(items)), q) <==>
              StrayPrice(spec, a, q) && !Visited(spec.namespace, a, a.prices[q].productId)
    ensures StrayPrice(spec, Run(a, Calls(items)), q) ==> Run(a, Calls(items)).prices[q] == a.prices[q]
  {
    hide WellFormed, Calls, LookupKeyInSpec, Run, ChargesAsDeclared, Visited;
    var cs, s := Calls(items), Run(a, Calls(items));
    PlanCalls(spec, a, items);
    DotFree(spec);
    if q in a.prices {
      OldPrice(a, cs, q);
      if StrayPrice(spec, a, q) {
        StrayPriceFate(spec, a, items, q);
      } else if TakesKey(cs, a.prices[q].lookupKey) {
        var p :| CreatePrice(p) in cs && p.transferLookupKey && p.lookupKey == a.prices[q].lookupKey;
        var it := CallIsWanted(spec, a, items, CreatePrice(p));
        assert it.oldPrice == q;
        WantedIsCalled(spec, a, items, it, SetPriceActive(q, false));
      }
    } else if q in s.prices {
      var p := PriceOrigin(a, cs, q);
      var it := CallIsWanted(spec, a, items, CreatePrice(p));
      LookupKeyRoundTrip(spec, it.key, it.priceKey);
    }
  }

  /** No call takes the key of an undeclared price; the one call that deactivates
      it is there exactly when its product is visited. */
  lemma {:induction false} StrayPriceFate(spec: Spec, a: Account, items: seq<PlanItem>, q: nat)
    requires Setting(spec, a, items) && StrayPrice(spec, a, q)
    ensures !TakesKey(Calls(items), a.prices[q].lookupKey)
    ensures SetPriceActive(q, false) in Calls(items) <==> Visited(spec.namespace, a, a.prices[q].productId)
  {
    hide WellFormed, Sound, Calls, LookupKeyInSpec, ChargesAsDeclared, Visited;
    DotFree(spec);
    if p :| CreatePrice(p) in Calls(items) && p.transferLookupKey && p.lookupKey == a.prices[q].lookupKey {
      var it := CallIsWanted(spec, a, items, CreatePrice(p));
      LookupKeyRoundTrip(spec, it.key, it.priceKey);
    }
    if Visited(spec.namespace, a, a.prices[q].productId) {
      WantedIsCalled(spec, a, items, ArchivePriceItem(q), SetPriceActive(q, false));
    }
    if SetPriceActive(q, false) in Calls(items) {
      var it := CallIsPlanned(spec, a, items, SetPriceActive(q, false));
      ReplacedIsDeclared(spec, a, it);
    }
  }

  /** One complete round brings everything declared in sync, apart from the texts
      of products it had to reactivate.  What is not declared and was active is
      archived exactly where Diff visits its product. */
  lemma {:induction false} OneRound(spec: Spec, a: Account, items: seq<PlanItem>)
    requires Setting(spec, a, items)
    ensures var s := Run(a, Calls(items));
            && Sound(spec.namespace, s) && DeclaredInSync(spec, s)
            && StraysAre(spec, s, a, a) && ProductsAre(spec, s, a)
            && forall k :: k in spec.products ==> s.products[ProductId(spec.namespace, k)] == RoundRecord(spec, a, k)
  {
    hide Setting, Calls, Sound, Settled, StrayProduct, StrayPrice, Declared, PriceKey, RoundRecord, ProductId, Visited;
    var s := Run(a, Calls(items));
    assert Calls(items)[..|Calls(items)|] == Calls(items);
    PrefixSound(spec, a, items, |Calls(items)|);
    forall k | k in spec.products
      ensures ProductId(spec.namespace, k) in s.products
      ensures s.products[ProductId(spec.namespace, k)] == RoundRecord(spec, a, k)
      ensures RoundRecord(spec, a, k).active
    {
      RoundProduct(spec, a, items, k);
    }
    forall k, pk | Declared(spec, k, pk) ensures Settled(spec, s, k, pk) { RoundPrice(spec, a, items, k, pk); }
    RoundStrays(spec, a, items);
    RoundProducts(spec, a, items);
  }

  lemma {:induction false} RoundProducts(spec: Spec, a: Account, items: seq<PlanItem>)
    requires Setting(spec, a, items)
    ensures ProductsAre(spec, Run(a, Calls(items)), a)
  {
    hide WellFormed, Sound, Calls, ProductId, RoundRecord;
    var cs := Calls(items);
    forall k | k in spec.products ensures ProductId(spec.namespace, k) in Run(a, cs).products {
      RoundProduct(spec, a, items, k);
    }
    forall id | id in a.products ensures id in Run(a, cs).products { ProductsPersist(a, cs, id); }
    forall id | id in Run(a, cs).products && id !in a.products
      ensures exists k :: k in spec.products && id == ProductId(spec.namespace, k)
    {
      if c :| c in cs && Touches(c, id) {
        var it := CallIsWanted(spec, a, items, c);
        ProductItemId(spec, a, it, c, id);
      } else {
        ProductUntouched(a, cs, id);
      }
    }
  }

  lemma {:induction false} RoundStrays(spec: Spec, a: Account, items: seq<PlanItem>)
    requires Setting(spec, a, items)
    ensures StraysAre(spec, Run(a, Calls(items)), a, a)
  {
    hide Setting, Calls, Run, Visited;
    var s := Run(a, Calls(items));
    forall id
      ensures StrayProduct(spec, s, id) <==> StrayProduct(spec, a, id) && !Visited(spec.namespace, a, id)
      ensures StrayProduct(spec, s, id) ==> s.products[id] == a.products[id]
    {
      RoundRetiresProduct(spec, a, items, id);
    }
    forall q
      ensures StrayPrice(spec, s, q) <==>
                StrayPrice(spec, a, q) && !Visited(spec.namespace, a, a.prices[q].productId)
      ensures StrayPrice(spec, s, q) ==> s.prices[q] == a.prices[q]
    {
      RoundRetiresPrice(spec, a, items, q);
    }
  }

  /** In a namespace without an underscore nothing undeclared is left. */
  lemma {:induction false} PlainNamespaceIsClean(spec: Spec, s: Account, a: Account)
    requires '_' !in spec.namespace && Sound(spec.namespace, a) && StraysAre(spec, s, a, a)
    ensures NothingElse(spec, s)
  {
    hide Visited, ExistingProductKey;
    forall id ensures !StrayProduct(spec, s, id) {
      if StrayProduct(spec, s, id) { PlainNamespaceVisitsAll(spec.namespace, a, id); }
    }
    forall q ensures !StrayPrice(spec, s, q) {
      if StrayPrice(spec, s, q) { PlainNamespaceVisitsAll(spec.namespace, a, a.prices[q].productId); }
    }
  }

  /** Where everything declared is in sync, only product texts can be wanted, and
      the archiving of what is not declared. */
  lemma {:induction false} OnlyUpdatesRemain(spec: Spec, s: Account, it: PlanItem)
    requires Sound(spec.namespace, s) && DeclaredInSync(spec, s)
    ensures Wanted(spec, s, it) ==> it.UpdateProductItem? || ArchiveItem(it)
  {
    hide Sound, ExistingProductKey, ProductId, PriceKey, LookupKeyInSpec, NewPriceFor, NewProductFor;
    hide ChargesAsDeclared, Settled;
    if it.CreatePriceItem? || it.ReplacePriceItem? {
      assert Declared(spec, it.key, it.priceKey) ==> Settled(spec, s, it.key, it.priceKey);
      SettledIsKept(spec, s, it);
    }
  }

  lemma {:induction false} SettledIsKept(spec: Spec, s: Account, it: PlanItem)
    requires Sound(spec.namespace, s) && (it.CreatePriceItem? || it.ReplacePriceItem?)
    requires Declared(spec, it.key, it.priceKey) ==> Settled(spec, s, it.key, it.priceKey)
    ensures !Wanted(spec, s, it)
  {
    if Declared(spec, it.key, it.priceKey) {
      var key := PriceKey(spec.namespace, it.key, it.priceKey);
      assert key != "";
      var r :| r in s.prices && s.prices[r].lookupKey == key
               && ChargesAsDeclared(spec.products[it.key].prices[it.priceKey], s.prices[r]);
      assert it.ReplacePriceItem? && it.oldPrice in s.prices && it.oldPrice != r ==>
        s.prices[it.oldPrice].lookupKey != key;
    }
  }

  /** The spec drops a description that Stripe still has; updates skip empty
      fields, so this one difference cannot be removed. */
  predicate Blanked(spec: Spec, a: Account, k: string) {
    && k in spec.products && spec.products[k].description == ""
    && ProductId(spec.namespace, k) in a.products && a.products[ProductId(spec.namespace, k)].description != ""
  }

  predicate WasArchived(spec: Spec, a: Account, k: string) {
    ProductId(spec.namespace, k) in a.products && !a.products[ProductId(spec.namespace, k)].active
  }

  lemma {:induction false} TextsAfterRound(spec: Spec, a: Account, s: Account, k: string)
    requires WellFormed(spec) && k in spec.products
    requires ProductId(spec.namespace, k) in s.products
    requires s.products[ProductId(spec.namespace, k)] == RoundRecord(spec, a, k)
    ensures !ReadsAsDeclared(spec.products[k], s.products[ProductId(spec.namespace, k)]) ==>
              Blanked(spec, a, k) || WasArchived(spec, a, k)
  {
    hide WellFormed, ProductId;
    DeclaredName(spec, k);
  }

  lemma {:induction false} DeclaredName(spec: Spec, k: string)
    requires WellFormed(spec) && k in spec.products
    ensures spec.products[k].name != ""
  {
    assert ProductOk(spec.products[k]);
  }

  lemma {:induction false} TextsAfterTwoRounds(spec: Spec, a: Account, s: Account, t: Account, k: string)
    requires WellFormed(spec) && k in spec.products
    requires ProductId(spec.namespace, k) in s.products && ProductId(spec.namespace, k) in t.products
    requires s.products[ProductId(spec.namespace, k)] == RoundRecord(spec, a, k)
    requires t.products[ProductId(spec.namespace, k)] == RoundRecord(spec, s, k)
    requires s.products[ProductId(spec.namespace, k)].active
    ensures var r := t.products[ProductId(spec.namespace, k)];
            r.name == spec.products[k].name && (r.description == spec.products[k].description <==> !Blanked(spec, a, k))
  {
    hide WellFormed, ProductId;
    DeclaredName(spec, k);
  }

  /** The account after a complete run of Apply. */
  ghost function After(a: Account, items: seq<PlanItem>): Account {
    Run(a, Calls(items))
  }

  /** What a second plan may still hold: updates of texts, of products the first
      round reactivated and of products whose description the spec blanks out, and
      the archiving of what the first round did not visit. */
  ghost predicate OnlyRest(spec: Spec, a: Account, s: Account, items: seq<PlanItem>) {
    forall it :: it in items ==>
      || (it.UpdateProductItem? && (Blanked(spec, a, it.key) || WasArchived(spec, a, it.key)))
      || (ArchiveItem(it) && !Visited(spec.namespace, a, OwnerOf(s, it)))
  }

  lemma {:induction false} SecondPlan(spec: Spec, a: Account, items: seq<PlanItem>, items': seq<PlanItem>)
    requires Setting(spec, a, items) && PlanFor(spec, After(a, items), items')
    ensures Setting(spec, After(a, items), items') && OnlyRest(spec, a, After(a, items), items')
  {
    hide Sound, DeclaredInSync, StraysAre, ProductsAre, Calls, Blanked, WasArchived, RoundRecord, WellFormed, Visited;
    hide ReadsAsDeclared, OwnerOf;
    var s := After(a, items);
    OneRound(spec, a, items);
    forall it | it in items'
      ensures || (it.UpdateProductItem? && (Blanked(spec, a, it.key) || WasArchived(spec, a, it.key)))
              || (ArchiveItem(it) && !Visited(spec.namespace, a, OwnerOf(s, it)))
    {
      OnlyUpdatesRemain(spec, s, it);
      if ArchiveItem(it) {
        LeftIsUnvisited(spec, s, a, a, it);
      } else {
        TextsAfterRound(spec, a, s, it.key);
      }
    }
  }

  /** An archive item that is still wanted belongs to a product not visited. */
  lemma {:induction false} LeftIsUnvisited(spec: Spec, s: Account, a: Account, v: Account, it: PlanItem)
    requires StraysAre(spec, s, a, v) && ArchiveItem(it) && Wanted(spec, s, it)
    ensures !Visited(spec.namespace, v, OwnerOf(s, it))
  {
    hide Visited, ExistingProductKey, LookupKeyInSpec;
    if it.ArchiveProductItem? {
      assert StrayProduct(spec, s, it.id);
    } else {
      assert StrayPrice(spec, s, it.oldPrice);
    }
  }

  lemma {:induction false} VisitedGrows(spec: Spec, s: Account, a: Account, id: string)
    requires ProductsAre(spec, s, a)
    ensures Visited(spec.namespace, a, id) ==> Visited(spec.namespace, s, id)
  {
    if Visited(spec.namespace, a, id) {
      var other := VisitedBy(spec.namespace, a, id);
      VisitedFrom(spec.namespace, s, id, other);
    }
  }

  /** A second round finds the same products, with all declared ones among them. */
  lemma {:induction false} VisitedSettles(spec: Spec, t: Account, s: Account, id: string)
    requires ProductsAre(spec, t, s) && ProductsActive(spec, s)
    ensures Visited(spec.namespace, t, id) <==> Visited(spec.namespace, s, id)
  {
    hide StripeProductSuffix, ExistingProductKey, ProductId;
    VisitedGrows(spec, t, s, id);
  }

  lemma {:induction false} StraysOfTwoRounds(spec: Spec, a: Account, s: Account, t: Account)
    requires StraysAre(spec, s, a, a) && ProductsAre(spec, s, a) && StraysAre(spec, t, s, s)
    ensures StraysAre(spec, t, a, s)
  {
    hide Visited, StrayProduct;
    forall id ensures Visited(spec.namespace, a, id) ==> Visited(spec.namespace, s, id) {
      VisitedGrows(spec, s, a, id);
    }
  }

  /** Declared texts, with the one exception updates cannot reach. */
  ghost predicate TextsDeclared(spec: Spec, a: Account, t: Account) {
    forall k :: k in spec.products ==>
      && ProductId(spec.namespace, k) in t.products
      && t.products[ProductId(spec.namespace, k)].name == spec.products[k].name
      && (t.products[ProductId(spec.namespace, k)].description == spec.products[k].description <==>
          !Blanked(spec, a, k))
  }

  lemma {:induction false} SecondRound(spec: Spec, a: Account, items: seq<PlanItem>, items': seq<PlanItem>)
    requires Setting(spec, a, items) && Setting(spec, After(a, items), items')
    ensures var s, t := After(a, items), After(After(a, items), items');
            && DeclaredInSync(spec, s) && StraysAre(spec, s, a, a) && ProductsAre(spec, s, a)
            && DeclaredInSync(spec, t) && StraysAre(spec, t, a, s) && ProductsAre(spec, t, s)
            && Sound(spec.namespace, t) && TextsDeclared(spec, a, t)
  {
    hide Sound, Calls, Blanked, RoundRecord, WellFormed, PlanFor, PricesSettled, StraysAre, ProductsAre, ProductId, Run;
    var s, t := After(a, items), After(After(a, items), items');
    OneRound(spec, a, items);
    OneRound(spec, s, items');
    StraysOfTwoRounds(spec, a, s, t);
    forall k | k in spec.products
      ensures && ProductId(spec.namespace, k) in t.products
              && t.products[ProductId(spec.namespace, k)].name == spec.products[k].name
              && (t.products[ProductId(spec.namespace, k)].description == spec.products[k].description <==>
                  !Blanked(spec, a, k))
    {
      TextsAfterTwoRounds(spec, a, s, t, k);
    }
  }

  /** A further plan is empty exactly when the spec blanks out no description. */
  lemma {:induction false} ThirdPlan(spec: Spec, a: Account, s: Account, t: Account, items: seq<PlanItem>)
    requires Sound(spec.namespace, t) && DeclaredInSync(spec, t) && TextsDeclared(spec, a, t) && PlanFor(spec, t, items)
    requires ProductsActive(spec, s) && ProductsAre(spec, t, s) && StraysAre(spec, t, a, s)
    ensures items == [] <==> forall k :: !Blanked(spec, a, k)
  {
    hide Sound, DeclaredInSync, TextsDeclared, Wanted, Blanked, ProductsActive, ProductsAre, StraysAre;
    if k :| Blanked(spec, a, k) {
      BlankedIsWanted(spec, a, t, k);
    } else {
      assert |items| == 0 || items[0] in items;
      forall it ensures !Planned(spec, t, it) { NothingPlanned(spec, a, s, t, it); }
    }
  }

  lemma {:induction false} NothingPlanned(spec: Spec, a: Account, s: Account, t: Account, it: PlanItem)
    requires Sound(spec.namespace, t) && DeclaredInSync(spec, t) && TextsDeclared(spec, a, t)
    requires ProductsActive(spec, s) && ProductsAre(spec, t, s) && StraysAre(spec, t, a, s)
    requires forall k :: !Blanked(spec, a, k)
    ensures !Planned(spec, t, it)
  {
    hide Sound, DeclaredInSync, ProductId, NewProductFor, Visited, ProductsAre, StraysAre, ProductsActive;
    OnlyUpdatesRemain(spec, t, it);
    if ArchiveItem(it) && Wanted(spec, t, it) {
      LeftIsUnvisited(spec, t, a, s, it);
      VisitedSettles(spec, t, s, OwnerOf(t, it));
    }
  }

  lemma {:induction false} BlankedIsWanted(spec: Spec, a: Account, t: Account, k: string)
    requires DeclaredInSync(spec, t) && TextsDeclared(spec, a, t) && Blanked(spec, a, k)
    ensures k in spec.products && Planned(spec, t, UpdateProductItem(k, NewProductFor(spec, k)))
  {
    hide PricesSettled, ProductId, NewProductFor;
  }

  /** Convergence: from any sound account, in any namespace, two rounds of Diff and
      Apply reach the declared catalog.  After the first round only texts remain,
      and what it did not visit; after the second a third Diff is empty, exactly
      when the spec does not blank out a description.  Undeclared things stay
      active exactly when no product of the account or the spec makes Diff visit
      them; in a namespace without an underscore none does. */
  lemma {:induction false} TwoRoundsConverge(spec: Spec, a: Account, items: seq<PlanItem>, items': seq<PlanItem>,
                                             items'': seq<PlanItem>)
    requires Setting(spec, a, items)
    requires PlanFor(spec, After(a, items), items')
    requires PlanFor(spec, After(After(a, items), items'), items'')
    ensures var s, t := After(a, items), After(After(a, items), items');
            && DeclaredInSync(spec, s) && ProductsAre(spec, s, a) && OnlyRest(spec, a, s, items')
            && DeclaredInSync(spec, t) && TextsDeclared(spec, a, t) && StraysAre(spec, t, a, s)
            && ('_' !in spec.namespace ==> NothingElse(spec, s) && NothingElse(spec, t))
    ensures items'' == [] <==> forall k :: !Blanked(spec, a, k)
  {
    hide Sound, WellFormed, PlanFor, PricesSettled, ProductsActive, StraysAre, ProductsAre, After, TextsDeclared;
    hide OnlyRest, Blanked, NothingElse;
    var s, t := After(a, items), After(After(a, items), items');
    SecondPlan(spec, a, items, items');
    SecondRound(spec, a, items, items');
    ThirdPlan(spec, a, s, t, items'');
    if '_' !in spec.namespace {
      PlainNamespaceIsClean(spec, s, a);
      StaysClean(spec, s, t, a);
    }
  }

  lemma {:induction false} StaysClean(spec: Spec, s: Account, t: Account, a: Account)
    requires StraysAre(spec, s, a, a) && ProductsAre(spec, s, a) && StraysAre(spec, t, a, s) && NothingElse(spec, s)
    ensures NothingElse(spec, t)
  {
    hide Visited, StrayProduct;
    forall id ensures Visited(spec.namespace, a, id) ==> Visited(spec.namespace, s, id) {
      VisitedGrows(spec, s, a, id);
    }
  }

  /** Restart: a run that stopped after any number of calls leaves an account from
      which syncing converges just the same. */
  lemma {:induction false} RestartConverges(spec: Spec, a: Account, items: seq<PlanItem>, n: nat, items': seq<PlanItem>)
    requires Setting(spec, a, items) && n <= |Calls(items)|
    requires PlanFor(spec, Run(a, Calls(items)[..n]), items')
    ensures var s := Run(a, Calls(items)[..n]);
            && Setting(spec, s, items') && DeclaredInSync(spec, After(s, items'))
            && StraysAre(spec, After(s, items'), s, s)
            && ('_' !in spec.namespace ==> InSync(spec, After(s, items')))
  {
    hide Calls, PlanFor, WellFormed, Sound, DeclaredInSync, StraysAre, NothingElse;
    var s := Run(a, Calls(items)[..n]);
    PrefixSound(spec, a, items, n);
    OneRound(spec, s, items');
    if '_' !in spec.namespace { PlainNamespaceIsClean(spec, After(s, items'), s); }
  }

  /** The orphan: a replaced price whose deactivation was lost has no key any more.
      The next round archives it exactly when Diff visits its product. */
  lemma {:induction false} OrphanIsArchivedIff(spec: Spec, a: Account, items: seq<PlanItem>, n: nat, it: PlanItem,
                                               items': seq<PlanItem>)
    requires Setting(spec, a, items) && n <= |Calls(items)|
    requires it in items && it.ReplacePriceItem? && CreatePrice(it.price) in Calls(items)[..n]
    requires it.oldPrice in a.prices && a.prices[it.oldPrice].active
    requires SetPriceActive(it.oldPrice, false) !in Calls(items)[..n]
    requires PlanFor(spec, Run(a, Calls(items)[..n]), items')
    ensures var s := Run(a, Calls(items)[..n]);
            && StrayPrice(spec, s, it.oldPrice)
            && (StrayPrice(spec, After(s, items'), it.oldPrice) <==>
                !Visited(spec.namespace, s, a.prices[it.oldPrice].productId))
  {
    hide Calls, Sound, WellFormed, DeclaredInSync, ChargesAsDeclared, Visited;
    var cs, q := Calls(items)[..n], it.oldPrice;
    PrefixCalls(spec, a, items, n);
    OldPrice(a, cs, q);
    assert TakesKey(cs, a.prices[q].lookupKey);
    assert !DeclaredKey(spec, "");
    RestartConverges(spec, a, items, n, items');
  }

  /** One sync run: list, Diff, Apply.  It only ever stops early because the
      backend fails; wherever it stops the account is safe, and a complete run
      leaves everything declared in sync and archives what it visits. */
  method Sync(backend: Backend, spec: Spec, cur: seq<ExistingProduct>) returns (ok: bool, ghost sent: seq<Call>)
    requires WellFormed(spec)
    requires Sound(spec.namespace, backend.account) && IsListing(backend.account, cur)
    modifies backend
    ensures Safe(spec, old(backend.account), backend.account)
    ensures ok ==> && DeclaredInSync(spec, backend.account)
                   && StraysAre(spec, backend.account, old(backend.account), old(backend.account))
                   && ('_' !in spec.namespace ==> InSync(spec, backend.account))
    ensures !ok ==> |sent| == old(backend.budget) || (backend.applied && |sent| == old(backend.budget) + 1)
    ensures backend.account == Run(old(backend.account), sent)
  {
    hide WellFormed, Sound, IsListing, Safe, DeclaredInSync, StraysAre, NothingElse, PlanFor, Calls, Run, DiffPlan;
    ghost var a := backend.account;
    DiffGivesSetting(spec, a, cur);
    var items := Diff(spec, cur);
    ok, sent := Apply(backend, items);
    EveryPrefixIsSafe(spec, a, items, |sent|);
    assert sent == Calls(items)[..|sent|];
    OneRound(spec, a, items);
    if '_' !in spec.namespace { PlainNamespaceIsClean(spec, Run(a, Calls(items)), a); }
  }
}
