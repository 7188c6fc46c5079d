/** The executor: turns a plan into backend calls, phase by phase, and stops at
    the first refusal or failure. */
module CatalogApply {
  import opened CatalogSpec
  import opened CatalogAccount
  import opened CatalogDiff
  import opened CatalogPlan

  /** The phases of Apply, in execution order. */
  function Phase(it: PlanItem): nat {
    match it
    case CreateProductItem(_, _) => 0
    case UnarchiveProductItem(_, _) => 1
    case UpdateProductItem(_, _) => 2
    case CreatePriceItem(_, _, _) => 3
    case ReplacePriceItem(_, _, _, _) => 4
    case ArchivePriceItem(_) => 5
    case ArchiveProductItem(_, _) => 6
  }

  const PHASES: nat := 7

  function CallsOf(it: PlanItem): seq<Call> {
    match it
    case CreateProductItem(_, np) => [CreateProduct(np)]
    case UnarchiveProductItem(_, id) => [SetProductActive(id, true)]
    case UpdateProductItem(_, np) => [UpdateProduct(np.id, np.name, np.description, np.metadata)]
    case CreatePriceItem(_, _, np) => [CreatePrice(np)]
    case ReplacePriceItem(_, _, np, q) => [CreatePrice(np), SetPriceActive(q, false)]
    case ArchivePriceItem(q) => [SetPriceActive(q, false)]
    case ArchiveProductItem(_, id) => [SetProductActive(id, false)]
  }

  function PhaseCalls(items: seq<PlanItem>, phase: nat): seq<Call> {
    if items == [] then []
    else
      var it := items[|items| - 1];
      PhaseCalls(items[..|items| - 1], phase) + (if Phase(it) == phase then CallsOf(it) else [])
  }

  /** The calls of the first n phases. */
  function CallsUpTo(items: seq<PlanItem>, n: nat): seq<Call> {
    if n == 0 then [] else CallsUpTo(items, n - 1) + PhaseCalls(items, n - 1)
  }

  function Calls(items: seq<PlanItem>): seq<Call> {
    CallsUpTo(items, PHASES)
  }

  lemma {:induction false} RunMore(a: Account, cs: seq<Call>, c: Call)
    ensures Run(a, cs + [c]) == Exec(Run(a, cs), c)
  {
    assert (cs + [c])[..|cs|] == cs;
  }

  /** The account behind the backend interface.  Besides refusing what Stripe
      refuses, it fails once `budget` calls have gone through; the call that fails
      may have taken effect all the same, when `applied` says so. */
  class Backend {
    var account: Account
    var budget: nat
    const applied: bool

    constructor (account: Account, budget: nat, applied: bool)
      ensures this.account == account && this.budget == budget && this.applied == applied
    {
      this.account, this.budget, this.applied := account, budget, applied;
    }

    method Do(c: Call) returns (ok: bool)
      modifies this
      ensures ok <==> old(budget) > 0 && Permitted(old(account), c)
      ensures account == if Permitted(old(account), c) && (old(budget) > 0 || applied) then Exec(old(account), c)
                         else old(account)
      ensures budget == if ok then old(budget) - 1 else old(budget)
    {
      ok := budget > 0 && Permitted(account, c);
      if Permitted(account, c) && (budget > 0 || applied) { account := Exec(account, c); }
      if ok { budget := budget - 1; }
    }
  }

  /** Why a run that sent `sent` of `calls` stopped: Stripe refuses the next call,
      or the backend failed at the next one or, after it took effect, at the last. */
  predicate Stopped(calls: seq<Call>, sent: seq<Call>, account: Account, budget: nat, applied: bool) {
    || (|sent| < |calls| && !Permitted(account, calls[|sent|]))
    || (|sent| == budget && |sent| < |calls|)
    || (applied && |sent| == budget + 1)
  }

  /** One phase: the loop over the items of that kind. */
  method ApplyPhase(backend: Backend, items: seq<PlanItem>, phase: nat, ghost start: Account, ghost sent: seq<Call>)
    returns (ok: bool, ghost done: seq<Call>)
    requires backend.account == Run(start, sent)
    modifies backend
    ensures done <= PhaseCalls(items, phase) && backend.account == Run(start, sent + done)
    ensures ok ==> done == PhaseCalls(items, phase) && backend.budget == old(backend.budget) - |done|
    ensures !ok ==> Stopped(PhaseCalls(items, phase), done, backend.account, old(backend.budget), backend.applied)
  {
    hide Exec, Permitted, CallsOf, Phase;
    ok, done := true, [];
    assert sent + done == sent;
    for i := 0 to |items|
      invariant done == PhaseCalls(items[..i], phase)
      invariant backend.account == Run(start, sent + done)
      invariant backend.budget == old(backend.budget) - |done|
    {
      assert items[..i + 1][..i] == items[..i];
      PhasePrefix(items, phase, i + 1);
      if Phase(items[i]) == phase {
        var calls := CallsOf(items[i]);
        ghost var before := done;
        assert PhaseCalls(items[..i + 1], phase) == before + calls;
        for j := 0 to |calls|
          invariant done == before + calls[..j]
          invariant backend.account == Run(start, sent + done)
          invariant backend.budget == old(backend.budget) - |done|
        {
          assert PhaseCalls(items, phase)[|done|] == calls[j];
          RunMore(start, sent + done, calls[j]);
          assert sent + (done + [calls[j]]) == sent + done + [calls[j]];
          assert done + [calls[j]] == before + calls[..j + 1];
          ghost var permitted := Permitted(backend.account, calls[j]);
          ok := backend.Do(calls[j]);
          if !ok {
            assert done + [calls[j]] <= PhaseCalls(items, phase);
            if permitted && backend.applied { done := done + [calls[j]]; }
            return;
          }
          done := done + [calls[j]];
        }
        assert calls[..|calls|] == calls;
      }
    }
    assert items[..|items|] == items;
  }

  lemma {:induction false} PhasePrefix(items: seq<PlanItem>, phase: nat, i: nat)
    requires i <= |items|
    ensures PhaseCalls(items[..i], phase) <= PhaseCalls(items, phase)
    decreases |items| - i
  {
    if i < |items| {
      PhasePrefix(items, phase, i + 1);
      assert items[..i + 1][..i] == items[..i];
    } else {
      assert items[..i] == items;
    }
  }

  /** Apply sends a prefix of the plan's calls, and all of them unless the
      backend fails or refuses the next one. */
  method Apply(backend: Backend, items: seq<PlanItem>) returns (ok: bool, ghost sent: seq<Call>)
    modifies backend
    ensures sent <= Calls(items) && backend.account == Run(old(backend.account), sent)
    ensures ok ==> sent == Calls(items)
    ensures !ok ==> Stopped(Calls(items), sent, backend.account, old(backend.budget), backend.applied)
  {
    hide PhaseCalls, Permitted, Run;
    ghost var start := backend.account;
    RunNothing(start);
    ok, sent := true, [];
    for phase := 0 to PHASES
      invariant sent == CallsUpTo(items, phase)
      invariant backend.account == Run(start, sent) && backend.budget == old(backend.budget) - |sent|
    {
      ghost var done;
      ok, done := ApplyPhase(backend, items, phase, start, sent);
      UpToPrefix(items, phase + 1);
      sent := sent + done;
      if !ok { return; }
    }
  }

  lemma {:induction false} RunNothing(a: Account)
    ensures Run(a, []) == a
  {
  }

  lemma {:induction false} UpToPrefix(items: seq<PlanItem>, n: nat)
    requires n <= PHASES
    ensures CallsUpTo(items, n) <= Calls(items)
    decreases PHASES - n
  {
    if n < PHASES { UpToPrefix(items, n + 1); }
  }

  // ------------------------------------------------------ where calls come from

  lemma {:induction false} PhaseOrigin(items: seq<PlanItem>, phase: nat, c: Call)
    ensures c in PhaseCalls(items, phase) <==> exists it :: it in items && Phase(it) == phase && c in CallsOf(it)
  {
    if items != [] {
      var n := |items| - 1;
      assert items == items[..n] + [items[n]];
      PhaseOrigin(items[..n], phase, c);
    }
  }

  lemma {:induction false} UpToOrigin(items: seq<PlanItem>, n: nat, c: Call)
    ensures c in CallsUpTo(items, n) <==> exists it :: it in items && Phase(it) < n && c in CallsOf(it)
  {
    hide PhaseCalls, Phase, CallsOf;
    if n > 0 {
      UpToOrigin(items, n - 1, c);
      PhaseOrigin(items, n - 1, c);
    }
  }

  /** A call is sent for an item of the plan, and every item sends its calls. */
  lemma {:induction false} CallOrigin(items: seq<PlanItem>, c: Call)
    ensures c in Calls(items) <==> exists it :: it in items && c in CallsOf(it)
  {
    UpToOrigin(items, PHASES, c);
  }

  /** Wanted items share no call. */
  lemma {:induction false} CallOwner(spec: Spec, a: Account, it: PlanItem, other: PlanItem, c: Call)
    requires forall k :: k in spec.products ==> '.' !in k
    requires '.' !in spec.namespace && Sound(spec.namespace, a)
    requires Wanted(spec, a, it) && Wanted(spec, a, other) && c in CallsOf(it) && c in CallsOf(other)
    ensures it == other
  {
    if (it.CreatePriceItem? || it.ReplacePriceItem?) && (other.CreatePriceItem? || other.ReplacePriceItem?) {
      PriceKeyInjective(spec.namespace, it.key, it.priceKey, spec.namespace, other.key, other.priceKey);
    } else if c.SetPriceActive? {
      ReplacedIsDeclared(spec, a, it);
      ReplacedIsDeclared(spec, a, other);
    } else if (it.CreateProductItem? || it.UpdateProductItem? || it.UnarchiveProductItem?)
           && (other.CreateProductItem? || other.UpdateProductItem? || other.UnarchiveProductItem?) {
      ProductIdInjective(spec.namespace, it.key, other.key);
    }
  }

  lemma {:induction false} ReplacedIsDeclared(spec: Spec, a: Account, it: PlanItem)
    requires forall k :: k in spec.products ==> '.' !in k
    requires Wanted(spec, a, it)
    ensures it.ReplacePriceItem? ==> DeclaredKey(spec, a.prices[it.oldPrice].lookupKey)
  {
    if it.ReplacePriceItem? { LookupKeyRoundTrip(spec, it.key, it.priceKey); }
  }
}
