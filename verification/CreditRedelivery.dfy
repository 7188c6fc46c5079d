/** The two webhook handlers that turn paid sessions and invoices into grants,
    and why at-least-once delivery still credits exactly once. */
module CreditRedelivery {
  import opened Options
  import opened Text
  import opened Decimals
  import opened CreditLedger
  import opened CreditHistory

  const STRIPE_PAYMENT := "stripe_payment"

  datatype PendingGrant = PendingGrant(bucket: string, amount: int, validDays: int, productKey: string, quantity: int) {
    function Units(): nat { if quantity <= 0 then 1 else quantity }
  }

  /** A checkout event with its payload decoded. */
  datatype SessionEvent = SessionEvent(
    kind: string, id: string, paymentIntent: string, subject: Subject, grants: seq<PendingGrant>)

  function SessionRef(paymentIntent: string, i: nat, unit: nat): string {
    paymentIntent + ":" + Decimal(i) + ":" + Decimal(unit)
  }

  function SessionInput(e: SessionEvent, i: nat, unit: nat): GrantInput
    requires i < |e.grants|
  {
    var g := e.grants[i];
    GrantInput(e.subject, g.bucket, g.amount, g.validDays, STRIPE_PAYMENT, SessionRef(e.paymentIntent, i, unit),
               map["checkout_session" := e.id, "product_key" := g.productKey])
  }

  /** The grant calls for the units of one pending grant, in order. */
  function UnitInputs(e: SessionEvent, i: nat, n: nat): (r: seq<GrantInput>)
    requires i < |e.grants|
    ensures |r| == n && forall u :: 0 <= u < n ==> r[u] == SessionInput(e, i, u)
  {
    seq(n, u requires 0 <= u < n => SessionInput(e, i, u))
  }

  /** The grant calls for the first k pending grants, in order. */
  function SessionInputs(e: SessionEvent, k: nat): seq<GrantInput>
    requires k <= |e.grants|
  {
    if k == 0 then [] else SessionInputs(e, k - 1) + UnitInputs(e, k - 1, e.grants[k - 1].Units())
  }

  predicate Relevant(e: SessionEvent) {
    e.kind == "checkout.session.completed" || e.kind == "checkout.session.async_payment_succeeded"
  }

  /** Grant calls in sequence; the j-th call reads the clock value clock(j). */
  function AddAll(l: Ledger, inputs: seq<GrantInput>, clock: nat -> Instant): Ledger {
    if inputs == [] then l
    else AddGrant(AddAll(l, inputs[..|inputs| - 1], clock), inputs[|inputs| - 1], clock(|inputs| - 1))
  }

  datatype Outcome = Done | Failed

  lemma {:induction false} AddOneMore(l: Ledger, calls: seq<GrantInput>, inp: GrantInput, clock: nat -> Instant)
    ensures AddAll(l, calls + [inp], clock) == AddGrant(AddAll(l, calls, clock), inp, clock(|calls|))
  {
    assert (calls + [inp])[..|calls|] == calls;
  }

  /** Of these calls, the ones that take effect when the store fails at its
      (budget + 1)-th, having applied that one or not. */
  function Effective(all: seq<GrantInput>, budget: nat, applied: bool): seq<GrantInput> {
    if |all| <= budget then all else all[..if applied then budget + 1 else budget]
  }

  /** The session handler, against the ledger a repository holds.  The store
      fails at its (budget + 1)-th call, if the handler gets that far, after or
      without taking effect; the handler then stops with an error. */
  method ApplyGrantsFromSession(start: Ledger, e: SessionEvent, clock: nat -> Instant, budget: nat, applied: bool)
    returns (out: Outcome, l: Ledger, ghost calls: seq<GrantInput>)
    ensures l == AddAll(start, calls, clock)
    ensures e.kind != "checkout.session.completed" && e.kind != "checkout.session.async_payment_succeeded" ==>
              out == Done && calls == []
    ensures e.kind == "checkout.session.completed" || e.kind == "checkout.session.async_payment_succeeded" ==>
              var all := SessionInputs(e, |e.grants|);
              if e.grants == [] then out == Done && calls == []
              else if e.subject == "" then out == Failed && calls == []
              else calls == Effective(all, budget, applied) && (out == Done <==> |all| <= budget)
  {
    hide AddGrant, AddAll, SessionInput, SessionInputs, UnitInputs, Relevant, Effective;
    RelevantKinds(e);
    NoCallsYet(start, e, clock);
    l, calls := start, [];
    if !Relevant(e) { return Done, l, calls; }
    if e.grants == [] { return Done, l, calls; }
    if e.subject == "" { return Failed, l, calls; }
    var made := 0;
    for i := 0 to |e.grants|
      invariant calls == SessionInputs(e, i) && made == |calls| <= budget
      invariant l == AddAll(start, calls, clock)
    {
      var ok;
      ok, l, made, calls := GrantUnits(start, l, made, calls, e, i, clock, budget, applied);
      if !ok { return Failed, l, calls; }
    }
    EffectiveIsAll(calls, budget, applied);
    return Done, l, calls;
  }

  lemma {:induction false} NoCallsYet(start: Ledger, e: SessionEvent, clock: nat -> Instant)
    ensures AddAll(start, [], clock) == start && SessionInputs(e, 0) == []
  {
  }

  lemma {:induction false} RelevantKinds(e: SessionEvent)
    ensures Relevant(e) <==>
              e.kind == "checkout.session.completed" || e.kind == "checkout.session.async_payment_succeeded"
  {
  }

  lemma {:induction false} EffectiveIsAll(all: seq<GrantInput>, budget: nat, applied: bool)
    requires |all| <= budget
    ensures Effective(all, budget, applied) == all
  {
  }

  lemma {:induction false} EffectiveIsCut(all: seq<GrantInput>, budget: nat, applied: bool)
    requires budget < |all|
    ensures Effective(all, budget, applied) == if applied then all[..budget + 1] else all[..budget]
  {
  }

  /** The inner loop: one grant call per unit of a pending grant. */
  method GrantUnits(ghost start: Ledger, before: Ledger, count: nat, ghost done: seq<GrantInput>, e: SessionEvent,
                    i: nat,
                    clock: nat -> Instant, budget: nat, applied: bool)
    returns (ok: bool, l: Ledger, made: nat, ghost calls: seq<GrantInput>)
    requires i < |e.grants| && done == SessionInputs(e, i) && count == |done| <= budget
    requires before == AddAll(start, done, clock)
    ensures l == AddAll(start, calls, clock)
    ensures ok ==> calls == SessionInputs(e, i + 1) && made == |calls| <= budget
    ensures ok ==> made == count + if e.grants[i].quantity <= 0 then 1 else e.grants[i].quantity
    ensures !ok ==> budget < |SessionInputs(e, |e.grants|)|
                      && calls == Effective(SessionInputs(e, |e.grants|), budget, applied)
  {
    hide AddGrant, AddAll, SessionInput, SessionInputs, UnitInputs;
    l, made, calls := before, count, done;
    SessionMore(e, i);
    var quantity := e.grants[i].quantity;
    if quantity <= 0 { quantity := 1; }
    for unit := 0 to quantity
      invariant calls == done + UnitInputs(e, i, unit) && made == |calls| <= budget
      invariant l == AddAll(start, calls, clock)
    {
      var inp := SessionInput(e, i, unit);
      AddOneMore(start, calls, inp, clock);
      UnitMore(e, i, unit);
      SessionPrefix(e, i, unit);
      if made < budget || applied {
        l := AddGrant(l, inp, clock(made));
        calls := calls + [inp];
      }
      if made == budget { return false, l, made, calls; }
      made := made + 1;
    }
    return true, l, made, calls;
  }

  lemma {:induction false} UnitMore(e: SessionEvent, i: nat, unit: nat)
    requires i < |e.grants|
    ensures UnitInputs(e, i, unit + 1) == UnitInputs(e, i, unit) + [SessionInput(e, i, unit)]
  {
    hide SessionInput;
  }

  lemma {:induction false} SessionMore(e: SessionEvent, i: nat)
    requires i < |e.grants|
    ensures SessionInputs(e, i) + UnitInputs(e, i, 0) == SessionInputs(e, i)
    ensures SessionInputs(e, i + 1) == SessionInputs(e, i) + UnitInputs(e, i, e.grants[i].Units())
  {
    hide SessionInput;
  }

  /** What has been called so far, with the next call, is a prefix of the whole
      list. */
  lemma {:induction false} SessionPrefix(e: SessionEvent, i: nat, unit: nat)
    requires i < |e.grants| && unit < e.grants[i].Units()
    ensures var done := SessionInputs(e, i) + UnitInputs(e, i, unit);
            var all := SessionInputs(e, |e.grants|);
            && |done| < |all| && done == all[..|done|]
            && done + [SessionInput(e, i, unit)] == all[..|done| + 1]
  {
    hide SessionInput;
    var done := SessionInputs(e, i) + UnitInputs(e, i, unit);
    assert UnitInputs(e, i, e.grants[i].Units())[..unit] == UnitInputs(e, i, unit);
    assert SessionInputs(e, i + 1)[..|done|] == done;
    assert SessionInputs(e, i + 1)[|done|] == SessionInput(e, i, unit);
    SessionGrows(e, i + 1, |e.grants|);
  }

  lemma {:induction false} SessionGrows(e: SessionEvent, j: nat, k: nat)
    requires j <= k <= |e.grants|
    ensures SessionInputs(e, j) <= SessionInputs(e, k)
  {
    if j < k { SessionGrows(e, j, k - 1); }
  }

  lemma {:induction false} SessionCovers(e: SessionEvent, k: nat, i: nat, u: nat)
    requires i < k <= |e.grants| && u < e.grants[i].Units()
    ensures SessionInput(e, i, u) in SessionInputs(e, k)
  {
    if i == k - 1 {
      assert UnitInputs(e, i, e.grants[i].Units())[u] == SessionInput(e, i, u);
    } else {
      SessionCovers(e, k - 1, i, u);
    }
  }

  /** The calls of the i-th pending grant: as many as its quantity, one if that is
      not positive, numbered from 0 in their refs, each with its values. */
  lemma {:induction false} SessionBlock(e: SessionEvent, i: nat)
    requires i < |e.grants|
    ensures var g, before, upTo := e.grants[i], SessionInputs(e, i), SessionInputs(e, i + 1);
            && before <= upTo && |upTo| == |before| + (if g.quantity <= 0 then 1 else g.quantity)
            && forall u :: 0 <= u < |upTo| - |before| ==>
                 upTo[|before| + u] ==
                 GrantInput(e.subject, g.bucket, g.amount, g.validDays, "stripe_payment",
                            e.paymentIntent + ":" + Decimal(i) + ":" + Decimal(u),
                            map["checkout_session" := e.id, "product_key" := g.productKey])
  {
    hide Decimal;
    SessionMore(e, i);
  }

  /** A handler with a store that does not fail makes the sum of all quantities. */
  lemma {:induction false} SessionCallCount(e: SessionEvent, k: nat)
    requires k <= |e.grants|
    ensures |SessionInputs(e, k)| == TotalQuantity(e.grants[..k])
  {
    if k > 0 {
      SessionBlock(e, k - 1);
      SessionCallCount(e, k - 1);
      assert e.grants[..k][..k - 1] == e.grants[..k - 1];
    }
  }

  function TotalQuantity(gs: seq<PendingGrant>): nat {
    if gs == [] then 0
    else
      var q := gs[|gs| - 1].quantity;
      TotalQuantity(gs[..|gs| - 1]) + (if q <= 0 then 1 else q)
  }

  // ---------------------------------------------------------------- invoices

  datatype RecurringGrant = RecurringGrant(bucket: string, amount: int, validDays: int)

  /** The part of the catalog the invoice handler reads: the namespace and, per
      product, its recurring grant if it has one. */
  datatype RecurringSpec = RecurringSpec(namespace: string, products: map<string, Option<RecurringGrant>>)

  /** An invoice event with its payload decoded; a line without a price has no
      lookup key. */
  datatype InvoiceEvent = InvoiceEvent(
    kind: string, id: string, subscription: string, subject: Subject,
    subscriptionSubject: Option<Subject>, lines: seq<string>)
  {
    function Subject(): Subject {
      if subject == "" && subscriptionSubject.Some? then subscriptionSubject.value else subject
    }
  }

  /** Splits "<namespace>.<product>.<price>" by scanning for the first dot after
      the namespace. */
  method SplitNamespacedKey(namespace: string, lookupKey: string) returns (product: string, price: string, ok: bool)
    ensures ok ==> lookupKey == namespace + "." + product + "." + price && '.' !in product
    ensures !ok ==> forall p, q :: lookupKey != namespace + "." + p + "." + q
    ensures SplitKey(namespace, lookupKey) == if ok then Some((product, price)) else None
  {
    var prefix := namespace + ".";
    if |lookupKey| <= |prefix| || lookupKey[..|prefix|] != prefix {
      forall p, q ensures lookupKey != namespace + "." + p + "." + q {
        assert namespace + "." + p + "." + q == prefix + p + "." + q;
        assert (prefix + p + "." + q)[..|prefix|] == prefix;
      }
      return "", "", false;
    }
    var rest := lookupKey[|prefix|..];
    for i := 0 to |rest|
      invariant IndexFrom(rest, '.', 0) == IndexFrom(rest, '.', i)
    {
      if rest[i] == '.' {
        return rest[..i], rest[i + 1..], true;
      }
    }
    forall p, q ensures lookupKey != namespace + "." + p + "." + q {
      var other := namespace + "." + p + "." + q;
      assert other[|prefix|..] == p + "." + q;
      assert '.' in other[|prefix|..];
    }
    return "", "", false;
  }

  function SplitKey(namespace: string, lookupKey: string): Option<(string, string)> {
    var prefix := namespace + ".";
    if |lookupKey| <= |prefix| || lookupKey[..|prefix|] != prefix then None
    else Cut(lookupKey[|prefix|..], '.')
  }

  function InvoiceRef(id: string, productKey: string): string {
    "invoice:" + id + ":" + productKey
  }

  function InvoiceInput(e: InvoiceEvent, productKey: string, rg: RecurringGrant): GrantInput {
    GrantInput(e.Subject(), rg.bucket, rg.amount, rg.validDays, STRIPE_PAYMENT, InvoiceRef(e.id, productKey),
               map["invoice" := e.id, "subscription" := e.subscription, "product_key" := productKey])
  }

  /** The product a line grants credit for, if any. */
  function LineProduct(spec: RecurringSpec, key: string): Option<string> {
    match SplitKey(spec.namespace, key)
    case None => None
    case Some((product, _)) =>
      if key != "" && product in spec.products && spec.products[product].Some? then Some(product) else None
  }

  function InvoiceInputs(spec: RecurringSpec, e: InvoiceEvent, n: nat): seq<GrantInput>
    requires n <= |e.lines|
  {
    if n == 0 then []
    else
      InvoiceInputs(spec, e, n - 1) +
      match LineProduct(spec, e.lines[n - 1])
      case None => []
      case Some(product) => [InvoiceInput(e, product, spec.products[product].value)]
  }

  predicate Billable(e: InvoiceEvent) {
    (e.kind == "invoice.paid" || e.kind == "invoice.payment_succeeded") && e.subscription != "" && e.Subject() != ""
  }

  /** The invoice handler, with the store failing as in the session handler. */
  method ApplyRecurringGrantsFromInvoice(start: Ledger, spec: RecurringSpec, e: InvoiceEvent,
                                         clock: nat -> Instant, budget: nat, applied: bool)
    returns (out: Outcome, l: Ledger, ghost calls: seq<GrantInput>)
    ensures l == AddAll(start, calls, clock)
    ensures var subject :=
              if e.subject != "" || e.subscriptionSubject.None? then e.subject else e.subscriptionSubject.value;
            var all := InvoiceInputs(spec, e, |e.lines|);
            if (e.kind == "invoice.paid" || e.kind == "invoice.payment_succeeded")
               && e.subscription != "" && subject != ""
            then calls == Effective(all, budget, applied) && (out == Done <==> |all| <= budget)
            else out == Done && calls == []
  {
    assert AddAll(start, [], clock) == start && InvoiceInputs(spec, e, 0) == [];
    BillableInvoices(e);
    hide AddGrant, AddAll, InvoiceInput, InvoiceInputs, SplitKey, Billable, Effective;
    l, calls := start, [];
    if !Billable(e) { return Done, l, calls; }
    var made := 0;
    for i := 0 to |e.lines|
      invariant calls == InvoiceInputs(spec, e, i) && made == |calls| <= budget
      invariant l == AddAll(start, calls, clock)
    {
      var key := e.lines[i];
      InvoiceLine(spec, e, i);
      if key == "" { continue; }
      var productKey, _, ok := SplitNamespacedKey(spec.namespace, key);
      if !ok || productKey !in spec.products || spec.products[productKey].None? { continue; }
      var inp := InvoiceInput(e, productKey, spec.products[productKey].value);
      InvoicePrefix(spec, e, i, inp);
      AddOneMore(start, calls, inp, clock);
      if made == budget { EffectiveIsCut(InvoiceInputs(spec, e, |e.lines|), budget, applied); }
      if made < budget || applied {
        l := AddGrant(l, inp, clock(made));
        calls := calls + [inp];
      }
      if made == budget { return Failed, l, calls; }
      made := made + 1;
    }
    EffectiveIsAll(calls, budget, applied);
    return Done, l, calls;
  }

  lemma {:induction false} BillableInvoices(e: InvoiceEvent)
    ensures var subject :=
              if e.subject != "" || e.subscriptionSubject.None? then e.subject else e.subscriptionSubject.value;
            Billable(e) <==> (e.kind == "invoice.paid" || e.kind == "invoice.payment_succeeded")
                             && e.subscription != "" && subject != ""
  {
  }

  lemma {:induction false} InvoiceLine(spec: RecurringSpec, e: InvoiceEvent, i: nat)
    requires i < |e.lines|
    ensures LineProduct(spec, e.lines[i]).None? ==> InvoiceInputs(spec, e, i + 1) == InvoiceInputs(spec, e, i)
    ensures LineProduct(spec, e.lines[i]).Some? ==>
              var product := LineProduct(spec, e.lines[i]).value;
              InvoiceInputs(spec, e, i + 1) ==
              InvoiceInputs(spec, e, i) + [InvoiceInput(e, product, spec.products[product].value)]
  {
    hide InvoiceInput;
  }

  /** The calls of the first lines, with the next call, are a prefix of the list. */
  lemma {:induction false} InvoicePrefix(spec: RecurringSpec, e: InvoiceEvent, i: nat, inp: GrantInput)
    requires i < |e.lines| && InvoiceInputs(spec, e, i + 1) == InvoiceInputs(spec, e, i) + [inp]
    ensures var done, all := InvoiceInputs(spec, e, i), InvoiceInputs(spec, e, |e.lines|);
            |done| < |all| && done == all[..|done|] && done + [inp] == all[..|done| + 1]
  {
    hide InvoiceInputs;
    InvoiceGrows(spec, e, i + 1, |e.lines|);
  }

  lemma {:induction false} InvoiceGrows(spec: RecurringSpec, e: InvoiceEvent, j: nat, k: nat)
    requires j <= k <= |e.lines|
    ensures InvoiceInputs(spec, e, j) <= InvoiceInputs(spec, e, k)
  {
    if j < k { InvoiceGrows(spec, e, j, k - 1); }
  }

  /** The lines that lead to a call: those whose key names, after the namespace and
      up to the next dot, a product with a recurring grant. */
  lemma {:induction false} LineGrants(spec: RecurringSpec, key: string, product: string)
    ensures LineProduct(spec, key) == Some(product) <==>
              && '.' !in product && product in spec.products && spec.products[product].Some?
              && exists price :: key == spec.namespace + "." + product + "." + price
  {
    var prefix := spec.namespace + ".";
    if LineProduct(spec, key) == Some(product) {
      var price := SplitKey(spec.namespace, key).value.1;
      assert key == prefix + key[|prefix|..];
      assert key == spec.namespace + "." + product + "." + price;
    }
    forall price | '.' !in product && key == spec.namespace + "." + product + "." + price
      ensures SplitKey(spec.namespace, key) == Some((product, price))
    {
      assert key == prefix + (product + "." + price) && key[|prefix|..] == product + "." + price;
      CutJoin(product, '.', price);
    }
  }

  /** And what the call asks for. */
  lemma {:induction false} InvoiceCallsAre(spec: RecurringSpec, e: InvoiceEvent, n: nat, inp: GrantInput)
    requires n <= |e.lines|
    ensures inp in InvoiceInputs(spec, e, n) <==>
              exists k :: 0 <= k < n && LineProduct(spec, e.lines[k]).Some? && AskedByLine(spec, e, k, inp)
  {
    hide InvoiceInput, AskedByLine, LineProduct;
    if n > 0 {
      InvoiceCallsAre(spec, e, n - 1, inp);
      InvoiceLine(spec, e, n - 1);
      if LineProduct(spec, e.lines[n - 1]).Some? { LineAsks(spec, e, n - 1, inp); }
    }
  }

  ghost predicate AskedByLine(spec: RecurringSpec, e: InvoiceEvent, k: nat, inp: GrantInput)
    requires k < |e.lines| && LineProduct(spec, e.lines[k]).Some?
  {
    var product := LineProduct(spec, e.lines[k]).value;
    var rg := spec.products[product].value;
    inp == GrantInput(if e.subject != "" || e.subscriptionSubject.None? then e.subject else e.subscriptionSubject.value,
                      rg.bucket, rg.amount, rg.validDays, "stripe_payment", "invoice:" + e.id + ":" + product,
                      map["invoice" := e.id, "subscription" := e.subscription, "product_key" := product])
  }

  lemma {:induction false} LineAsks(spec: RecurringSpec, e: InvoiceEvent, k: nat, inp: GrantInput)
    requires k < |e.lines| && LineProduct(spec, e.lines[k]).Some?
    ensures var product := LineProduct(spec, e.lines[k]).value;
            AskedByLine(spec, e, k, inp) <==> inp == InvoiceInput(e, product, spec.products[product].value)
  {
    hide LineProduct;
  }

  // ------------------------------------------------------ deliveries as runs

  /** A run continued by the calls one delivery got through. */
  function Deliver(r: Run, calls: seq<GrantInput>, clock: nat -> Instant): Run {
    if calls == [] then r
    else
      var n := |calls| - 1;
      Then(Deliver(r, calls[..n], clock), GrantEvent(calls[n], clock(n)), true, AddAll(r.ledger, calls, clock))
  }

  /** A delivery extends a run and ends in the ledger the handler computes. */
  lemma {:induction false} DeliverExtends(r: Run, calls: seq<GrantInput>, clock: nat -> Instant)
    requires r.Legal()
    requires forall k :: 0 <= k < |calls| ==> calls[k].amount > 0 && r.Clock() <= clock(k)
    requires forall j, k :: 0 <= j < k < |calls| ==> clock(j) <= clock(k)
    ensures Deliver(r, calls, clock).Legal()
    ensures Deliver(r, calls, clock).ledger == AddAll(r.ledger, calls, clock)
    ensures Deliver(r, calls, clock).Origin() == r.Origin()
    ensures calls != [] ==> Deliver(r, calls, clock).Clock() == clock(|calls| - 1)
  {
    if calls != [] { DeliverExtends(r, calls[..|calls| - 1], clock); }
  }

  // -------------------------------------------------------- one grant per ref

  predicate Matches(g: Grant, bucket: string, ref: string) {
    g.bucket == bucket && g.sourceRef == ref
  }

  function CountFor(gs: seq<Grant>, bucket: string, ref: string): nat {
    if gs == [] then 0
    else CountFor(gs[..|gs| - 1], bucket, ref) + (if Matches(gs[|gs| - 1], bucket, ref) then 1 else 0)
  }

  function CreditedFor(gs: seq<Grant>, bucket: string, ref: string): int {
    if gs == [] then 0
    else
      var g := gs[|gs| - 1];
      CreditedFor(gs[..|gs| - 1], bucket, ref) + (if Matches(g, bucket, ref) then g.initial else 0)
  }

  predicate Asks(inp: GrantInput, s: Subject, bucket: string, ref: string) {
    inp.subject == s && inp.bucket == bucket && inp.sourceRef == ref
  }

  /** Some grant call for (s, bucket, ref) occurs in the run. */
  predicate Asked(r: Run, s: Subject, bucket: string, ref: string) {
    r.Then? && (Asked(r.before, s, bucket, ref) || (r.ev.GrantEvent? && Asks(r.ev.gin, s, bucket, ref)))
  }

  /** Amount of the first such call. */
  function FirstAmount(r: Run, s: Subject, bucket: string, ref: string): int {
    if r.Start? then 0
    else if Asked(r.before, s, bucket, ref) then FirstAmount(r.before, s, bucket, ref)
    else if r.ev.GrantEvent? && Asks(r.ev.gin, s, bucket, ref) then r.ev.gin.amount
    else 0
  }

  /** Subjects and buckets of all grant calls avoid the bar that joins keys. */
  ghost predicate PlainGrants(r: Run) {
    r.Then? ==> PlainGrants(r.before) && (r.ev.GrantEvent? ==> '|' !in r.ev.gin.subject && '|' !in r.ev.gin.bucket)
  }

  /** With plain subjects and buckets a dedup key names one (subject, bucket, ref). */
  lemma {:induction false} GrantKeyUnique(a: GrantInput, s: Subject, bucket: string, ref: string)
    requires '|' !in a.subject && '|' !in a.bucket && '|' !in s && '|' !in bucket
    requires a.sourceRef != "" && ref != ""
    ensures GrantKey(a) == s + "|" + bucket + "|" + ref <==> Asks(a, s, bucket, ref)
  {
    if GrantKey(a) == s + "|" + bucket + "|" + ref {
      assert GrantKey(a) == a.subject + "|" + (a.bucket + "|" + a.sourceRef);
      assert s + "|" + bucket + "|" + ref == s + "|" + (bucket + "|" + ref);
      JoinUnique('|', a.subject, a.bucket + "|" + a.sourceRef, s, bucket + "|" + ref);
      JoinUnique('|', a.bucket, a.sourceRef, bucket, ref);
    }
  }

  lemma {:induction false} CountSame(a: seq<Grant>, b: seq<Grant>, bucket: string, ref: string)
    requires |a| == |b|
    requires forall i :: 0 <= i < |a| ==>
               a[i].bucket == b[i].bucket && a[i].sourceRef == b[i].sourceRef && a[i].initial == b[i].initial
    ensures CountFor(a, bucket, ref) == CountFor(b, bucket, ref)
    ensures CreditedFor(a, bucket, ref) == CreditedFor(b, bucket, ref)
  {
    if a != [] { CountSame(a[..|a| - 1], b[..|b| - 1], bucket, ref); }
  }

  lemma {:induction false} CountAppend(gs: seq<Grant>, g: Grant, bucket: string, ref: string)
    ensures CountFor(gs + [g], bucket, ref) == CountFor(gs, bucket, ref) + if Matches(g, bucket, ref) then 1 else 0
    ensures CreditedFor(gs + [g], bucket, ref)
         == CreditedFor(gs, bucket, ref) + if Matches(g, bucket, ref) then g.initial else 0
  {
    assert (gs + [g])[..|gs|] == gs;
  }

  /** Index entry and rows agree on whether the ref was granted. */
  ghost predicate Indexed(l: Ledger, s: Subject, bucket: string, ref: string) {
    var key := s + "|" + bucket + "|" + ref;
    key in l.seenGrant ==> FindId(Of(l.grants, s), l.seenGrant[key]).Some?
  }

  lemma {:induction false} FindIdKept(a: seq<Grant>, b: seq<Grant>, id: nat)
    requires |a| <= |b| && forall i :: 0 <= i < |a| ==> a[i].id == b[i].id
    ensures FindId(a, id).Some? ==> FindId(b, id).Some?
  {
    if a != [] { FindIdKept(a[1..], b[1..], id); }
  }

  lemma {:induction false} FindIdLast(gs: seq<Grant>, g: Grant)
    ensures FindId(gs + [g], g.id).Some?
  {
    assert (gs + [g])[|gs|] == g;
    assert g in gs + [g];
  }

  lemma {:induction false} QuietRows(a: seq<Grant>, b: seq<Grant>, bucket: string, ref: string)
    requires SameRows(a, b)
    ensures forall i :: 0 <= i < |a| ==> a[i].id == b[i].id
    ensures CountFor(a, bucket, ref) == CountFor(b, bucket, ref)
    ensures CreditedFor(a, bucket, ref) == CreditedFor(b, bucket, ref)
  {
    assert forall i :: 0 <= i < |a| ==> SameRow(a[i], b[i]);
    CountSame(a, b, bucket, ref);
  }

  /** Only grant calls touch identities; the others leave the rows' refs alone. */
  lemma {:induction false} QuietStep(l: Ledger, ev: Event, l': Ledger, ok: bool, s: Subject, bucket: string,
                                     ref: string)
    requires SoundGrants(l) && Step(l, ev, l', ok) && !ev.GrantEvent?
    ensures l'.seenGrant == l.seenGrant
    ensures CountFor(Of(l'.grants, s), bucket, ref) == CountFor(Of(l.grants, s), bucket, ref)
    ensures CreditedFor(Of(l'.grants, s), bucket, ref) == CreditedFor(Of(l.grants, s), bucket, ref)
    ensures Indexed(l, s, bucket, ref) ==> Indexed(l', s, bucket, ref)
  {
    if l' != l {
      if s in l.grants {
        match ev {
          case DeductEvent(inp, now) => ServedSound(l, inp, now, l');
          case ExpiryEvent(now) => SweepRows(l, s, now);
          case RevokeEvent(id, reason, stamp, now) => RevokeRows(l, s, id, reason, stamp);
        }
        QuietRows(l.grants[s], l'.grants[s], bucket, ref);
        var key := s + "|" + bucket + "|" + ref;
        if key in l.seenGrant { FindIdKept(l.grants[s], l'.grants[s], l.seenGrant[key]); }
      } else if ev.DeductEvent? {
        ServedSound(l, ev.din, ev.now, l');
      }
    }
  }

  lemma {:induction false} GrantStep(l: Ledger, inp: GrantInput, now: Instant, s: Subject, bucket: string, ref: string)
    requires '|' !in inp.subject && '|' !in inp.bucket && '|' !in s && '|' !in bucket && ref != ""
    requires Indexed(l, s, bucket, ref)
    ensures var l' := AddGrant(l, inp, now);
            var key := s + "|" + bucket + "|" + ref;
            var isNew := Asks(inp, s, bucket, ref) && key !in l.seenGrant;
            && Indexed(l', s, bucket, ref)
            && (key in l'.seenGrant <==> key in l.seenGrant || Asks(inp, s, bucket, ref))
            && CountFor(Of(l'.grants, s), bucket, ref)
                 == CountFor(Of(l.grants, s), bucket, ref) + (if isNew then 1 else 0)
            && CreditedFor(Of(l'.grants, s), bucket, ref)
                 == CreditedFor(Of(l.grants, s), bucket, ref) + (if isNew then inp.amount else 0)
  {
    hide FindId, CountFor, CreditedFor;
    var key := s + "|" + bucket + "|" + ref;
    if inp.sourceRef != "" { GrantKeyUnique(inp, s, bucket, ref); }
    if Duplicate(l, inp).None? && inp.subject == s {
      NewRowStep(l, inp, now, bucket, ref);
    }
  }

  /** The row a new grant adds to its subject's list. */
  lemma {:induction false} NewRowStep(l: Ledger, inp: GrantInput, now: Instant, bucket: string, ref: string)
    requires Duplicate(l, inp).None?
    ensures var gs, gs' := Of(l.grants, inp.subject), Of(AddGrant(l, inp, now).grants, inp.subject);
            var isNew := inp.bucket == bucket && inp.sourceRef == ref;
            && CountFor(gs', bucket, ref) == CountFor(gs, bucket, ref) + (if isNew then 1 else 0)
            && CreditedFor(gs', bucket, ref) == CreditedFor(gs, bucket, ref) + (if isNew then inp.amount else 0)
            && FindId(gs', l.nextId).Some?
            && forall id :: FindId(gs, id).Some? ==> FindId(gs', id).Some?
  {
    hide FindId, CountFor, CreditedFor, GrantKey;
    var gs, g := Of(l.grants, inp.subject), NewGrant(l.nextId, inp, now);
    assert AddGrant(l, inp, now).grants[inp.subject] == gs + [g];
    CountAppend(gs, g, bucket, ref);
    FindIdLast(gs, g);
    forall id | FindId(gs, id).Some? ensures FindId(gs + [g], id).Some? { FindIdKept(gs, gs + [g], id); }
  }

  /** Dedup over whole runs: however often a (subject, bucket, ref) is asked for,
      in whatever interleaving with other calls, the ledger holds exactly one
      grant for it, of the amount first asked. */
  lemma {:induction false} OneGrantPerRef(r: Run, s: Subject, bucket: string, ref: string)
    requires r.Legal() && r.Origin() == EMPTY && PlainGrants(r)
    requires '|' !in s && '|' !in bucket && ref != ""
    ensures Indexed(r.ledger, s, bucket, ref)
    ensures s + "|" + bucket + "|" + ref in r.ledger.seenGrant <==> Asked(r, s, bucket, ref)
    ensures CountFor(Of(r.ledger.grants, s), bucket, ref) == if Asked(r, s, bucket, ref) then 1 else 0
    ensures CreditedFor(Of(r.ledger.grants, s), bucket, ref) == FirstAmount(r, s, bucket, ref)
  {
    if r.Then? {
      OneGrantPerRef(r.before, s, bucket, ref);
      if r.ev.GrantEvent? {
        GrantStep(r.before.ledger, r.ev.gin, r.ev.now, s, bucket, ref);
      } else {
        RunSound(r.before);
        QuietStep(r.before.ledger, r.ev, r.ledger, r.ok, s, bucket, ref);
      }
    }
  }

  /** The row is what this grant call books, but for what was drawn from it and
      noted on it since. */
  predicate Books(inp: GrantInput, g: Grant) {
    g.(remaining := inp.amount, metadata := inp.metadata) == NewGrant(g.id, inp, g.grantedAt)
  }

  predicate WasAsked(r: Run, g: Grant) {
    r.Then? && (WasAsked(r.before, g) || (r.ev.GrantEvent? && Books(r.ev.gin, g)))
  }

  lemma {:induction false} SameWasAsked(r: Run, g: Grant, g': Grant)
    requires WasAsked(r, g) && SameRow(g, g')
    ensures WasAsked(r, g')
  {
    if WasAsked(r.before, g) { SameWasAsked(r.before, g, g'); }
  }

  lemma {:induction false} QuietRow(l: Ledger, ev: Event, l': Ledger, ok: bool, s: Subject, k: nat)
    requires SoundGrants(l) && Step(l, ev, l', ok) && !ev.GrantEvent? && k < |Of(l'.grants, s)|
    ensures k < |Of(l.grants, s)| && SameRow(Of(l.grants, s)[k], Of(l'.grants, s)[k])
  {
    if s in l.grants && k < |l.grants[s]| { assert SoundRow(l.grants[s][k], s, l.nextId); }
    if l' != l {
      match ev {
        case DeductEvent(inp, now) => ServedSound(l, inp, now, l');
        case ExpiryEvent(now) => if s in l.grants { SweepRows(l, s, now); }
        case RevokeEvent(id, reason, stamp, now) => if s in l.grants { RevokeRows(l, s, id, reason, stamp); }
      }
    }
  }

  /** Nothing is granted that was not asked for: every row of a ledger reached from
      the empty one is the booking of some grant call of the run. */
  lemma {:induction false} RowsWereAsked(r: Run, s: Subject, k: nat)
    requires r.Legal() && r.Origin() == EMPTY && k < |Of(r.ledger.grants, s)|
    ensures WasAsked(r, Of(r.ledger.grants, s)[k]) && Of(r.ledger.grants, s)[k].subject == s
  {
    RunSound(r);
    assert SoundRow(r.ledger.grants[s][k], s, r.ledger.nextId);
    if r.Then? {
      if r.ev.GrantEvent? {
        if k < |Of(r.before.ledger.grants, s)| { RowsWereAsked(r.before, s, k); }
      } else {
        RunSound(r.before);
        QuietRow(r.before.ledger, r.ev, r.ledger, r.ok, s, k);
        RowsWereAsked(r.before, s, k);
        SameWasAsked(r.before, Of(r.before.ledger.grants, s)[k], Of(r.ledger.grants, s)[k]);
      }
    }
  }

  // ------------------------------------------------------- sessions, invoices

  /** A session ref determines the payment intent, the pending grant and the unit. */
  lemma {:induction false} SessionRefUnique(p: string, i: nat, u: nat, q: string, j: nat, w: nat)
    ensures SessionRef(p, i, u) == SessionRef(q, j, w) <==> p == q && i == j && u == w
  {
    if SessionRef(p, i, u) == SessionRef(q, j, w) {
      JoinUniqueRight(':', p + ":" + Decimal(i), Decimal(u), q + ":" + Decimal(j), Decimal(w));
      JoinUniqueRight(':', p, Decimal(i), q, Decimal(j));
      DecimalInjective(i, j);
      DecimalInjective(u, w);
    }
  }

  /** An invoice ref determines the invoice and the product. */
  lemma {:induction false} InvoiceRefUnique(id: string, k: string, id': string, k': string)
    requires ':' !in k && ':' !in k'
    ensures InvoiceRef(id, k) == InvoiceRef(id', k') <==> id == id' && k == k'
  {
    if InvoiceRef(id, k) == InvoiceRef(id', k') {
      JoinUniqueRight(':', "invoice:" + id, k, "invoice:" + id', k');
      assert ("invoice:" + id)[8..] == id && ("invoice:" + id')[8..] == id';
    }
  }

  /** A session never reuses an invoice's ref unless its payment intent itself
      starts like one. */
  lemma {:induction false} SessionRefIsNotInvoiceRef(p: string, i: nat, u: nat, id: string, k: string)
    requires !("invoice" <= p)
    ensures SessionRef(p, i, u) != InvoiceRef(id, k)
  {
    if |p| < 7 {
      assert SessionRef(p, i, u)[|p|] == ':';
      assert InvoiceRef(id, k)[|p|] == "invoice"[|p|];
    } else {
      assert SessionRef(p, i, u)[..7] == p[..7];
      assert InvoiceRef(id, k)[..7] == "invoice";
    }
  }

  /** Every grant call of s under this ref asks for the same amount: the ref is
      used by deliveries of one payment only. */
  ghost predicate AlwaysAsks(r: Run, s: Subject, ref: string, amount: int) {
    r.Then? ==>
      && AlwaysAsks(r.before, s, ref, amount)
      && (r.ev.GrantEvent? && r.ev.gin.subject == s && r.ev.gin.sourceRef == ref ==> r.ev.gin.amount == amount)
  }

  /** All calls of the session have been asked. */
  ghost predicate SessionCompleted(r: Run, e: SessionEvent) {
    forall inp :: inp in SessionInputs(e, |e.grants|) ==> Asked(r, inp.subject, inp.bucket, inp.sourceRef)
  }

  lemma {:induction false} FirstAmountOwed(r: Run, s: Subject, bucket: string, ref: string, amount: int)
    requires AlwaysAsks(r, s, ref, amount) && Asked(r, s, bucket, ref)
    ensures FirstAmount(r, s, bucket, ref) == amount
  {
    if Asked(r.before, s, bucket, ref) {
      FirstAmountOwed(r.before, s, bucket, ref, amount);
    }
  }

  /** Credit recorded for the first n units of the i-th pending grant. */
  function UnitsCredited(gs: seq<Grant>, e: SessionEvent, i: nat, n: nat): int
    requires i < |e.grants|
  {
    if n == 0 then 0
    else UnitsCredited(gs, e, i, n - 1) + CreditedFor(gs, e.grants[i].bucket, SessionRef(e.paymentIntent, i, n - 1))
  }

  /** A session all of whose calls were asked, always for the amounts it owes, is
      credited quantity times amount per pending grant, by one grant per unit. */
  lemma {:induction false} CompletedSessionIsCredited(r: Run, e: SessionEvent, i: nat)
    requires r.Legal() && r.Origin() == EMPTY && PlainGrants(r)
    requires i < |e.grants| && '|' !in e.subject && '|' !in e.grants[i].bucket
    requires forall u :: 0 <= u < e.grants[i].Units() ==>
               AlwaysAsks(r, e.subject, SessionRef(e.paymentIntent, i, u), e.grants[i].amount)
    requires SessionCompleted(r, e)
    ensures var n := if e.grants[i].quantity <= 0 then 1 else e.grants[i].quantity;
            UnitsCredited(Of(r.ledger.grants, e.subject), e, i, n) == n * e.grants[i].amount
    ensures forall u :: 0 <= u < (if e.grants[i].quantity <= 0 then 1 else e.grants[i].quantity) ==>
              CountFor(Of(r.ledger.grants, e.subject), e.grants[i].bucket, SessionRef(e.paymentIntent, i, u)) == 1
  {
    var n := e.grants[i].Units();
    forall u | 0 <= u < n
      ensures CountFor(Of(r.ledger.grants, e.subject), e.grants[i].bucket, SessionRef(e.paymentIntent, i, u)) == 1
      ensures CreditedFor(Of(r.ledger.grants, e.subject), e.grants[i].bucket, SessionRef(e.paymentIntent, i, u))
           == e.grants[i].amount
    {
      SessionCovers(e, |e.grants|, i, u);
      OneGrantPerRef(r, e.subject, e.grants[i].bucket, SessionRef(e.paymentIntent, i, u));
      FirstAmountOwed(r, e.subject, e.grants[i].bucket, SessionRef(e.paymentIntent, i, u), e.grants[i].amount);
    }
    SumUnits(Of(r.ledger.grants, e.subject), e, i, n);
  }

  lemma {:induction false} SumUnits(gs: seq<Grant>, e: SessionEvent, i: nat, n: nat)
    requires i < |e.grants|
    requires forall u :: 0 <= u < n ==>
               CreditedFor(gs, e.grants[i].bucket, SessionRef(e.paymentIntent, i, u)) == e.grants[i].amount
    ensures UnitsCredited(gs, e, i, n) == n * e.grants[i].amount
  {
    var x := e.grants[i].amount;
    if n > 0 {
      SumUnits(gs, e, i, n - 1);
      assert (n - 1) * x + x == n * x;
    }
  }

  /** The uniqueness of the payment intent is needed: two sessions of one subject
      ask under the same keys exactly when they share it, for instance when both
      intents are empty, and then the second session is not credited. */
  lemma {:induction false} SharedIntentIsCreditedOnce(r: Run, e: SessionEvent, f: SessionEvent, i: nat, u: nat)
    requires r.Legal() && r.Origin() == EMPTY && PlainGrants(r)
    requires i < |e.grants| && i < |f.grants| && '|' !in e.subject && '|' !in e.grants[i].bucket
    requires e.subject == f.subject && e.grants[i].bucket == f.grants[i].bucket
    requires u < e.grants[i].Units() && u < f.grants[i].Units()
    requires SessionCompleted(r, e) && SessionCompleted(r, f)
    ensures GrantKey(SessionInput(e, i, u)) == GrantKey(SessionInput(f, i, u)) <==> e.paymentIntent == f.paymentIntent
    ensures e.paymentIntent == f.paymentIntent ==>
              CountFor(Of(r.ledger.grants, e.subject), e.grants[i].bucket, SessionRef(e.paymentIntent, i, u)) == 1
    ensures e.paymentIntent != f.paymentIntent ==>
              && CountFor(Of(r.ledger.grants, e.subject), e.grants[i].bucket, SessionRef(e.paymentIntent, i, u)) == 1
              && CountFor(Of(r.ledger.grants, e.subject), e.grants[i].bucket, SessionRef(f.paymentIntent, i, u)) == 1
              && SessionRef(e.paymentIntent, i, u) != SessionRef(f.paymentIntent, i, u)
  {
    var b := e.grants[i].bucket;
    SessionCovers(e, |e.grants|, i, u);
    SessionCovers(f, |f.grants|, i, u);
    OneGrantPerRef(r, e.subject, b, SessionRef(e.paymentIntent, i, u));
    OneGrantPerRef(r, e.subject, b, SessionRef(f.paymentIntent, i, u));
    SessionRefUnique(e.paymentIntent, i, u, f.paymentIntent, i, u);
    GrantKeyUnique(SessionInput(e, i, u), f.subject, b, SessionRef(f.paymentIntent, i, u));
  }

  lemma {:induction false} InvoiceCovers(spec: RecurringSpec, e: InvoiceEvent, n: nat, k: nat)
    requires k < n <= |e.lines| && LineProduct(spec, e.lines[k]).Some?
    ensures var product := LineProduct(spec, e.lines[k]).value;
            InvoiceInput(e, product, spec.products[product].value) in InvoiceInputs(spec, e, n)
  {
    hide InvoiceInput, InvoiceInputs, LineProduct;
    InvoiceLine(spec, e, n - 1);
    if k < n - 1 { InvoiceCovers(spec, e, n - 1, k); }
  }

  ghost predicate InvoiceCompleted(r: Run, spec: RecurringSpec, e: InvoiceEvent) {
    forall inp :: inp in InvoiceInputs(spec, e, |e.lines|) ==> Asked(r, inp.subject, inp.bucket, inp.sourceRef)
  }

  /** Likewise an invoice, with one grant per product that has a recurring grant,
      however many lines name it. */
  lemma {:induction false} CompletedInvoiceIsCredited(r: Run, spec: RecurringSpec, e: InvoiceEvent, k: nat)
    requires r.Legal() && r.Origin() == EMPTY && PlainGrants(r)
    requires k < |e.lines| && LineProduct(spec, e.lines[k]).Some? && InvoiceCompleted(r, spec, e)
    requires '|' !in e.Subject()
    requires var product := LineProduct(spec, e.lines[k]).value;
             AlwaysAsks(r, e.Subject(), InvoiceRef(e.id, product), spec.products[product].value.amount)
    requires '|' !in spec.products[LineProduct(spec, e.lines[k]).value].value.bucket
    ensures var product := LineProduct(spec, e.lines[k]).value;
            var rg := spec.products[product].value;
            && CountFor(Of(r.ledger.grants, e.Subject()), rg.bucket, InvoiceRef(e.id, product)) == 1
            && CreditedFor(Of(r.ledger.grants, e.Subject()), rg.bucket, InvoiceRef(e.id, product)) == rg.amount
  {
    InvoiceCovers(spec, e, |e.lines|, k);
    var product := LineProduct(spec, e.lines[k]).value;
    var rg := spec.products[product].value;
    OneGrantPerRef(r, e.Subject(), rg.bucket, InvoiceRef(e.id, product));
    FirstAmountOwed(r, e.Subject(), rg.bucket, InvoiceRef(e.id, product), rg.amount);
  }
}
