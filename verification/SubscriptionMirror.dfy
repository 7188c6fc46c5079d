/** The subscription mirror: webhook events become rows, and a watermark decides
    which row survives when events arrive late, twice or out of order. */
module SubscriptionMirror {
  import opened Options

  /** Unix seconds. */
  type Time = int

  datatype PriceShape = PriceShape(id: string, lookupKey: string)

  datatype ItemShape = ItemShape(id: string, quantity: int, periodStart: Time, periodEnd: Time,
                                 price: Option<PriceShape>)

  /** The payload of a subscription event; 0 stands for an absent timestamp. */
  datatype Shape = Shape(
    id: string, subject: string, customer: string, status: string, cancelAtPeriodEnd: bool,
    canceledAt: Time, endedAt: Time, trialStart: Time, trialEnd: Time, items: seq<ItemShape>)

  /** An event whose payload does not parse has no shape. */
  datatype Event = Event(kind: string, createdUnix: Time, payload: Option<Shape>)

  datatype Item = Item(id: string, quantity: int, priceKey: string)

  datatype Period = Period(start: Time, end: Time)

  datatype Row = Row(
    stripeId: string, subject: string, customer: string, status: string, cancelAtPeriodEnd: bool,
    canceledAt: Option<Time>, endedAt: Option<Time>, trialStart: Option<Time>, trialEnd: Option<Time>,
    items: seq<Item>, period: Option<Period>, updatedAt: Time, watermark: Time)

  const DELETED := "customer.subscription.deleted"
  const CANCELED := "canceled"

  predicate Mirrored(kind: string) {
    || kind == "customer.subscription.created" || kind == "customer.subscription.updated" || kind == DELETED
    || kind == "customer.subscription.paused" || kind == "customer.subscription.resumed"
  }

  /** The catalog cache: price key by Stripe price id. */
  type Resolver = Option<map<string, string>>

  function ResolvePriceKey(resolver: Resolver, p: PriceShape): string {
    if resolver.Some? && p.id in resolver.value then resolver.value[p.id]
    else if p.lookupKey != "" then p.lookupKey
    else "stripe:" + p.id
  }

  function Stamp(t: Time): Option<Time> {
    if t == 0 then None else Some(t)
  }

  function ItemOf(resolver: Resolver, s: ItemShape): Item {
    Item(s.id, s.quantity, if s.price.Some? then ResolvePriceKey(resolver, s.price.value) else "")
  }

  function ItemsOf(resolver: Resolver, ss: seq<ItemShape>): seq<Item> {
    if ss == [] then [] else ItemsOf(resolver, ss[..|ss| - 1]) + [ItemOf(resolver, ss[|ss| - 1])]
  }

  /** The billing period of the first item that has one. */
  function PeriodOf(ss: seq<ItemShape>): Option<Period> {
    if ss == [] then None
    else if ss[0].periodStart > 0 then Some(Period(ss[0].periodStart, ss[0].periodEnd))
    else PeriodOf(ss[1..])
  }

  /** The row an event stands for when it is handled at `now`: a deleted
      subscription is canceled and has ended. */
  function RowOf(resolver: Resolver, e: Event, now: Time): Row
    requires e.payload.Some?
  {
    var s := e.payload.value;
    Row(s.id, s.subject, s.customer, if e.kind == DELETED then CANCELED else s.status, s.cancelAtPeriodEnd,
        Stamp(s.canceledAt), if e.kind == DELETED && s.endedAt == 0 then Some(now) else Stamp(s.endedAt),
        Stamp(s.trialStart), Stamp(s.trialEnd), ItemsOf(resolver, s.items), PeriodOf(s.items), now, e.createdUnix)
  }

  type Mirror = map<string, Row>

  /** The memory rule: replace unless the stored watermark is later. */
  function Upserted(m: Mirror, r: Row): Mirror {
    if r.stripeId in m && m[r.stripeId].watermark > r.watermark then m else m[r.stripeId := r]
  }

  /** The Postgres rule: replace only if the stored watermark is earlier. */
  function UpsertedStrict(m: Mirror, r: Row): Mirror {
    if r.stripeId in m && !(m[r.stripeId].watermark < r.watermark) then m else m[r.stripeId := r]
  }

  // ------------------------------------------------------------ the handler

  lemma {:induction false} PeriodMore(ss: seq<ItemShape>, x: ItemShape)
    ensures PeriodOf(ss + [x]) ==
            if PeriodOf(ss).Some? then PeriodOf(ss)
            else if x.periodStart > 0 then Some(Period(x.periodStart, x.periodEnd)) else None
  {
    if ss != [] {
      PeriodMore(ss[1..], x);
      assert (ss + [x])[1..] == ss[1..] + [x];
    }
  }

  /** The key of an item's price: the catalog's if it knows the price, else the
      price's own lookup key, else one made of its Stripe id. */
  ghost predicate KeyedBy(resolver: Resolver, s: ItemShape, key: string) {
    match s.price
    case None => key == ""
    case Some(price) =>
      && (resolver.Some? && price.id in resolver.value ==> key == resolver.value[price.id])
      && (resolver.None? || price.id !in resolver.value ==>
            key == if price.lookupKey == "" then "stripe:" + price.id else price.lookupKey)
  }

  lemma {:induction false} ItemsAre(resolver: Resolver, ss: seq<ItemShape>)
    ensures |ItemsOf(resolver, ss)| == |ss|
    ensures forall i :: 0 <= i < |ss| ==>
              var item := ItemsOf(resolver, ss)[i];
              item.id == ss[i].id && item.quantity == ss[i].quantity && KeyedBy(resolver, ss[i], item.priceKey)
  {
    if ss != [] { ItemsAre(resolver, ss[..|ss| - 1]); }
  }

  /** The period is that of the first item with a positive start. */
  ghost predicate FirstPeriod(ss: seq<ItemShape>, period: Option<Period>) {
    match period
    case None => forall i :: 0 <= i < |ss| ==> ss[i].periodStart <= 0
    case Some(p) =>
      exists i :: 0 <= i < |ss| && p.start == ss[i].periodStart > 0 && p.end == ss[i].periodEnd
                  && forall j :: 0 <= j < i ==> ss[j].periodStart <= 0
  }

  lemma {:induction false} PeriodIsFirst(ss: seq<ItemShape>)
    ensures FirstPeriod(ss, PeriodOf(ss))
  {
    if ss != [] {
      PeriodIsFirst(ss[1..]);
      var rest, period := ss[1..], PeriodOf(ss[1..]);
      if ss[0].periodStart <= 0 && period.Some? {
        var i :| 0 <= i < |rest| && period.value.start == rest[i].periodStart > 0
                 && period.value.end == rest[i].periodEnd && forall j :: 0 <= j < i ==> rest[j].periodStart <= 0;
        assert period.value.start == ss[i + 1].periodStart && period.value.end == ss[i + 1].periodEnd;
        assert forall j :: 0 <= j < i + 1 ==> ss[j].periodStart <= 0;
      }
    }
  }

  method ParseSubscription(resolver: Resolver, s: Shape) returns (items: seq<Item>, period: Option<Period>)
    ensures items == ItemsOf(resolver, s.items) && period == PeriodOf(s.items)
    ensures |items| == |s.items| && FirstPeriod(s.items, period)
    ensures forall i :: 0 <= i < |items| ==>
              && items[i].id == s.items[i].id && items[i].quantity == s.items[i].quantity
              && KeyedBy(resolver, s.items[i], items[i].priceKey)
  {
    hide FirstPeriod, KeyedBy;
    ItemsAre(resolver, s.items);
    PeriodIsFirst(s.items);
    items, period := [], None;
    for i := 0 to |s.items|
      invariant items == ItemsOf(resolver, s.items[..i]) && period == PeriodOf(s.items[..i])
    {
      var raw := s.items[i];
      assert s.items[..i + 1][..i] == s.items[..i];
      assert s.items[..i + 1] == s.items[..i] + [raw];
      PeriodMore(s.items[..i], raw);
      var priceKey := "";
      if raw.price.Some? { priceKey := ResolvePriceKey(resolver, raw.price.value); }
      items := items + [Item(raw.id, raw.quantity, priceKey)];
      if period.None? && raw.periodStart > 0 {
        period := Some(Period(raw.periodStart, raw.periodEnd));
      }
    }
    assert s.items[..|s.items|] == s.items;
  }

  class MemoryRepo {
    var byStripeId: Mirror

    constructor ()
      ensures byStripeId == map[]
    {
      byStripeId := map[];
    }

    method Upsert(r: Row)
      modifies this
      ensures byStripeId == Upserted(old(byStripeId), r)
    {
      if r.stripeId in byStripeId {
        if byStripeId[r.stripeId].watermark > r.watermark { return; }
      }
      byStripeId := byStripeId[r.stripeId := r];
    }
  }

  /** One handled delivery: an event and the time it is handled. */
  datatype Delivery = Delivery(event: Event, now: Time)

  predicate Counts(d: Delivery) {
    Mirrored(d.event.kind) && d.event.payload.Some?
  }

  function Handle(resolver: Resolver, m: Mirror, d: Delivery): Mirror {
    if Counts(d) then Upserted(m, RowOf(resolver, d.event, d.now)) else m
  }

  function HandleStrict(resolver: Resolver, m: Mirror, d: Delivery): Mirror {
    if Counts(d) then UpsertedStrict(m, RowOf(resolver, d.event, d.now)) else m
  }

  /** The row an event leaves, field by field: what the payload says, with absent
      instants left out, except that a deletion is canceled and has ended. */
  ghost predicate RowFor(resolver: Resolver, e: Event, s: Shape, now: Time, r: Row) {
    var deleted := e.kind == "customer.subscription.deleted";
    && r.stripeId == s.id && r.subject == s.subject && r.customer == s.customer
    && r.status == (if deleted then "canceled" else s.status) && r.cancelAtPeriodEnd == s.cancelAtPeriodEnd
    && (if s.canceledAt == 0 then r.canceledAt.None? else r.canceledAt == Some(s.canceledAt))
    && (if s.endedAt != 0 then r.endedAt == Some(s.endedAt)
        else if deleted then r.endedAt == Some(now) else r.endedAt.None?)
    && (if s.trialStart == 0 then r.trialStart.None? else r.trialStart == Some(s.trialStart))
    && (if s.trialEnd == 0 then r.trialEnd.None? else r.trialEnd == Some(s.trialEnd))
    && |r.items| == |s.items| && FirstPeriod(s.items, r.period)
    && (forall i :: 0 <= i < |r.items| ==>
          && r.items[i].id == s.items[i].id && r.items[i].quantity == s.items[i].quantity
          && KeyedBy(resolver, s.items[i], r.items[i].priceKey))
    && r.updatedAt == now && r.watermark == e.createdUnix
  }

  lemma {:induction false} RowIsFor(resolver: Resolver, e: Event, now: Time)
    requires e.payload.Some?
    ensures RowFor(resolver, e, e.payload.value, now, RowOf(resolver, e, now))
  {
    hide KeyedBy, FirstPeriod;
    ItemsAre(resolver, e.payload.value.items);
    PeriodIsFirst(e.payload.value.items);
  }

  const LIFECYCLE := {
    "customer.subscription.created", "customer.subscription.updated", "customer.subscription.deleted",
    "customer.subscription.paused", "customer.subscription.resumed"}

  method ApplyEventToMirror(repo: MemoryRepo, resolver: Resolver, e: Event, now: Time) returns (ok: bool)
    modifies repo
    ensures repo.byStripeId == Handle(resolver, old(repo.byStripeId), Delivery(e, now))
    ensures ok <==> e.kind !in LIFECYCLE || e.payload.Some?
    ensures e.kind !in LIFECYCLE || e.payload.None? ==> repo.byStripeId == old(repo.byStripeId)
    ensures e.kind in LIFECYCLE && e.payload.Some? ==>
              var s, m := e.payload.value, old(repo.byStripeId);
              if s.id in m && m[s.id].watermark > e.createdUnix then repo.byStripeId == m
              else
                && s.id in repo.byStripeId && RowFor(resolver, e, s, now, repo.byStripeId[s.id])
                && repo.byStripeId == m[s.id := repo.byStripeId[s.id]]
  {
    hide RowFor;
    if e.payload.Some? { RowIsFor(resolver, e, now); }
    if !Mirrored(e.kind) { return true; }
    if e.payload.None? { return false; }
    var s := e.payload.value;
    var items, period := ParseSubscription(resolver, s);
    var status, endedAt := s.status, Stamp(s.endedAt);
    if e.kind == DELETED {
      status := CANCELED;
      if endedAt.None? { endedAt := Some(now); }
    }
    repo.Upsert(Row(s.id, s.subject, s.customer, status, s.cancelAtPeriodEnd, Stamp(s.canceledAt), endedAt,
                    Stamp(s.trialStart), Stamp(s.trialEnd), items, period, now, e.createdUnix));
    return true;
  }

  // ----------------------------------------------------------------- any order

  /** The mirror after a sequence of deliveries, with either rule. */
  function Run(strict: bool, resolver: Resolver, ds: seq<Delivery>): Mirror {
    if ds == [] then map[]
    else
      var m, d := Run(strict, resolver, ds[..|ds| - 1]), ds[|ds| - 1];
      if strict then HandleStrict(resolver, m, d) else Handle(resolver, m, d)
  }

  /** A delivery that concerns this subscription. */
  predicate About(d: Delivery, id: string) {
    Counts(d) && d.event.payload.value.id == id
  }

  /** Delivery k carries the latest watermark; with the memory rule it is the last
      to do so, with the strict rule the first. */
  ghost predicate Decides(strict: bool, ds: seq<Delivery>, id: string, k: nat) {
    && k < |ds| && About(ds[k], id)
    && (forall j :: 0 <= j < |ds| && About(ds[j], id) ==> ds[j].event.createdUnix <= ds[k].event.createdUnix)
    && (forall j :: 0 <= j < |ds| && About(ds[j], id) && (if strict then j < k else j > k) ==>
          ds[j].event.createdUnix < ds[k].event.createdUnix)
  }

  lemma {:induction false} LastDecides(strict: bool, ds: seq<Delivery>, id: string, k: nat)
    requires ds != [] && About(ds[|ds| - 1], id)
    requires Decides(strict, ds[..|ds| - 1], id, k)
    requires ds[k].event.createdUnix < ds[|ds| - 1].event.createdUnix
             || (!strict && ds[k].event.createdUnix == ds[|ds| - 1].event.createdUnix)
    ensures Decides(strict, ds, id, |ds| - 1)
  {
    var init := ds[..|ds| - 1];
    assert forall j :: 0 <= j < |init| ==> init[j] == ds[j];
  }

  lemma {:induction false} EarlierDecides(strict: bool, ds: seq<Delivery>, id: string, k: nat)
    requires ds != [] && Decides(strict, ds[..|ds| - 1], id, k)
    requires About(ds[|ds| - 1], id) ==>
               ds[|ds| - 1].event.createdUnix < ds[k].event.createdUnix
               || (strict && ds[|ds| - 1].event.createdUnix == ds[k].event.createdUnix)
    ensures Decides(strict, ds, id, k)
  {
    var init := ds[..|ds| - 1];
    assert forall j :: 0 <= j < |init| ==> init[j] == ds[j];
  }

  predicate Seen(ds: seq<Delivery>, id: string) {
    exists j :: 0 <= j < |ds| && About(ds[j], id)
  }

  lemma {:induction false} SeenMore(ds: seq<Delivery>, id: string)
    requires ds != []
    ensures Seen(ds, id) <==> Seen(ds[..|ds| - 1], id) || About(ds[|ds| - 1], id)
  {
    var init := ds[..|ds| - 1];
    assert forall j :: 0 <= j < |init| ==> init[j] == ds[j];
  }

  lemma {:induction false} FirstDecides(strict: bool, ds: seq<Delivery>, id: string)
    requires ds != [] && About(ds[|ds| - 1], id) && !Seen(ds[..|ds| - 1], id)
    ensures Decides(strict, ds, id, |ds| - 1)
  {
    var init := ds[..|ds| - 1];
    assert forall j :: 0 <= j < |init| ==> init[j] == ds[j];
  }

  /** The stored row is the one of the deciding delivery, so its watermark is the
      maximum seen; a subscription has a row exactly when it was seen. */
  lemma {:induction false} RowIsDecided(strict: bool, resolver: Resolver, ds: seq<Delivery>, id: string)
    returns (k: nat)
    ensures id in Run(strict, resolver, ds) <==> Seen(ds, id)
    ensures id in Run(strict, resolver, ds) ==>
              Decides(strict, ds, id, k) && Run(strict, resolver, ds)[id] == RowOf(resolver, ds[k].event, ds[k].now)
  {
    hide ItemsOf, PeriodOf, Stamp, Mirrored, Decides, Seen;
    k := 0;
    if ds == [] {
      assert !Seen(ds, id) by { NothingSeen(id); }
    } else {
      var n := |ds| - 1;
      var init := ds[..n];
      SeenMore(ds, id);
      k := RowIsDecided(strict, resolver, init, id);
      if id in Run(strict, resolver, init) { DecidesInRange(strict, init, id, k); }
      if !About(ds[n], id) {
        if id in Run(strict, resolver, init) { EarlierDecides(strict, ds, id, k); }
      } else if id !in Run(strict, resolver, init) {
        FirstDecides(strict, ds, id);
        k := n;
      } else if ds[k].event.createdUnix < ds[n].event.createdUnix
                || (!strict && ds[k].event.createdUnix == ds[n].event.createdUnix) {
        LastDecides(strict, ds, id, k);
        k := n;
      } else {
        EarlierDecides(strict, ds, id, k);
      }
    }
  }

  lemma {:induction false} NothingSeen(id: string)
    ensures !Seen([], id)
  {
  }

  lemma {:induction false} DecidesInRange(strict: bool, ds: seq<Delivery>, id: string, k: nat)
    requires Decides(strict, ds, id, k)
    ensures k < |ds| && About(ds[k], id)
  {
  }

  /** Equal apart from when they were written. */
  predicate SameRow(r: Row, s: Row) {
    r.(updatedAt := s.updatedAt) == s
  }

  /** The row does not depend on the time of handling: exactly the events other
      than deletions without an end time. */
  predicate TimeFree(e: Event)
    requires e.payload.Some?
  {
    e.kind != DELETED || e.payload.value.endedAt != 0
  }

  lemma {:induction false} RowsAgree(resolver: Resolver, e: Event, now: Time, now': Time)
    requires e.payload.Some? && now != now'
    ensures SameRow(RowOf(resolver, e, now), RowOf(resolver, e, now')) <==> TimeFree(e)
    ensures SameRow(RowOf(resolver, e, now).(endedAt := RowOf(resolver, e, now').endedAt), RowOf(resolver, e, now'))
  {
    hide ItemsOf, PeriodOf;
  }

  /** Same events about this subscription, in any order and number. */
  ghost predicate SameEvents(ds: seq<Delivery>, ds': seq<Delivery>, id: string) {
    && (forall j :: 0 <= j < |ds| && About(ds[j], id) ==> Occurs(ds[j].event, ds'))
    && (forall j :: 0 <= j < |ds'| && About(ds'[j], id) ==> Occurs(ds'[j].event, ds))
  }

  ghost predicate Occurs(e: Event, ds: seq<Delivery>) {
    exists j :: 0 <= j < |ds| && ds[j].event == e
  }

  /** Different events about this subscription differ in their watermark. */
  ghost predicate DistinctWatermarks(ds: seq<Delivery>, id: string) {
    forall i, j :: 0 <= i < |ds| && 0 <= j < |ds| && About(ds[i], id) && About(ds[j], id)
                   && ds[i].event.createdUnix == ds[j].event.createdUnix ==>
      ds[i].event == ds[j].event
  }

  /** The deciding events of two such sequences are one and the same. */
  lemma {:induction false} OneDecidingEvent(strict: bool, strict': bool, ds: seq<Delivery>, ds': seq<Delivery>,
                                            id: string, k: nat, k': nat)
    requires SameEvents(ds, ds', id) && DistinctWatermarks(ds, id)
    requires Decides(strict, ds, id, k) && Decides(strict', ds', id, k')
    ensures ds[k].event == ds'[k'].event
  {
    assert Occurs(ds[k].event, ds') && Occurs(ds'[k'].event, ds);
    var j :| 0 <= j < |ds'| && ds'[j].event == ds[k].event;
    var i :| 0 <= i < |ds| && ds[i].event == ds'[k'].event;
    assert About(ds'[j], id) && About(ds[i], id);
  }

  /** The latest event about the subscription is time free. */
  ghost predicate LatestIsTimeFree(ds: seq<Delivery>, id: string) {
    forall k :: 0 <= k < |ds| && About(ds[k], id) && Latest(ds, id, k) ==> TimeFree(ds[k].event)
  }

  ghost predicate Latest(ds: seq<Delivery>, id: string, k: nat)
    requires k < |ds|
  {
    forall j :: 0 <= j < |ds| && About(ds[j], id) ==> ds[j].event.createdUnix <= ds[k].event.createdUnix
  }

  /** Convergence: with distinct watermarks every reordering and repetition, under
      either rule, ends with rows for the same subscriptions, equal up to UpdatedAt
      (and, if the latest event is a deletion without an end time, up to EndedAt). */
  lemma {:induction false} MirrorsConverge(strict: bool, strict': bool, resolver: Resolver, ds: seq<Delivery>,
                                           ds': seq<Delivery>, id: string)
    requires SameEvents(ds, ds', id) && DistinctWatermarks(ds, id)
    ensures id in Run(strict, resolver, ds) <==> id in Run(strict', resolver, ds')
    ensures id in Run(strict, resolver, ds) ==>
              var r, r' := Run(strict, resolver, ds)[id], Run(strict', resolver, ds')[id];
              && SameRow(r.(endedAt := r'.endedAt), r')
              && (LatestIsTimeFree(ds, id) ==> SameRow(r, r'))
  {
    var k := RowIsDecided(strict, resolver, ds, id);
    var k' := RowIsDecided(strict', resolver, ds', id);
    assert id in Run(strict, resolver, ds) <==> id in Run(strict', resolver, ds') by {
      if j :| 0 <= j < |ds| && About(ds[j], id) { OccursAbout(ds[j], ds', id); }
      if j :| 0 <= j < |ds'| && About(ds'[j], id) { OccursAbout(ds'[j], ds, id); }
    }
    if id in Run(strict, resolver, ds) {
      OneDecidingEvent(strict, strict', ds, ds', id, k, k');
      assert Latest(ds, id, k);
      if ds[k].now != ds'[k'].now { RowsAgree(resolver, ds[k].event, ds[k].now, ds'[k'].now); }
    }
  }

  lemma {:induction false} OccursAbout(d: Delivery, ds: seq<Delivery>, id: string)
    requires About(d, id) && Occurs(d.event, ds)
    ensures exists j :: 0 <= j < |ds| && About(ds[j], id)
  {
    var j :| 0 <= j < |ds| && ds[j].event == d.event;
    assert About(ds[j], id);
  }

  /** If the latest event deletes the subscription, its row says canceled and has
      an end, whatever arrives before or after. */
  lemma {:induction false} DeletionIsFinal(strict: bool, resolver: Resolver, ds: seq<Delivery>, id: string, d: nat)
    requires d < |ds| && About(ds[d], id) && ds[d].event.kind == DELETED
    requires forall j :: 0 <= j < |ds| && About(ds[j], id) && ds[j].event != ds[d].event ==>
               ds[j].event.createdUnix < ds[d].event.createdUnix
    ensures id in Run(strict, resolver, ds)
    ensures var r := Run(strict, resolver, ds)[id];
            r.status == CANCELED && r.endedAt.Some? && r.watermark == ds[d].event.createdUnix
  {
    hide ItemsOf, PeriodOf, Run;
    var k := RowIsDecided(strict, resolver, ds, id);
    assert ds[k].event == ds[d].event;
  }

  /** Both hypotheses are needed.  Two events of the same second are kept in
      arrival order by the memory rule and in reverse by the strict one. */
  lemma {:induction false} TiesDiverge(resolver: Resolver, s: Shape, t: Time)
    requires s.status != CANCELED
    ensures var created := Delivery(Event("customer.subscription.created", t, Some(s)), t);
            var deleted := Delivery(Event(DELETED, t, Some(s)), t);
            var ds := [created, deleted];
            && s.id in Run(false, resolver, ds) && Run(false, resolver, ds)[s.id].status == CANCELED
            && s.id in Run(true, resolver, ds) && Run(true, resolver, ds)[s.id].status == s.status
  {
    hide ItemsOf, PeriodOf;
    var created := Delivery(Event("customer.subscription.created", t, Some(s)), t);
    var deleted := Delivery(Event(DELETED, t, Some(s)), t);
    var ds := [created, deleted];
    assert ds[..1] == [created] && [created][..0] == [];
    assert Run(false, resolver, [created])[s.id] == RowOf(resolver, created.event, t);
    assert Run(true, resolver, [created])[s.id] == RowOf(resolver, created.event, t);
  }

  /** And handling one deletion without an end time again moves the end. */
  lemma {:induction false} RedeliveredDeletionMovesEnd(resolver: Resolver, s: Shape, t: Time, now: Time, later: Time)
    requires s.endedAt == 0 && now < later
    ensures var e := Event(DELETED, t, Some(s));
            var once, twice := [Delivery(e, now)], [Delivery(e, now), Delivery(e, later)];
            && s.id in Run(false, resolver, once) && Run(false, resolver, once)[s.id].endedAt == Some(now)
            && s.id in Run(false, resolver, twice) && Run(false, resolver, twice)[s.id].endedAt == Some(later)
  {
    hide ItemsOf, PeriodOf;
    var e := Event(DELETED, t, Some(s));
    var twice := [Delivery(e, now), Delivery(e, later)];
    assert twice[..1] == [Delivery(e, now)] && [Delivery(e, now)][..0] == [];
    assert Run(false, resolver, [Delivery(e, now)])[s.id] == RowOf(resolver, e, now);
  }
}
