/** Values of the credit ledger: grants, deductions, balances and the order in
    which a deduction drains grants.  The in-memory repository that updates
    them in place is in CreditRepo. */
module CreditLedger {
  import opened Options

  type Subject = string
  type Instant = int

  // One day, in nanoseconds; a grant's validity is counted in UTC days.
  const DAY: int := 86_400_000_000_000

  datatype Grant = Grant(
    id: nat,
    subject: Subject,
    bucket: string,
    initial: int,
    remaining: int,
    grantedAt: Instant,
    expiresAt: Option<Instant>,
    source: string,
    sourceRef: string,
    metadata: map<string, string>)

  datatype Deduction = Deduction(
    subject: Subject,
    bucket: string,
    grantId: nat,
    amount: int,
    reason: string,
    requestId: string,
    createdAt: Instant,
    metadata: map<string, string>)

  datatype GrantInput = GrantInput(
    subject: Subject,
    bucket: string,
    amount: int,
    validDays: int,
    source: string,
    sourceRef: string,
    metadata: map<string, string>)

  datatype DeductInput = DeductInput(
    subject: Subject,
    bucket: string,
    amount: int,
    reason: string,
    requestId: string,
    metadata: map<string, string>)

  datatype Balance = Balance(total: int, grantCount: nat, nextExpiry: Option<Instant>)

  /** Everything the repository holds.  `nextId` supplies fresh grant ids. */
  datatype Ledger = Ledger(
    grants: map<Subject, seq<Grant>>,
    deductions: map<Subject, seq<Deduction>>,
    seenGrant: map<string, nat>,
    seenDeduction: set<string>,
    nextId: nat)

  function Of<T>(m: map<Subject, seq<T>>, s: Subject): seq<T> {
    if s in m then m[s] else []
  }

  /** A grant is expired strictly after its expiry instant. */
  predicate Expired(g: Grant, now: Instant) {
    g.expiresAt.Some? && g.expiresAt.value < now
  }

  predicate Eligible(g: Grant, bucket: string, now: Instant) {
    g.remaining > 0 && !Expired(g, now) && g.bucket == bucket
  }

  /** The comparator of the deduction pool: expiring grants before
      non-expiring ones, then by expiry, then by grant time. */
  predicate Earlier(a: Grant, b: Grant) {
    if a.expiresAt.None? != b.expiresAt.None? then
      a.expiresAt.Some?
    else if a.expiresAt == b.expiresAt then
      a.grantedAt < b.grantedAt
    else
      a.expiresAt.value < b.expiresAt.value
  }

  // ---------------------------------------------------------------- balances

  function Worth(g: Grant, bucket: string, t: Instant): int {
    if Eligible(g, bucket, t) then g.remaining else 0
  }

  /** Credit of a bucket that is still usable at instant t. */
  function Credit(gs: seq<Grant>, bucket: string, t: Instant): int {
    if gs == [] then 0
    else Credit(gs[..|gs| - 1], bucket, t) + Worth(gs[|gs| - 1], bucket, t)
  }

  function SoonerOf(a: Option<Instant>, b: Option<Instant>): Option<Instant> {
    if a.None? || (b.Some? && b.value < a.value) then b else a
  }

  function BalanceOf(gs: seq<Grant>, bucket: string, now: Instant): Balance {
    if gs == [] then Balance(0, 0, None)
    else
      var b := BalanceOf(gs[..|gs| - 1], bucket, now);
      var g := gs[|gs| - 1];
      if Eligible(g, bucket, now) then
        Balance(b.total + g.remaining, b.grantCount + 1, SoonerOf(b.nextExpiry, g.expiresAt))
      else b
  }

  lemma {:induction false} CreditStep(gs: seq<Grant>, g: Grant, bucket: string, t: Instant)
    ensures Credit(gs + [g], bucket, t) == Credit(gs, bucket, t) + Worth(g, bucket, t)
  {
    assert (gs + [g])[..|gs|] == gs;
  }

  ghost predicate LeastExpiry(gs: seq<Grant>, bucket: string, now: Instant, e: Option<Instant>) {
    && (e.Some? ==> exists i :: 0 <= i < |gs| && Eligible(gs[i], bucket, now) && gs[i].expiresAt == e)
    && (forall i :: 0 <= i < |gs| && Eligible(gs[i], bucket, now) && gs[i].expiresAt.Some? ==>
          e.Some? && e.value <= gs[i].expiresAt.value)
  }

  /** A balance reports the usable credit, the number of grants carrying it and
      the first instant at which some of it can lapse. */
  lemma {:induction false} BalanceMeaning(gs: seq<Grant>, bucket: string, now: Instant)
    ensures BalanceOf(gs, bucket, now).total == Credit(gs, bucket, now)
    ensures BalanceOf(gs, bucket, now).grantCount
         == |set i | 0 <= i < |gs| && gs[i].bucket == bucket && gs[i].remaining > 0
                     && (gs[i].expiresAt.None? || now <= gs[i].expiresAt.value)|
    ensures LeastExpiry(gs, bucket, now, BalanceOf(gs, bucket, now).nextExpiry)
  {
    assert (set i | 0 <= i < |gs| && Eligible(gs[i], bucket, now))
        == set i | 0 <= i < |gs| && gs[i].bucket == bucket && gs[i].remaining > 0
                   && (gs[i].expiresAt.None? || now <= gs[i].expiresAt.value);
    hide BalanceOf, Credit, Eligible, LeastExpiry;
    BalanceTotal(gs, bucket, now);
    BalanceCount(gs, bucket, now);
    BalanceExpiry(gs, bucket, now);
  }

  lemma {:induction false} BalanceTotal(gs: seq<Grant>, bucket: string, now: Instant)
    ensures BalanceOf(gs, bucket, now).total == Credit(gs, bucket, now)
  {
    if gs != [] { BalanceTotal(gs[..|gs| - 1], bucket, now); }
  }

  lemma {:induction false} BalanceCount(gs: seq<Grant>, bucket: string, now: Instant)
    ensures BalanceOf(gs, bucket, now).grantCount
         == |set i | 0 <= i < |gs| && Eligible(gs[i], bucket, now)|
  {
    hide Eligible;
    if gs != [] {
      var n := |gs| - 1;
      var init := gs[..n];
      BalanceCount(init, bucket, now);
      var before := set i | 0 <= i < |init| && Eligible(init[i], bucket, now);
      var after := set i | 0 <= i < |gs| && Eligible(gs[i], bucket, now);
      assert after == if Eligible(gs[n], bucket, now) then before + {n} else before;
    }
  }

  lemma {:induction false} BalanceExpiry(gs: seq<Grant>, bucket: string, now: Instant)
    ensures LeastExpiry(gs, bucket, now, BalanceOf(gs, bucket, now).nextExpiry)
  {
    hide Eligible;
    if gs != [] {
      var n := |gs| - 1;
      var init := gs[..n];
      BalanceExpiry(init, bucket, now);
      assert forall i :: 0 <= i < n ==> init[i] == gs[i];
      var e := BalanceOf(init, bucket, now).nextExpiry;
      if e.Some? {
        var i :| 0 <= i < |init| && Eligible(init[i], bucket, now) && init[i].expiresAt == e;
        assert gs[i].expiresAt == e;
      }
    }
  }

  /** Pointwise comparison of two grant lists, possibly at two instants. */
  lemma {:induction false} CreditCompare(a: seq<Grant>, b: seq<Grant>, bucket: string, t: Instant, u: Instant)
    requires |a| == |b|
    requires forall i :: 0 <= i < |a| ==> Worth(a[i], bucket, t) <= Worth(b[i], bucket, u)
    ensures Credit(a, bucket, t) <= Credit(b, bucket, u)
  {
    if a != [] {
      CreditCompare(a[..|a| - 1], b[..|b| - 1], bucket, t, u);
    }
  }

  lemma {:induction false} CreditSame(a: seq<Grant>, b: seq<Grant>, bucket: string, t: Instant, u: Instant)
    requires |a| == |b|
    requires forall i :: 0 <= i < |a| ==> Worth(a[i], bucket, t) == Worth(b[i], bucket, u)
    ensures Credit(a, bucket, t) == Credit(b, bucket, u)
  {
    CreditCompare(a, b, bucket, t, u);
    CreditCompare(b, a, bucket, u, t);
  }

  // -------------------------------------------------------------- deductions

  function Taken(gs: seq<Grant>, after: seq<Grant>): int
    requires |gs| == |after|
  {
    if gs == [] then 0
    else Taken(gs[..|gs| - 1], after[..|gs| - 1]) + gs[|gs| - 1].remaining - after[|gs| - 1].remaining
  }

  /** `after` is `gs` with `amount` drawn from grants usable for the bucket.
      Any allocator must do this much. */
  ghost predicate Draw(gs: seq<Grant>, after: seq<Grant>, bucket: string, now: Instant, amount: int) {
    && |after| == |gs|
    && (forall i :: 0 <= i < |gs| ==>
          if Eligible(gs[i], bucket, now)
          then 0 <= after[i].remaining <= gs[i].remaining && after[i] == gs[i].(remaining := after[i].remaining)
          else after[i] == gs[i])
    && Taken(gs, after) == amount
  }

  /** A draw that touches no grant while a strictly earlier one keeps credit. */
  ghost predicate Greedy(gs: seq<Grant>, after: seq<Grant>, bucket: string, now: Instant, amount: int) {
    && Draw(gs, after, bucket, now, amount)
    && (forall i, j | 0 <= i < |gs| && 0 <= j < |gs| ::
          Eligible(gs[i], bucket, now) && after[j] != gs[j] && Earlier(gs[i], gs[j]) ==>
            after[i].remaining == 0)
  }

  lemma {:induction false} TakenIsCreditDrop(gs: seq<Grant>, after: seq<Grant>, bucket: string, now: Instant)
    requires |gs| == |after|
    requires forall i :: 0 <= i < |gs| ==>
               if Eligible(gs[i], bucket, now)
               then 0 <= after[i].remaining && after[i] == gs[i].(remaining := after[i].remaining)
               else after[i] == gs[i]
    ensures Credit(after, bucket, now) == Credit(gs, bucket, now) - Taken(gs, after)
  {
    if gs != [] {
      TakenIsCreditDrop(gs[..|gs| - 1], after[..|gs| - 1], bucket, now);
    }
  }

  /** A draw lowers the bucket's balance by exactly the amount, never raises
      later credit, and leaves every other bucket alone. */
  lemma {:induction false} DrawEffect(gs: seq<Grant>, after: seq<Grant>, bucket: string, now: Instant, amount: int)
    requires Draw(gs, after, bucket, now, amount)
    ensures Credit(after, bucket, now) == Credit(gs, bucket, now) - amount
    ensures forall t :: Credit(after, bucket, t) <= Credit(gs, bucket, t)
    ensures forall other, t :: other != bucket ==> Credit(after, other, t) == Credit(gs, other, t)
  {
    TakenIsCreditDrop(gs, after, bucket, now);
    forall t ensures Credit(after, bucket, t) <= Credit(gs, bucket, t) {
      CreditCompare(after, gs, bucket, t, t);
    }
    forall other, t | other != bucket ensures Credit(after, other, t) == Credit(gs, other, t) {
      CreditSame(after, gs, other, t, t);
    }
  }

  lemma {:induction false} CreditShrinks(gs: seq<Grant>, bucket: string, t: Instant, u: Instant)
    requires t <= u
    ensures Credit(gs, bucket, u) <= Credit(gs, bucket, t)
  {
    CreditCompare(gs, gs, bucket, u, t);
  }

  /** The earliest-deadline dichotomy: for every later instant t, a greedy draw
      either takes nothing that is still valid at t, or has used up everything
      that lapses before t. */
  lemma {:induction false} GreedyDichotomy(gs: seq<Grant>, after: seq<Grant>, bucket: string, now: Instant,
                                           amount: int, t: Instant)
    requires Greedy(gs, after, bucket, now, amount) && now <= t
    ensures Credit(after, bucket, t) == Credit(gs, bucket, t)
         || Credit(after, bucket, t) == Credit(after, bucket, now)
  {
    if j :| 0 <= j < |gs| && after[j] != gs[j] && !Expired(gs[j], t) {
      forall i | 0 <= i < |gs| ensures Worth(after[i], bucket, t) == Worth(after[i], bucket, now) {
        if Eligible(gs[i], bucket, now) && Expired(gs[i], t) {
          assert Earlier(gs[i], gs[j]);
        }
      }
      CreditSame(after, after, bucket, t, now);
    } else {
      CreditSame(after, gs, bucket, t, t);
    }
  }

  function Lower(gs: seq<Grant>, i: nat, take: int): seq<Grant>
    requires i < |gs|
  {
    gs[i := gs[i].(remaining := gs[i].remaining - take)]
  }

  lemma {:induction false} TakenLower(gs: seq<Grant>, cur: seq<Grant>, i: nat, take: int)
    requires |cur| == |gs| && i < |gs|
    ensures Taken(gs, Lower(cur, i, take)) == Taken(gs, cur) + take
  {
    var n := |gs| - 1;
    if i == n {
      assert Lower(cur, i, take)[..n] == cur[..n];
    } else {
      assert Lower(cur, i, take)[..n] == Lower(cur[..n], i, take);
      TakenLower(gs[..n], cur[..n], i, take);
    }
  }

  lemma {:induction false} TakenNothing(gs: seq<Grant>)
    ensures Taken(gs, gs) == 0
  {
    if gs != [] { TakenNothing(gs[..|gs| - 1]); }
  }

  // ---------------------------------------------------------------- receipts

  function SumForGrant(ds: seq<Deduction>, id: nat): int {
    if ds == [] then 0
    else SumForGrant(ds[..|ds| - 1], id) + (if ds[|ds| - 1].grantId == id then ds[|ds| - 1].amount else 0)
  }

  function SumForRequest(ds: seq<Deduction>, requestId: string): int {
    if ds == [] then 0
    else
      var last := ds[|ds| - 1];
      SumForRequest(ds[..|ds| - 1], requestId) + (if last.requestId == requestId then last.amount else 0)
  }

  lemma {:induction false} SumForGrantConcat(a: seq<Deduction>, b: seq<Deduction>, id: nat)
    ensures SumForGrant(a + b, id) == SumForGrant(a, id) + SumForGrant(b, id)
  {
    if b == [] {
      assert a + b == a;
    } else {
      assert (a + b)[..|a + b| - 1] == a + b[..|b| - 1];
      SumForGrantConcat(a, b[..|b| - 1], id);
    }
  }

  lemma {:induction false} SumForRequestConcat(a: seq<Deduction>, b: seq<Deduction>, r: string)
    ensures SumForRequest(a + b, r) == SumForRequest(a, r) + SumForRequest(b, r)
  {
    if b == [] {
      assert a + b == a;
    } else {
      assert (a + b)[..|a + b| - 1] == a + b[..|b| - 1];
      SumForRequestConcat(a, b[..|b| - 1], r);
    }
  }

  ghost predicate DistinctIds(gs: seq<Grant>) {
    forall i, j :: 0 <= i < j < |gs| ==> gs[i].id != gs[j].id
  }

  /** The deduction rows written for one accepted request account for the draw
      grant by grant. */
  ghost predicate Receipts(gs: seq<Grant>, after: seq<Grant>, inp: DeductInput, now: Instant, ds: seq<Deduction>,
                           amount: int) {
    && |after| == |gs|
    && (forall k :: 0 <= k < |ds| ==>
          && ds[k].subject == inp.subject && ds[k].bucket == inp.bucket
          && ds[k].requestId == inp.requestId && ds[k].reason == inp.reason
          && ds[k].createdAt == now && ds[k].metadata == inp.metadata
          && ds[k].amount > 0)
    && (forall k :: 0 <= k < |ds| ==> exists i :: 0 <= i < |gs| && gs[i].id == ds[k].grantId)
    && (forall i :: 0 <= i < |gs| ==> SumForGrant(ds, gs[i].id) == gs[i].remaining - after[i].remaining)
    && SumForRequest(ds, inp.requestId) == amount
  }

  // ------------------------------------------------------------------- steps

  /** Key of the request dedup index. */
  function RequestKey(s: Subject, requestId: string): string {
    s + "|" + requestId
  }

  /** Key of the grant dedup index; empty when the input is not deduplicated. */
  function GrantKey(inp: GrantInput): string {
    if inp.sourceRef == "" then "" else inp.subject + "|" + inp.bucket + "|" + inp.sourceRef
  }

  function FindId(gs: seq<Grant>, id: nat): (r: Option<Grant>)
    ensures r.Some? ==> r.value in gs && r.value.id == id
    ensures r.None? ==> forall g :: g in gs ==> g.id != id
  {
    if gs == [] then None
    else if gs[0].id == id then Some(gs[0])
    else FindId(gs[1..], id)
  }

  /** The grant a dedup hit returns, if there is one. */
  function Duplicate(l: Ledger, inp: GrantInput): Option<Grant> {
    var key := GrantKey(inp);
    if key != "" && key in l.seenGrant then FindId(Of(l.grants, inp.subject), l.seenGrant[key]) else None
  }

  function NewGrant(id: nat, inp: GrantInput, now: Instant): Grant {
    Grant(id, inp.subject, inp.bucket, inp.amount, inp.amount, now,
          if inp.validDays > 0 then Some(now + inp.validDays * DAY) else None,
          inp.source, inp.sourceRef, inp.metadata)
  }

  function AddGrant(l: Ledger, inp: GrantInput, now: Instant): Ledger {
    if Duplicate(l, inp).Some? then l
    else
      l.(grants := l.grants[inp.subject := Of(l.grants, inp.subject) + [NewGrant(l.nextId, inp, now)]],
         seenGrant := if GrantKey(inp) == "" then l.seenGrant else l.seenGrant[GrantKey(inp) := l.nextId],
         nextId := l.nextId + 1)
  }

  function ZeroIfExpired(g: Grant, now: Instant): Grant {
    if Expired(g, now) && g.remaining > 0 then g.(remaining := 0) else g
  }

  function SweepGrants(gs: seq<Grant>, now: Instant): seq<Grant> {
    seq(|gs|, i requires 0 <= i < |gs| => ZeroIfExpired(gs[i], now))
  }

  function Sweep(l: Ledger, now: Instant): Ledger {
    l.(grants := map s | s in l.grants :: SweepGrants(l.grants[s], now))
  }

  function RevokedGrant(g: Grant, id: nat, reason: string, stamp: string): Grant {
    if g.id == id
    then g.(remaining := 0, metadata := g.metadata["revoked_reason" := reason]["revoked_at" := stamp])
    else g
  }

  function RevokeIn(gs: seq<Grant>, id: nat, reason: string, stamp: string): seq<Grant> {
    seq(|gs|, i requires 0 <= i < |gs| => RevokedGrant(gs[i], id, reason, stamp))
  }

  function Revoke(l: Ledger, id: nat, reason: string, stamp: string): Ledger {
    l.(grants := map s | s in l.grants :: RevokeIn(l.grants[s], id, reason, stamp))
  }

  predicate Repeated(l: Ledger, inp: DeductInput) {
    inp.requestId != "" && RequestKey(inp.subject, inp.requestId) in l.seenDeduction
  }

  /** A new request was served: the draw is recorded and the request id is
      remembered; nothing outside the subject's rows changes. */
  ghost predicate Served(l: Ledger, inp: DeductInput, now: Instant, l': Ledger) {
    var gs, after := Of(l.grants, inp.subject), Of(l'.grants, inp.subject);
    var ds, ds' := Of(l.deductions, inp.subject), Of(l'.deductions, inp.subject);
    && Draw(gs, after, inp.bucket, now, inp.amount)
    && ds <= ds'
    && Receipts(gs, after, inp, now, ds'[|ds|..], inp.amount)
    && l'.grants == l.grants[inp.subject := after]
    && l'.deductions == l.deductions[inp.subject := ds']
    && l'.seenGrant == l.seenGrant
    && l'.nextId == l.nextId
    && l'.seenDeduction == l.seenDeduction
         + (if inp.requestId == "" then {} else {RequestKey(inp.subject, inp.requestId)})
  }

  /** All that TryDeduct may do: repeat, serve earliest expiry first, or refuse
      because the balance is too small. */
  ghost predicate Deducted(l: Ledger, inp: DeductInput, now: Instant, l': Ledger, ok: bool) {
    if Repeated(l, inp) then
      l' == l && ok
    else if inp.amount <= Credit(Of(l.grants, inp.subject), inp.bucket, now) then
      && ok
      && Served(l, inp, now, l')
      && Greedy(Of(l.grants, inp.subject), Of(l'.grants, inp.subject), inp.bucket, now, inp.amount)
    else
      l' == l && !ok
  }

  /** The order of draining, in the fields of the grants: what was drawn from is in
      the bucket, had credit and was not past its expiry; and by then nothing was
      left of any such grant that expires sooner, expires at all where this one never
      does, or has the same expiry and was granted before. */
  ghost predicate DrainedInOrder(gs: seq<Grant>, after: seq<Grant>, bucket: string, now: Instant) {
    && |after| == |gs|
    && (forall j :: 0 <= j < |gs| && after[j] != gs[j] ==>
          gs[j].bucket == bucket && gs[j].remaining > 0 && (gs[j].expiresAt.Some? ==> now <= gs[j].expiresAt.value))
    && (forall i, j :: 0 <= i < |gs| && 0 <= j < |gs| && after[j] != gs[j]
                       && gs[i].bucket == bucket && gs[i].remaining > 0
                       && (gs[i].expiresAt.Some? ==> now <= gs[i].expiresAt.value)
                       && (|| (gs[i].expiresAt.Some? && gs[j].expiresAt.None?)
                           || (gs[i].expiresAt.Some? && gs[j].expiresAt.Some?
                               && gs[i].expiresAt.value < gs[j].expiresAt.value)
                           || (gs[i].expiresAt == gs[j].expiresAt && gs[i].grantedAt < gs[j].grantedAt)) ==>
          after[i].remaining == 0)
  }

  /** Whatever TryDeduct answers, it has drained in that order. */
  lemma {:induction false} DeductInOrder(l: Ledger, inp: DeductInput, now: Instant, l': Ledger, ok: bool)
    requires Deducted(l, inp, now, l', ok)
    ensures DrainedInOrder(Of(l.grants, inp.subject), Of(l'.grants, inp.subject), inp.bucket, now)
  {
  }

  // --------------------------------------------------------------- invariant

  ghost predicate SoundRow(g: Grant, s: Subject, nextId: nat) {
    g.subject == s && g.id < nextId && 0 <= g.remaining <= g.initial && 0 < g.initial
  }

  ghost predicate SoundGrants(l: Ledger) {
    && (forall s, i :: s in l.grants && 0 <= i < |l.grants[s]| ==> SoundRow(l.grants[s][i], s, l.nextId))
    && (forall s :: s in l.grants ==> DistinctIds(l.grants[s]))
    && (forall s, u | s in l.grants && u in l.grants && s != u ::
          forall i, j :: 0 <= i < |l.grants[s]| && 0 <= j < |l.grants[u]| ==>
            l.grants[s][i].id != l.grants[u][j].id)
  }

  const EMPTY := Ledger(map[], map[], map[], {}, 0)

  lemma {:induction false} AddGrantSound(l: Ledger, inp: GrantInput, now: Instant)
    requires SoundGrants(l) && inp.amount > 0
    ensures SoundGrants(AddGrant(l, inp, now))
  {
    if Duplicate(l, inp).None? {
      var l' := AddGrant(l, inp, now);
      var gs := Of(l.grants, inp.subject);
      assert l'.grants[inp.subject] == gs + [NewGrant(l.nextId, inp, now)];
      forall s, i | s in l'.grants && 0 <= i < |l'.grants[s]|
        ensures SoundRow(l'.grants[s][i], s, l'.nextId)
        ensures || l'.grants[s][i].id == l.nextId
                || (s in l.grants && i < |l.grants[s]| && l'.grants[s][i] == l.grants[s][i])
      {
        if s in l.grants && i < |l.grants[s]| { assert SoundRow(l.grants[s][i], s, l.nextId); }
      }
    }
  }

  /** Rows may lose credit or gain audit metadata, never identity. */
  lemma {:induction false} EmptyIsSound()
    ensures SoundGrants(EMPTY)
  {
  }

  ghost predicate SameRow(a: Grant, b: Grant) {
    b == a.(remaining := b.remaining, metadata := b.metadata) && 0 <= b.remaining <= a.remaining
  }

  ghost predicate SameRows(a: seq<Grant>, b: seq<Grant>) {
    |a| == |b| && forall i :: 0 <= i < |a| ==> SameRow(a[i], b[i])
  }

  lemma {:induction false} SameRowsSound(l: Ledger, l': Ledger)
    requires SoundGrants(l)
    requires l'.nextId == l.nextId && l'.grants.Keys == l.grants.Keys
    requires forall s :: s in l.grants ==> SameRows(l.grants[s], l'.grants[s])
    ensures SoundGrants(l')
  {
    forall s, i | s in l'.grants && 0 <= i < |l'.grants[s]|
      ensures SoundRow(l'.grants[s][i], s, l'.nextId) && l'.grants[s][i].id == l.grants[s][i].id
    {
      assert SoundRow(l.grants[s][i], s, l.nextId);
      assert SameRow(l.grants[s][i], l'.grants[s][i]);
    }
  }

  lemma {:induction false} SweepRows(l: Ledger, s: Subject, now: Instant)
    requires SoundGrants(l) && s in l.grants
    ensures SameRows(l.grants[s], SweepGrants(l.grants[s], now))
  {
    forall i | 0 <= i < |l.grants[s]| ensures SameRow(l.grants[s][i], SweepGrants(l.grants[s], now)[i]) {
      assert SoundRow(l.grants[s][i], s, l.nextId);
    }
  }

  lemma {:induction false} SweepSound(l: Ledger, now: Instant)
    requires SoundGrants(l)
    ensures SoundGrants(Sweep(l, now))
  {
    forall s | s in l.grants ensures SameRows(l.grants[s], SweepGrants(l.grants[s], now)) {
      SweepRows(l, s, now);
    }
    SameRowsSound(l, Sweep(l, now));
  }

  lemma {:induction false} RevokeRows(l: Ledger, s: Subject, id: nat, reason: string, stamp: string)
    requires SoundGrants(l) && s in l.grants
    ensures SameRows(l.grants[s], RevokeIn(l.grants[s], id, reason, stamp))
  {
    forall i | 0 <= i < |l.grants[s]|
      ensures SameRow(l.grants[s][i], RevokeIn(l.grants[s], id, reason, stamp)[i])
    {
      assert SoundRow(l.grants[s][i], s, l.nextId);
    }
  }

  lemma {:induction false} RevokeSound(l: Ledger, id: nat, reason: string, stamp: string)
    requires SoundGrants(l)
    ensures SoundGrants(Revoke(l, id, reason, stamp))
  {
    forall s | s in l.grants ensures SameRows(l.grants[s], RevokeIn(l.grants[s], id, reason, stamp)) {
      RevokeRows(l, s, id, reason, stamp);
    }
    SameRowsSound(l, Revoke(l, id, reason, stamp));
  }

  lemma {:induction false} DrawRows(l: Ledger, s: Subject, after: seq<Grant>, bucket: string, now: Instant, amount: int)
    requires SoundGrants(l)
    requires Draw(Of(l.grants, s), after, bucket, now, amount)
    ensures SameRows(Of(l.grants, s), after)
  {
    var gs := Of(l.grants, s);
    forall i | 0 <= i < |gs| ensures SameRow(gs[i], after[i]) {
      assert SoundRow(l.grants[s][i], s, l.nextId);
    }
  }

  lemma {:induction false} ServedSound(l: Ledger, inp: DeductInput, now: Instant, l': Ledger)
    requires SoundGrants(l) && inp.amount > 0
    requires Served(l, inp, now, l')
    ensures inp.subject in l.grants && l'.grants.Keys == l.grants.Keys
    ensures forall s :: s in l.grants ==> SameRows(l.grants[s], l'.grants[s])
    ensures SoundGrants(l')
  {
    var gs, after := Of(l.grants, inp.subject), Of(l'.grants, inp.subject);
    DrawRows(l, inp.subject, after, inp.bucket, now, inp.amount);
    assert Taken([], []) == 0;
    assert gs != [];
    forall s | s in l.grants ensures SameRows(l.grants[s], l'.grants[s]) {
      if s != inp.subject {
        forall i | 0 <= i < |l.grants[s]| ensures SameRow(l.grants[s][i], l'.grants[s][i]) {
          assert SoundRow(l.grants[s][i], s, l.nextId);
        }
      }
    }
    SameRowsSound(l, l');
  }

  // ------------------------------------------------------- what calls mean

  /** A new grant adds its amount to its own bucket until its validity runs out,
      and nothing to any other bucket or subject. */
  lemma {:induction false} GrantAddsCredit(l: Ledger, inp: GrantInput, now: Instant, s: Subject, bucket: string,
                                           t: Instant)
    requires inp.amount > 0 && Duplicate(l, inp).None?
    ensures Credit(Of(AddGrant(l, inp, now).grants, s), bucket, t)
         == Credit(Of(l.grants, s), bucket, t)
            + (if s == inp.subject && bucket == inp.bucket
                  && (inp.validDays <= 0 || t <= now + inp.validDays * (24 * 60 * 60 * 1_000_000_000))
               then inp.amount else 0)
  {
    hide Credit, Worth, GrantKey;
    NewGrantWorth(l.nextId, inp, now, bucket, t);
    if s == inp.subject { CreditStep(Of(l.grants, s), NewGrant(l.nextId, inp, now), bucket, t); }
  }

  lemma {:induction false} NewGrantWorth(id: nat, inp: GrantInput, now: Instant, bucket: string, t: Instant)
    requires inp.amount > 0
    ensures Worth(NewGrant(id, inp, now), bucket, t)
         == if bucket == inp.bucket && (inp.validDays <= 0 || t <= now + inp.validDays * (24 * 60 * 60 * 1_000_000_000))
            then inp.amount else 0
  {
  }

  /** A grant without a ref is never taken for a repetition, and leaves the index of
      refs alone. */
  lemma {:induction false} GrantWithoutRef(l: Ledger, inp: GrantInput, now: Instant)
    requires inp.sourceRef == ""
    ensures var l' := AddGrant(l, inp, now);
            && l'.seenGrant == l.seenGrant && l'.deductions == l.deductions && l'.seenDeduction == l.seenDeduction
            && inp.subject in l'.grants && |l'.grants[inp.subject]| == |Of(l.grants, inp.subject)| + 1
            && forall s :: s != inp.subject ==> Of(l'.grants, s) == Of(l.grants, s)
  {
  }

  /** A sweep leaves no credit on an expired grant and touches no other. */
  lemma {:induction false} SweepMeaning(l: Ledger, now: Instant, s: Subject, i: nat)
    requires SoundGrants(l) && s in l.grants && i < |l.grants[s]|
    ensures s in Sweep(l, now).grants && i < |Sweep(l, now).grants[s]|
    ensures var g, g' := l.grants[s][i], Sweep(l, now).grants[s][i];
            g' == if g.expiresAt.Some? && g.expiresAt.value < now then g.(remaining := 0) else g
  {
    assert SoundRow(l.grants[s][i], s, l.nextId);
  }

  /** A revocation leaves no credit on the grant and touches no other. */
  lemma {:induction false} RevokeMeaning(l: Ledger, id: nat, reason: string, stamp: string, s: Subject, i: nat)
    requires s in l.grants && i < |l.grants[s]|
    ensures var g, g' := l.grants[s][i], Revoke(l, id, reason, stamp).grants[s][i];
            && (g.id != id ==> g' == g)
            && (g.id == id ==>
                  g' == g.(remaining := 0, metadata := g.metadata["revoked_reason" := reason]["revoked_at" := stamp]))
            && forall bucket, t :: g.id == id ==> Worth(g', bucket, t) == 0
  {
  }
}
