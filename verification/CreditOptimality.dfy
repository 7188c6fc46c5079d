/** Earliest-expiry deduction is optimal: over any run of grants, clock
    advances, expiry sweeps and requests, it serves every request that any
    allocation strategy at all could have served. */
module CreditOptimality {
  import opened Options
  import opened CreditLedger
  import opened CreditHistory

  /** A call against a rival repository that may choose freely which usable
      grants to draw from, but must serve every new request. */
  ghost predicate RivalStep(l: Ledger, ev: Event, l': Ledger) {
    match ev
    case GrantEvent(inp, now) => inp.amount > 0 && l' == AddGrant(l, inp, now)
    case DeductEvent(inp, now) =>
      && inp.amount > 0
      && (if Repeated(l, inp) then l' == l else Served(l, inp, now, l'))
    case ExpiryEvent(now) => l' == Sweep(l, now)
    case RevokeEvent(id, reason, stamp, _) => l' == Revoke(l, id, reason, stamp)
  }

  datatype Race =
    | Off(ledger: Ledger, at: Instant)
    | Lap(before: Race, ev: Event, ours: Ledger, ok: bool, rival: Ledger)
  {
    function Ours(): Ledger { match this case Off(l, _) => l case Lap(_, _, o, _, _) => o }
    function Rival(): Ledger { match this case Off(l, _) => l case Lap(_, _, _, _, v) => v }
    function Clock(): Instant { match this case Off(_, at) => at case Lap(_, ev, _, _, _) => ev.now }
    function Origin(): Ledger { match this case Off(l, _) => l case Lap(b, _, _, _, _) => b.Origin() }

    /** Both start from the same ledger and receive the same calls; revocations
        are among them only if that is allowed. */
    ghost predicate Legal(revocable: bool) {
      match this
      case Off(l, _) => SoundGrants(l)
      case Lap(b, ev, o, ok, v) =>
        && b.Legal(revocable) && b.Clock() <= ev.now
        && (revocable || !ev.RevokeEvent?)
        && Step(b.Ours(), ev, o, ok)
        && RivalStep(b.Rival(), ev, v)
    }
  }

  /** Same history of grants and requests; only where credit was taken from may
      differ, and then ours is usable at least as long. */
  ghost predicate Ahead(o: Ledger, v: Ledger, now: Instant) {
    && o.grants.Keys == v.grants.Keys
    && (forall s :: s in o.grants ==> SameIds(o.grants[s], v.grants[s]))
    && o.seenGrant == v.seenGrant && o.seenDeduction == v.seenDeduction && o.nextId == v.nextId
    && (forall s, bucket, t :: now <= t ==>
          Credit(Of(v.grants, s), bucket, t) <= Credit(Of(o.grants, s), bucket, t))
  }

  ghost predicate SameIds(a: seq<Grant>, b: seq<Grant>) {
    |a| == |b| && forall i :: 0 <= i < |a| ==> a[i].id == b[i].id
  }

  lemma {:induction false} SameIdsFind(a: seq<Grant>, b: seq<Grant>, id: nat)
    requires SameIds(a, b)
    ensures FindId(a, id).Some? <==> FindId(b, id).Some?
  {
    if a != [] { SameIdsFind(a[1..], b[1..], id); }
  }

  lemma {:induction false} GrantKeepsAhead(o: Ledger, v: Ledger, inp: GrantInput, now: Instant)
    requires Ahead(o, v, now)
    ensures Ahead(AddGrant(o, inp, now), AddGrant(v, inp, now), now)
  {
    var go, gv := Of(o.grants, inp.subject), Of(v.grants, inp.subject);
    assert SameIds(go, gv);
    if GrantKey(inp) in o.seenGrant { SameIdsFind(go, gv, o.seenGrant[GrantKey(inp)]); }
    if Duplicate(o, inp).None? {
      var g := NewGrant(o.nextId, inp, now);
      var o', v' := AddGrant(o, inp, now), AddGrant(v, inp, now);
      forall s, bucket, t | now <= t
        ensures Credit(Of(v'.grants, s), bucket, t) <= Credit(Of(o'.grants, s), bucket, t)
      {
        if s == inp.subject {
          CreditStep(go, g, bucket, t);
          CreditStep(gv, g, bucket, t);
        } else {
          assert Of(o'.grants, s) == Of(o.grants, s) && Of(v'.grants, s) == Of(v.grants, s);
        }
      }
    }
  }

  lemma {:induction false} SweepKeepsCredit(l: Ledger, s: Subject, bucket: string, now: Instant, t: Instant)
    requires now <= t
    ensures Credit(Of(Sweep(l, now).grants, s), bucket, t) == Credit(Of(l.grants, s), bucket, t)
  {
    CreditSame(Of(Sweep(l, now).grants, s), Of(l.grants, s), bucket, t, t);
  }

  lemma {:induction false} SweepKeepsAhead(o: Ledger, v: Ledger, now: Instant)
    requires Ahead(o, v, now)
    ensures Ahead(Sweep(o, now), Sweep(v, now), now)
  {
    forall s, bucket, t | now <= t
      ensures Credit(Of(Sweep(v, now).grants, s), bucket, t) <= Credit(Of(Sweep(o, now).grants, s), bucket, t)
    {
      SweepKeepsCredit(o, s, bucket, now, t);
      SweepKeepsCredit(v, s, bucket, now, t);
    }
    forall s | s in o.grants ensures SameIds(Sweep(o, now).grants[s], Sweep(v, now).grants[s]) {
      assert SameIds(o.grants[s], v.grants[s]);
    }
  }

  /** The heart of the argument: after both served the same amount, earliest
      expiry still has at least as much credit for every later instant. */
  lemma {:induction false} DrawKeepsAhead(go: seq<Grant>, go': seq<Grant>, gv: seq<Grant>, gv': seq<Grant>,
                                          bucket: string, now: Instant, amount: int, t: Instant)
    requires Greedy(go, go', bucket, now, amount) && Draw(gv, gv', bucket, now, amount) && now <= t
    requires forall u :: now <= u ==> Credit(gv, bucket, u) <= Credit(go, bucket, u)
    ensures Credit(gv', bucket, t) <= Credit(go', bucket, t)
  {
    DrawEffect(go, go', bucket, now, amount);
    DrawEffect(gv, gv', bucket, now, amount);
    GreedyDichotomy(go, go', bucket, now, amount, t);
    CreditShrinks(gv', bucket, now, t);
  }

  lemma {:induction false} DrawIsCovered(gs: seq<Grant>, after: seq<Grant>, bucket: string, now: Instant, amount: int)
    requires Draw(gs, after, bucket, now, amount)
    ensures amount <= Credit(gs, bucket, now)
  {
    DrawEffect(gs, after, bucket, now, amount);
    CreditNonNegative(after, bucket, now);
  }

  lemma {:induction false} DeductKeepsAhead(o: Ledger, v: Ledger, inp: DeductInput, now: Instant, o': Ledger,
                                            ok: bool, v': Ledger)
    requires Ahead(o, v, now) && SoundGrants(o) && SoundGrants(v) && inp.amount > 0 && !Repeated(v, inp)
    requires Deducted(o, inp, now, o', ok) && Served(v, inp, now, v')
    ensures ok && Ahead(o', v', now)
  {
    hide SoundGrants, Receipts, Greedy, Draw, Credit, Duplicate;
    var s := inp.subject;
    DrawIsCovered(Of(v.grants, s), Of(v'.grants, s), inp.bucket, now, inp.amount);
    assert Credit(Of(v.grants, s), inp.bucket, now) <= Credit(Of(o.grants, s), inp.bucket, now);
    ServedSound(o, inp, now, o');
    ServedSound(v, inp, now, v');
    forall u | u in o'.grants ensures SameIds(o'.grants[u], v'.grants[u]) {
      assert SameIds(o.grants[u], v.grants[u]);
      assert SameRows(o.grants[u], o'.grants[u]) && SameRows(v.grants[u], v'.grants[u]);
    }
    forall u, bucket, t | now <= t
      ensures Credit(Of(v'.grants, u), bucket, t) <= Credit(Of(o'.grants, u), bucket, t)
    {
      ServedKeepsAhead(o, v, inp, now, o', v', u, bucket, t);
    }
  }

  lemma {:induction false} ServedKeepsAhead(o: Ledger, v: Ledger, inp: DeductInput, now: Instant, o': Ledger,
                                            v': Ledger, u: Subject, bucket: string, t: Instant)
    requires forall s, b, t :: now <= t ==> Credit(Of(v.grants, s), b, t) <= Credit(Of(o.grants, s), b, t)
    requires Served(o, inp, now, o') && Served(v, inp, now, v') && now <= t
    requires Greedy(Of(o.grants, inp.subject), Of(o'.grants, inp.subject), inp.bucket, now, inp.amount)
    ensures Credit(Of(v'.grants, u), bucket, t) <= Credit(Of(o'.grants, u), bucket, t)
  {
    if u == inp.subject {
      var go, go', gv, gv' := Of(o.grants, u), Of(o'.grants, u), Of(v.grants, u), Of(v'.grants, u);
      if bucket == inp.bucket {
        DrawKeepsAhead(go, go', gv, gv', bucket, now, inp.amount, t);
      } else {
        DrawEffect(go, go', inp.bucket, now, inp.amount);
        DrawEffect(gv, gv', inp.bucket, now, inp.amount);
      }
    } else {
      assert Of(o'.grants, u) == Of(o.grants, u) && Of(v'.grants, u) == Of(v.grants, u);
    }
  }

  lemma {:induction false} RivalSound(l: Ledger, ev: Event, l': Ledger)
    requires SoundGrants(l) && RivalStep(l, ev, l') && !ev.RevokeEvent?
    ensures SoundGrants(l')
  {
    match ev
    case GrantEvent(inp, now) => AddGrantSound(l, inp, now);
    case DeductEvent(inp, now) => if l' != l { ServedSound(l, inp, now, l'); }
    case ExpiryEvent(now) => SweepSound(l, now);
  }

  ghost predicate AllServed(r: Race) {
    r.Lap? ==> r.ok && AllServed(r.before)
  }

  /** Optimality over whole runs: if some strategy serves every request, then
      earliest expiry serves every request, and at each point it holds, for every
      subject, bucket and future instant, at least as much usable credit. */
  lemma {:induction false} EarliestExpiryIsOptimal(r: Race)
    requires r.Legal(false)
    ensures AllServed(r)
    ensures SoundGrants(r.Ours()) && SoundGrants(r.Rival())
    ensures Ahead(r.Ours(), r.Rival(), r.Clock())
  {
    if r.Lap? {
      var b := r.before;
      EarliestExpiryIsOptimal(b);
      var o, v := b.Ours(), b.Rival();
      assert Ahead(o, v, r.ev.now);
      StepSound(o, r.ev, r.ours, r.ok);
      RivalSound(v, r.ev, r.rival);
      match r.ev
      case GrantEvent(inp, now) => GrantKeepsAhead(o, v, inp, now);
      case ExpiryEvent(now) => SweepKeepsAhead(o, v, now);
      case DeductEvent(inp, now) =>
        if !Repeated(v, inp) {
          DeductKeepsAhead(o, v, inp, now, r.ours, r.ok, r.rival);
        }
    }
  }

  // -------------------------------------------------------------- revocations

  /** A grant of `amount` that expires after a day, and one that never does. */
  function EarlyGrant(s: Subject, bucket: string, amount: int): GrantInput {
    GrantInput(s, bucket, amount, 1, "", "", map[])
  }

  function LateGrant(s: Subject, bucket: string, amount: int): GrantInput {
    GrantInput(s, bucket, amount, 0, "", "", map[])
  }

  function Request(s: Subject, bucket: string, amount: int): DeductInput {
    DeductInput(s, bucket, amount, "", "", map[])
  }

  function TwoGrants(s: Subject, bucket: string, amount: int, now: Instant): Ledger {
    AddGrant(AddGrant(EMPTY, EarlyGrant(s, bucket, amount), now), LateGrant(s, bucket, amount), now)
  }

  lemma {:induction false} TwoRows(s: Subject, bucket: string, amount: int, now: Instant)
    ensures Of(TwoGrants(s, bucket, amount, now).grants, s)
         == [NewGrant(0, EarlyGrant(s, bucket, amount), now), NewGrant(1, LateGrant(s, bucket, amount), now)]
  {
    var l := AddGrant(EMPTY, EarlyGrant(s, bucket, amount), now);
    assert Of(l.grants, s) == [NewGrant(0, EarlyGrant(s, bucket, amount), now)];
  }

  /** Earliest expiry draws on the early grant, so revoking the late one leaves
      nothing for the next request. */
  lemma {:induction false} OursIsRefused(s: Subject, bucket: string, amount: int, reason: string, stamp: string,
                                         now: Instant)
    requires amount > 0
    ensures var l, req := TwoGrants(s, bucket, amount, now), Request(s, bucket, amount);
            && |Of(l.grants, s)| == 2
            && var l' := TakeFrom(l, req, now, 0);
               && Deducted(l, req, now, l', true)
               && Deducted(Revoke(l', 1, reason, stamp), req, now, Revoke(l', 1, reason, stamp), false)
  {
    var l, req := TwoGrants(s, bucket, amount, now), Request(s, bucket, amount);
    hide Served, Greedy, TwoGrants, Revoke, TakeFrom;
    TwoRows(s, bucket, amount, now);
    TakeFromIsDeducted(l, req, now, 0);
    RowsAfter(l, req, now, 0, reason, stamp);
    var r := Revoke(TakeFrom(l, req, now, 0), 1, reason, stamp);
    var gs := Of(r.grants, s);
    assert |gs| == 2 && gs[0].remaining == 0 && gs[1].remaining == 0;
    CreditOfTwo(gs, bucket, now);
  }

  /** The rival draws on the late grant, which is the one revoked, and still has the
      early one. */
  lemma {:induction false} RivalIsServed(s: Subject, bucket: string, amount: int, reason: string, stamp: string,
                                         now: Instant)
    requires amount > 0
    ensures var l, req := TwoGrants(s, bucket, amount, now), Request(s, bucket, amount);
            && |Of(l.grants, s)| == 2
            && var r := Revoke(TakeFrom(l, req, now, 1), 1, reason, stamp);
               && Served(l, req, now, TakeFrom(l, req, now, 1))
               && |Of(r.grants, s)| == 2 && Served(r, req, now, TakeFrom(r, req, now, 0))
  {
    var l, req := TwoGrants(s, bucket, amount, now), Request(s, bucket, amount);
    hide Served, TwoGrants, Revoke, TakeFrom;
    TwoRows(s, bucket, amount, now);
    TakeFromServes(l, req, now, 1);
    RowsAfter(l, req, now, 1, reason, stamp);
    var r := Revoke(TakeFrom(l, req, now, 1), 1, reason, stamp);
    var gs := Of(r.grants, s);
    assert gs[0] == Of(l.grants, s)[0] && gs[1].id == 1;
    TakeFromServes(r, req, now, 0);
  }

  /** The subject's rows after a draw on grant i and the revocation of grant 1. */
  lemma {:induction false} RowsAfter(l: Ledger, req: DeductInput, now: Instant, i: nat, reason: string, stamp: string)
    requires i < |Of(l.grants, req.subject)|
    ensures Of(Revoke(TakeFrom(l, req, now, i), 1, reason, stamp).grants, req.subject)
         == RevokeIn(Lower(Of(l.grants, req.subject), i, req.amount), 1, reason, stamp)
  {
  }

  lemma {:induction false} CreditOfTwo(gs: seq<Grant>, bucket: string, now: Instant)
    requires |gs| == 2 && gs[0].remaining == 0 && gs[1].remaining == 0
    ensures Credit(gs, bucket, now) == 0
  {
    assert gs[..1] == [gs[0]] && [gs[0]][..0] == [];
    assert Credit([gs[0]], bucket, now) == 0;
  }

  /** Revocations have to be left out: in a run of two grants, a request, a
      revocation and the same request again, the rival serves both requests and
      earliest expiry refuses the second. */
  lemma {:induction false} RevocationBreaksOptimality(s: Subject, bucket: string, amount: int, reason: string,
                                                      stamp: string, now: Instant)
    returns (r: Race)
    requires amount > 0
    ensures r.Legal(true) && !AllServed(r) && r.Lap? && r.ev.DeductEvent? && !r.ok
    ensures r.before.Lap? && r.before.ev.RevokeEvent? && r.before.before.Legal(false)
    ensures r.Origin() == EMPTY
  {
    hide Deducted, Served, SoundGrants, Revoke, TakeFrom;
    var early, late, req := EarlyGrant(s, bucket, amount), LateGrant(s, bucket, amount), Request(s, bucket, amount);
    var l1, l2 := AddGrant(EMPTY, early, now), TwoGrants(s, bucket, amount, now);
    EmptyIsSound();
    OursIsRefused(s, bucket, amount, reason, stamp, now);
    RivalIsServed(s, bucket, amount, reason, stamp, now);
    var o3, v3 := TakeFrom(l2, req, now, 0), TakeFrom(l2, req, now, 1);
    var o4, v4 := Revoke(o3, 1, reason, stamp), Revoke(v3, 1, reason, stamp);
    var start := Off(EMPTY, now);
    assert start.Legal(false) && start.Legal(true) && start.Origin() == EMPTY;
    var first := Lap(start, GrantEvent(early, now), l1, true, l1);
    assert first.Legal(false) && first.Legal(true) && first.Origin() == EMPTY;
    var granted := Lap(first, GrantEvent(late, now), l2, true, l2);
    assert granted.Legal(false) && granted.Legal(true) && granted.Origin() == EMPTY;
    var drawn := Lap(granted, DeductEvent(req, now), o3, true, v3);
    assert drawn.Legal(false) && drawn.Legal(true) && drawn.Origin() == EMPTY;
    var revoked := Lap(drawn, RevokeEvent(1, reason, stamp, now), o4, true, v4);
    assert revoked.Legal(true) && revoked.Origin() == EMPTY;
    r := Lap(revoked, DeductEvent(req, now), o4, false, TakeFrom(v4, req, now, 0));
  }
}
