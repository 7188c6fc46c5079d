/** Whole runs of the credit ledger: conservation of every grant, one receipt
    set per request id, exactness of a deduction, and why running the expiry
    sweep, or not running it, can never be observed. */
module CreditHistory {
  import opened Options
  import opened Text
  import opened CreditLedger

  datatype Event =
    | GrantEvent(gin: GrantInput, now: Instant)
    | DeductEvent(din: DeductInput, now: Instant)
    | ExpiryEvent(now: Instant)
    | RevokeEvent(id: nat, reason: string, stamp: string, now: Instant)

  /** One call against the repository, with the boolean it answers. */
  ghost predicate Step(l: Ledger, ev: Event, l': Ledger, ok: bool) {
    match ev
    case GrantEvent(inp, now) => inp.amount > 0 && l' == AddGrant(l, inp, now) && ok
    case DeductEvent(inp, now) => inp.amount > 0 && Deducted(l, inp, now, l', ok)
    case ExpiryEvent(now) => l' == Sweep(l, now) && ok
    case RevokeEvent(id, reason, stamp, now) => l' == Revoke(l, id, reason, stamp) && ok
  }

  /** A run: a ledger at some instant, followed by calls under a clock that
      never goes back. */
  datatype Run =
    | Start(ledger: Ledger, at: Instant)
    | Then(before: Run, ev: Event, ok: bool, ledger: Ledger)
  {
    function Clock(): Instant {
      match this
      case Start(_, at) => at
      case Then(_, ev, _, _) => ev.now
    }

    ghost predicate Legal() {
      match this
      case Start(l, _) => SoundGrants(l)
      case Then(b, ev, ok, l) => b.Legal() && b.Clock() <= ev.now && Step(b.ledger, ev, l, ok)
    }

    function Origin(): Ledger {
      match this
      case Start(l, _) => l
      case Then(b, _, _, _) => b.Origin()
    }
  }

  lemma {:induction false} StepSound(l: Ledger, ev: Event, l': Ledger, ok: bool)
    requires SoundGrants(l) && Step(l, ev, l', ok)
    ensures SoundGrants(l')
  {
    match ev
    case GrantEvent(inp, now) => AddGrantSound(l, inp, now);
    case DeductEvent(inp, now) =>
      if l' != l { ServedSound(l, inp, now, l'); }
    case ExpiryEvent(now) => SweepSound(l, now);
    case RevokeEvent(id, reason, stamp, now) => RevokeSound(l, id, reason, stamp);
  }

  lemma {:induction false} RunSound(r: Run)
    requires r.Legal()
    ensures SoundGrants(r.ledger)
  {
    if r.Then? {
      RunSound(r.before);
      StepSound(r.before.ledger, r.ev, r.ledger, r.ok);
    }
  }

  // ------------------------------------------------------------ TryDeduct

  /** A new request succeeds exactly when the balance covers it; then the
      balance drops by exactly the amount, otherwise nothing changes; no other
      bucket or subject ever notices. */
  lemma {:induction false} DeductExact(l: Ledger, inp: DeductInput, now: Instant, l': Ledger, ok: bool)
    requires Deducted(l, inp, now, l', ok) && !Repeated(l, inp) && inp.amount > 0
    ensures ok <==> inp.amount <= BalanceOf(Of(l.grants, inp.subject), inp.bucket, now).total
    ensures ok ==> inp.amount + BalanceOf(Of(l'.grants, inp.subject), inp.bucket, now).total
                     == BalanceOf(Of(l.grants, inp.subject), inp.bucket, now).total
    ensures !ok ==> l' == l
    ensures forall s, b, t | (s, b) != (inp.subject, inp.bucket) ::
              Credit(Of(l'.grants, s), b, t) == Credit(Of(l.grants, s), b, t)
  {
    var gs := Of(l.grants, inp.subject);
    BalanceMeaning(gs, inp.bucket, now);
    if ok {
      var after := Of(l'.grants, inp.subject);
      BalanceMeaning(after, inp.bucket, now);
      DrawEffect(gs, after, inp.bucket, now, inp.amount);
    }
  }

  // --------------------------------------------------------- conservation

  ghost predicate HasRow(l: Ledger, s: Subject, i: nat) {
    s in l.grants && i < |l.grants[s]|
  }

  function RowDrop(l: Ledger, l': Ledger, s: Subject, i: nat): int {
    if s in l.grants && i < |l.grants[s]| && s in l'.grants && i < |l'.grants[s]|
    then l.grants[s][i].remaining - l'.grants[s][i].remaining
    else 0
  }

  /** Credit the i-th grant of s lost to expiry sweeps over the run. */
  function ExpiredFrom(r: Run, s: Subject, i: nat): int {
    match r
    case Start(_, _) => 0
    case Then(b, ev, _, l) =>
      ExpiredFrom(b, s, i) + (if ev.ExpiryEvent? then RowDrop(b.ledger, l, s, i) else 0)
  }

  /** Credit the i-th grant of s lost to revocations over the run. */
  function RevokedFrom(r: Run, s: Subject, i: nat): int {
    match r
    case Start(_, _) => 0
    case Then(b, ev, _, l) =>
      RevokedFrom(b, s, i) + (if ev.RevokeEvent? then RowDrop(b.ledger, l, s, i) else 0)
  }

  /** Whether this call is the acceptance of a new request (s, id). */
  predicate Accepts(r: Run, s: Subject, id: string) {
    && r.Then? && r.ev.DeductEvent? && r.ok
    && r.ev.din.subject == s && r.ev.din.requestId == id
    && !Repeated(r.before.ledger, r.ev.din)
  }

  function AcceptedCount(r: Run, s: Subject, id: string): nat {
    if r.Start? then 0 else AcceptedCount(r.before, s, id) + (if Accepts(r, s, id) then 1 else 0)
  }

  function AcceptedAmount(r: Run, s: Subject, id: string): int {
    if r.Start? then 0
    else AcceptedAmount(r.before, s, id) + (if Accepts(r, s, id) then r.ev.din.amount else 0)
  }

  /** Deduction rows name grants that exist. */
  ghost predicate RowsNamed(l: Ledger) {
    forall s, k :: s in l.deductions && 0 <= k < |l.deductions[s]| ==> l.deductions[s][k].grantId < l.nextId
  }

  ghost predicate Balanced(r: Run, s: Subject, i: nat)
    requires HasRow(r.ledger, s, i)
  {
    var g := r.ledger.grants[s][i];
    && 0 <= g.remaining <= g.initial
    && g.initial == g.remaining + SumForGrant(Of(r.ledger.deductions, s), g.id)
                  + ExpiredFrom(r, s, i) + RevokedFrom(r, s, i)
  }

  lemma {:induction false} NoRowForFreshId(ds: seq<Deduction>, id: nat)
    requires forall k :: 0 <= k < |ds| ==> ds[k].grantId < id
    ensures SumForGrant(ds, id) == 0
  {
    if ds != [] { NoRowForFreshId(ds[..|ds| - 1], id); }
  }

  lemma {:induction false} StepNames(l: Ledger, ev: Event, l': Ledger, ok: bool)
    requires SoundGrants(l) && RowsNamed(l) && Step(l, ev, l', ok)
    ensures RowsNamed(l')
  {
    if ev.DeductEvent? && l' != l {
      var s := ev.din.subject;
      var gs := Of(l.grants, s);
      var ds, ds' := Of(l.deductions, s), Of(l'.deductions, s);
      forall k | 0 <= k < |ds'| ensures ds'[k].grantId < l'.nextId {
        if k < |ds| {
          assert ds'[k] == ds[k];
        } else {
          var row := ds'[|ds|..][k - |ds|];
          var i :| 0 <= i < |gs| && gs[i].id == row.grantId;
          assert SoundRow(l.grants[s][i], s, l.nextId);
        }
      }
    }
  }

  lemma {:induction false} RunNames(r: Run)
    requires r.Legal() && RowsNamed(r.Origin())
    ensures RowsNamed(r.ledger)
  {
    if r.Then? {
      RunNames(r.before);
      RunSound(r.before);
      StepNames(r.before.ledger, r.ev, r.ledger, r.ok);
    }
  }

  /** A served request moves credit from grants to deduction rows. */
  lemma {:induction false} ServedMoves(l: Ledger, inp: DeductInput, now: Instant, l': Ledger, s: Subject, i: nat)
    requires SoundGrants(l) && inp.amount > 0 && Served(l, inp, now, l') && HasRow(l, s, i)
    ensures HasRow(l', s, i) && SameRow(l.grants[s][i], l'.grants[s][i])
    ensures SumForGrant(Of(l'.deductions, s), l.grants[s][i].id)
         == SumForGrant(Of(l.deductions, s), l.grants[s][i].id) + l.grants[s][i].remaining - l'.grants[s][i].remaining
  {
    ServedSound(l, inp, now, l');
    assert SameRows(l.grants[s], l'.grants[s]);
    assert SameRow(l.grants[s][i], l'.grants[s][i]);
    if s == inp.subject {
      var ds, ds' := Of(l.deductions, s), Of(l'.deductions, s);
      assert ds' == ds + ds'[|ds|..];
      SumForGrantConcat(ds, ds'[|ds|..], l.grants[s][i].id);
    }
  }

  /** Conservation: in every reachable ledger each grant's initial amount is
      what remains plus recorded deductions plus what expired plus what was
      revoked. */
  lemma {:induction false} Conservation(r: Run, s: Subject, i: nat)
    requires r.Legal() && r.Origin() == EMPTY && HasRow(r.ledger, s, i)
    ensures Balanced(r, s, i)
  {
    if r.Then? {
      RunSound(r.before);
      if HasRow(r.before.ledger, s, i) {
        Conservation(r.before, s, i);
        RowKept(r, s, i);
      } else {
        RunNames(r.before);
        RowAdded(r, s, i);
      }
    }
  }

  lemma {:induction false} RowKept(r: Run, s: Subject, i: nat)
    requires r.Then? && r.Legal() && SoundGrants(r.before.ledger) && HasRow(r.before.ledger, s, i)
    requires Balanced(r.before, s, i)
    ensures HasRow(r.ledger, s, i) && Balanced(r, s, i)
  {
    var l, l' := r.before.ledger, r.ledger;
    match r.ev
    case GrantEvent(inp, now) =>
      assert l'.grants[s][i] == l.grants[s][i];
    case DeductEvent(inp, now) =>
      if l' != l {
        ServedMoves(l, inp, now, l', s, i);
        assert SameRow(l.grants[s][i], l'.grants[s][i]);
      }
    case ExpiryEvent(now) =>
      SweepRows(l, s, now);
      assert SameRow(l.grants[s][i], l'.grants[s][i]);
    case RevokeEvent(id, reason, stamp, now) =>
      RevokeRows(l, s, id, reason, stamp);
      assert SameRow(l.grants[s][i], l'.grants[s][i]);
  }

  lemma {:induction false} RowAdded(r: Run, s: Subject, i: nat)
    requires r.Then? && r.Legal() && SoundGrants(r.before.ledger) && RowsNamed(r.before.ledger)
    requires HasRow(r.ledger, s, i) && !HasRow(r.before.ledger, s, i)
    ensures Balanced(r, s, i)
  {
    var l, l' := r.before.ledger, r.ledger;
    RowsPersist(l, r.ev, l', r.ok, s, i);
    assert l'.grants[s][i] == NewGrant(l.nextId, r.ev.gin, r.ev.now);
    NoRowForFreshId(Of(l.deductions, s), l.nextId);
    NothingLostYet(r.before, s, i);
  }

  lemma {:induction false} NothingLostYet(r: Run, s: Subject, i: nat)
    requires r.Legal() && !HasRow(r.ledger, s, i)
    ensures ExpiredFrom(r, s, i) == 0 && RevokedFrom(r, s, i) == 0
  {
    if r.Then? {
      RunSound(r.before);
      RowsPersist(r.before.ledger, r.ev, r.ledger, r.ok, s, i);
      NothingLostYet(r.before, s, i);
    }
  }

  /** No call removes a grant, and only a grant call adds one. */
  lemma {:induction false} RowsPersist(l: Ledger, ev: Event, l': Ledger, ok: bool, s: Subject, i: nat)
    requires SoundGrants(l) && Step(l, ev, l', ok)
    ensures HasRow(l, s, i) ==> HasRow(l', s, i)
    ensures !ev.GrantEvent? && HasRow(l', s, i) ==> HasRow(l, s, i)
  {
    if ev.DeductEvent? && l' != l {
      ServedSound(l, ev.din, ev.now, l');
      assert s in l.grants ==> SameRows(l.grants[s], l'.grants[s]);
    }
  }

  // ---------------------------------------------------------- request ids

  /** The request index joins subject and request id with a bar.  Two subjects
      can share an index entry exactly when one id extends the other by a bar. */
  lemma {:induction false} RequestKeysClash(s: Subject, u: Subject)
    requires s != u
    ensures (exists a, b :: a != "" && b != "" && RequestKey(s, a) == RequestKey(u, b)) <==>
              s + "|" <= u || u + "|" <= s
  {
    if s + "|" <= u { KeyOfExtension(s, u, "x"); }
    if u + "|" <= s { KeyOfExtension(u, s, "x"); }
    forall a, b | RequestKey(s, a) == RequestKey(u, b) ensures s + "|" <= u || u + "|" <= s {
      if |s| <= |u| { JoinOverlap('|', s, a, u, b); } else { JoinOverlap('|', u, b, s, a); }
    }
  }

  /** The request id under which s meets the key of a request of u. */
  function MeetingId(s: Subject, u: Subject, id: string): string
    requires s + "|" <= u
  {
    u[|s| + 1..] + "|" + id
  }

  lemma {:induction false} KeyOfExtension(s: Subject, u: Subject, id: string)
    requires s + "|" <= u
    ensures RequestKey(s, MeetingId(s, u, id)) == RequestKey(u, id) && MeetingId(s, u, id) != ""
  {
    assert u == s + "|" + u[|s| + 1..];
  }

  // ---------------------------------------------------- runs with chosen draws

  /** The ledger after drawing the whole amount from the i-th grant. */
  function TakeFrom(l: Ledger, inp: DeductInput, now: Instant, i: nat): Ledger
    requires i < |Of(l.grants, inp.subject)|
  {
    var gs := Of(l.grants, inp.subject);
    l.(grants := l.grants[inp.subject := Lower(gs, i, inp.amount)],
       deductions := l.deductions[inp.subject := Of(l.deductions, inp.subject) + [OneReceipt(gs[i].id, inp, now)]],
       seenDeduction := l.seenDeduction
                        + (if inp.requestId == "" then {} else {RequestKey(inp.subject, inp.requestId)}))
  }

  /** A single usable grant that covers the amount can serve a request. */
  lemma {:induction false} TakeFromServes(l: Ledger, inp: DeductInput, now: Instant, i: nat)
    requires DistinctIds(Of(l.grants, inp.subject)) && i < |Of(l.grants, inp.subject)|
    requires Eligible(Of(l.grants, inp.subject)[i], inp.bucket, now)
    requires 0 < inp.amount <= Of(l.grants, inp.subject)[i].remaining
    ensures Served(l, inp, now, TakeFrom(l, inp, now, i))
  {
    hide Draw, Receipts, Lower;
    var gs, ds := Of(l.grants, inp.subject), Of(l.deductions, inp.subject);
    TakeOneDraws(gs, inp.bucket, now, inp.amount, i);
    TakeOneReceipts(gs, inp, now, i);
    assert (ds + [OneReceipt(gs[i].id, inp, now)])[|ds|..] == [OneReceipt(gs[i].id, inp, now)];
  }

  function OneReceipt(grantId: nat, inp: DeductInput, now: Instant): Deduction {
    Deduction(inp.subject, inp.bucket, grantId, inp.amount, inp.reason, inp.requestId, now, inp.metadata)
  }

  lemma {:induction false} TakeOneDraws(gs: seq<Grant>, bucket: string, now: Instant, amount: int, i: nat)
    requires i < |gs| && Eligible(gs[i], bucket, now) && 0 < amount <= gs[i].remaining
    ensures Draw(gs, Lower(gs, i, amount), bucket, now, amount)
  {
    hide Taken;
    TakenNothing(gs);
    TakenLower(gs, gs, i, amount);
  }

  lemma {:induction false} TakeOneReceipts(gs: seq<Grant>, inp: DeductInput, now: Instant, i: nat)
    requires DistinctIds(gs) && i < |gs| && inp.amount > 0
    ensures Receipts(gs, Lower(gs, i, inp.amount), inp, now, [OneReceipt(gs[i].id, inp, now)], inp.amount)
  {
    var row := OneReceipt(gs[i].id, inp, now);
    assert [row][..0] == [];
    forall j | 0 <= j < |gs|
      ensures SumForGrant([row], gs[j].id) == gs[j].remaining - Lower(gs, i, inp.amount)[j].remaining
    {
      assert j != i ==> gs[j].id != gs[i].id;
      assert SumForGrant([], gs[j].id) == 0;
    }
    assert SumForRequest([], inp.requestId) == 0;
  }

  /** It is what TryDeduct does when no usable grant comes earlier. */
  lemma {:induction false} TakeFromIsDeducted(l: Ledger, inp: DeductInput, now: Instant, i: nat)
    requires DistinctIds(Of(l.grants, inp.subject)) && i < |Of(l.grants, inp.subject)|
    requires Eligible(Of(l.grants, inp.subject)[i], inp.bucket, now)
    requires 0 < inp.amount <= Of(l.grants, inp.subject)[i].remaining && !Repeated(l, inp)
    requires forall j :: 0 <= j < |Of(l.grants, inp.subject)| ==>
               !Earlier(Of(l.grants, inp.subject)[j], Of(l.grants, inp.subject)[i])
    ensures Deducted(l, inp, now, TakeFrom(l, inp, now, i), true)
  {
    hide Draw, Receipts, Served;
    TakeFromServes(l, inp, now, i);
    var gs := Of(l.grants, inp.subject);
    TakeOneGreedy(gs, inp.bucket, now, inp.amount, i);
    OneGrantCredit(gs, i, inp.bucket, now);
  }

  lemma {:induction false} TakeOneGreedy(gs: seq<Grant>, bucket: string, now: Instant, amount: int, i: nat)
    requires i < |gs| && Eligible(gs[i], bucket, now) && 0 < amount <= gs[i].remaining
    requires forall j :: 0 <= j < |gs| ==> !Earlier(gs[j], gs[i])
    ensures Greedy(gs, Lower(gs, i, amount), bucket, now, amount)
  {
    hide Draw;
    TakeOneDraws(gs, bucket, now, amount, i);
  }

  lemma {:induction false} OneGrantCredit(gs: seq<Grant>, i: nat, bucket: string, now: Instant)
    requires i < |gs| && Eligible(gs[i], bucket, now)
    ensures gs[i].remaining <= Credit(gs, bucket, now) && 0 <= Credit(gs, bucket, now)
  {
    var n := |gs| - 1;
    CreditNonNegative(gs[..n], bucket, now);
    if i < n { OneGrantCredit(gs[..n], i, bucket, now); }
  }

  lemma {:induction false} CreditNonNegative(gs: seq<Grant>, bucket: string, now: Instant)
    ensures 0 <= Credit(gs, bucket, now)
  {
    if gs != [] { CreditNonNegative(gs[..|gs| - 1], bucket, now); }
  }

  /** And then the clash is real: after a request of u has been accepted, the first
      request of s under the meeting id is answered as a repeat, although s has no
      credit at all. */
  lemma {:induction false} ClashAnswersAsRepeat(s: Subject, u: Subject, bucket: string, amount: int, id: string,
                                                now: Instant)
    returns (r: Run)
    requires s + "|" <= u && amount > 0 && id != ""
    ensures r.Legal() && r.Origin() == EMPTY && r.Then? && r.ev.DeductEvent? && r.ok
    ensures r.ev.din.subject == s && r.ev.din.requestId != "" && r.ev.din.amount == amount
    ensures BalanceOf(Of(r.before.ledger.grants, s), bucket, now).total == 0
    ensures r.ledger == r.before.ledger && AcceptedCount(r, s, r.ev.din.requestId) == 0
  {
    var gin := GrantInput(u, bucket, amount, 0, "", "", map[]);
    var first := DeductInput(u, bucket, amount, "", id, map[]);
    var second := DeductInput(s, bucket, amount, "", MeetingId(s, u, id), map[]);
    hide Deducted;
    var l1 := AddGrant(EMPTY, gin, now);
    assert Of(l1.grants, u) == [NewGrant(0, gin, now)];
    TakeFromIsDeducted(l1, first, now, 0);
    var l2 := TakeFrom(l1, first, now, 0);
    KeyOfExtension(s, u, id);
    RepeatedIsDeducted(l2, second, now);
    assert |s| < |u|;
    assert Of(l2.grants, s) == [];
    var start := Start(EMPTY, now);
    assert start.Legal();
    var granted := Then(start, GrantEvent(gin, now), true, l1);
    assert granted.Legal() && granted.Origin() == EMPTY && AcceptedCount(granted, s, second.requestId) == 0;
    var drawn := Then(granted, DeductEvent(first, now), true, l2);
    assert drawn.Legal() && drawn.Origin() == EMPTY && AcceptedCount(drawn, s, second.requestId) == 0;
    r := Then(drawn, DeductEvent(second, now), true, l2);
  }

  lemma {:induction false} RepeatedIsDeducted(l: Ledger, inp: DeductInput, now: Instant)
    requires Repeated(l, inp)
    ensures Deducted(l, inp, now, l, true)
  {
  }

  ghost predicate PlainSubjects(r: Run) {
    r.Then? ==> PlainSubjects(r.before) && (r.ev.DeductEvent? ==> '|' !in r.ev.din.subject)
  }

  /** At most one call is ever accepted under a (subject, request id), and the
      rows recorded under it sum to exactly what was accepted. */
  lemma {:induction false} OneAcceptance(r: Run, s: Subject, id: string)
    requires r.Legal() && r.Origin() == EMPTY && PlainSubjects(r)
    requires '|' !in s && id != ""
    ensures AcceptedCount(r, s, id) == if RequestKey(s, id) in r.ledger.seenDeduction then 1 else 0
    ensures SumForRequest(Of(r.ledger.deductions, s), id) == AcceptedAmount(r, s, id)
    ensures AcceptedCount(r, s, id) == 0 ==> AcceptedAmount(r, s, id) == 0
  {
    if r.Then? {
      var l, l' := r.before.ledger, r.ledger;
      OneAcceptance(r.before, s, id);
      if r.ev.DeductEvent? && l' != l {
        var inp := r.ev.din;
        ServedRequest(l, inp, r.ev.now, l', s, id);
        if RequestKey(s, id) == RequestKey(inp.subject, inp.requestId) {
          JoinUnique('|', s, id, inp.subject, inp.requestId);
        }
      } else if r.ev.DeductEvent? {
        DeductChanges(l, r.ev.din, r.ev.now, r.ok);
      }
    }
  }

  lemma {:induction false} ServedRequest(l: Ledger, inp: DeductInput, now: Instant, l': Ledger, s: Subject, id: string)
    requires Served(l, inp, now, l')
    ensures SumForRequest(Of(l'.deductions, s), id)
         == SumForRequest(Of(l.deductions, s), id)
            + (if inp.subject == s && inp.requestId == id then inp.amount else 0)
  {
    if s == inp.subject {
      var ds, ds' := Of(l.deductions, s), Of(l'.deductions, s);
      var rows := ds'[|ds|..];
      assert ds' == ds + rows;
      SumForRequestConcat(ds, rows, id);
      if inp.requestId != id { OtherRequest(rows, id); }
    }
  }

  lemma {:induction false} OtherRequest(rows: seq<Deduction>, id: string)
    requires forall k :: 0 <= k < |rows| ==> rows[k].requestId != id
    ensures SumForRequest(rows, id) == 0
  {
    if rows != [] { OtherRequest(rows[..|rows| - 1], id); }
  }

  /** A call that leaves the ledger alone was a repeat or a refusal. */
  lemma {:induction false} DeductChanges(l: Ledger, inp: DeductInput, now: Instant, ok: bool)
    requires inp.amount > 0 && Deducted(l, inp, now, l, ok)
    ensures ok ==> Repeated(l, inp)
  {
    if ok && !Repeated(l, inp) {
      DrawEffect(Of(l.grants, inp.subject), Of(l.grants, inp.subject), inp.bucket, now, inp.amount);
    }
  }

  // ------------------------------------------------------ expiry invisible

  /** Two rows that differ at most in credit nobody can use any more. */
  ghost predicate Alike(a: Grant, b: Grant, now: Instant) {
    && b == a.(remaining := b.remaining)
    && (!Expired(a, now) ==> a.remaining == b.remaining)
  }

  ghost predicate AlikeRows(a: seq<Grant>, b: seq<Grant>, now: Instant) {
    |a| == |b| && forall i :: 0 <= i < |a| ==> Alike(a[i], b[i], now)
  }

  ghost predicate Indistinct(a: Ledger, b: Ledger, now: Instant) {
    && a.grants.Keys == b.grants.Keys
    && (forall s :: s in a.grants ==> AlikeRows(a.grants[s], b.grants[s], now))
    && a.deductions == b.deductions && a.seenGrant == b.seenGrant
    && a.seenDeduction == b.seenDeduction && a.nextId == b.nextId
  }

  lemma {:induction false} AlikeBalance(a: seq<Grant>, b: seq<Grant>, now: Instant, bucket: string, t: Instant)
    requires AlikeRows(a, b, now) && now <= t
    ensures BalanceOf(a, bucket, t) == BalanceOf(b, bucket, t)
    ensures Credit(a, bucket, t) == Credit(b, bucket, t)
  {
    if a != [] {
      AlikeBalance(a[..|a| - 1], b[..|b| - 1], now, bucket, t);
      assert Alike(a[|a| - 1], b[|b| - 1], now);
    }
  }

  lemma {:induction false} AlikeFind(a: seq<Grant>, b: seq<Grant>, now: Instant, id: nat)
    requires AlikeRows(a, b, now)
    ensures FindId(a, id).Some? <==> FindId(b, id).Some?
  {
    if a != [] {
      assert Alike(a[0], b[0], now);
      AlikeFind(a[1..], b[1..], now, id);
    }
  }

  /** The rows of a draw, copied onto a list that differs only in dead credit. */
  function Transfer(after: seq<Grant>, b: seq<Grant>, now: Instant): (r: seq<Grant>)
    requires |after| == |b|
    ensures |r| == |b|
  {
    seq(|b|, i requires 0 <= i < |b| => if Expired(b[i], now) then b[i] else after[i])
  }

  lemma {:induction false} TransferTaken(a: seq<Grant>, after: seq<Grant>, b: seq<Grant>, now: Instant)
    requires |a| == |b| == |after|
    requires forall i :: 0 <= i < |a| ==> Alike(a[i], b[i], now) && (Expired(a[i], now) ==> after[i] == a[i])
    ensures Taken(b, Transfer(after, b, now)) == Taken(a, after)
  {
    if a != [] {
      var n := |a| - 1;
      TransferTaken(a[..n], after[..n], b[..n], now);
      assert Transfer(after, b, now)[..n] == Transfer(after[..n], b[..n], now);
      assert Alike(a[n], b[n], now);
    }
  }

  lemma {:induction false} TransferGreedy(a: seq<Grant>, after: seq<Grant>, b: seq<Grant>, bucket: string,
                                          now: Instant, amount: int)
    requires AlikeRows(a, b, now) && Greedy(a, after, bucket, now, amount)
    ensures Greedy(b, Transfer(after, b, now), bucket, now, amount)
    ensures AlikeRows(after, Transfer(after, b, now), now)
  {
    var after' := Transfer(after, b, now);
    TransferTaken(a, after, b, now);
    forall i | 0 <= i < |a|
      ensures Eligible(a[i], bucket, now) <==> Eligible(b[i], bucket, now)
      ensures Alike(after[i], after'[i], now)
      ensures after'[i] != b[i] ==> after[i] != a[i]
      ensures Eligible(b[i], bucket, now) ==> after'[i] == after[i]
    {
      assert Alike(a[i], b[i], now);
    }
    forall i, j | 0 <= i < |b| && 0 <= j < |b|
      && Eligible(b[i], bucket, now) && after'[j] != b[j] && Earlier(b[i], b[j])
      ensures after'[i].remaining == 0
    {
      assert Alike(a[i], b[i], now) && Alike(a[j], b[j], now);
      assert Earlier(a[i], a[j]);
    }
  }

  lemma {:induction false} TransferReceipts(a: seq<Grant>, after: seq<Grant>, b: seq<Grant>, inp: DeductInput,
                                            now: Instant, rows: seq<Deduction>)
    requires AlikeRows(a, b, now) && Draw(a, after, inp.bucket, now, inp.amount)
    requires Receipts(a, after, inp, now, rows, inp.amount)
    ensures Receipts(b, Transfer(after, b, now), inp, now, rows, inp.amount)
  {
    var after' := Transfer(after, b, now);
    forall i | 0 <= i < |b|
      ensures a[i].id == b[i].id
      ensures SumForGrant(rows, b[i].id) == b[i].remaining - after'[i].remaining
    {
      assert Alike(a[i], b[i], now);
    }
  }

  lemma {:induction false} IndistinctLater(a: Ledger, b: Ledger, now: Instant, later: Instant)
    requires Indistinct(a, b, now) && now <= later
    ensures Indistinct(a, b, later)
  {
    forall s | s in a.grants ensures AlikeRows(a.grants[s], b.grants[s], later) {
      assert AlikeRows(a.grants[s], b.grants[s], now);
      forall i | 0 <= i < |a.grants[s]| ensures Alike(a.grants[s][i], b.grants[s][i], later) {
        assert Alike(a.grants[s][i], b.grants[s][i], now);
      }
    }
  }

  lemma {:induction false} DeductAlike(a: Ledger, b: Ledger, inp: DeductInput, now: Instant, a': Ledger, ok: bool)
    returns (b': Ledger)
    requires SoundGrants(a) && Indistinct(a, b, now) && inp.amount > 0 && Deducted(a, inp, now, a', ok)
    ensures Deducted(b, inp, now, b', ok) && Indistinct(a', b', now)
  {
    var s := inp.subject;
    var ga, gb := Of(a.grants, s), Of(b.grants, s);
    assert AlikeRows(ga, gb, now);
    AlikeBalance(ga, gb, now, inp.bucket, now);
    if a' == a {
      b' := b;
      DeductUnchanged(a, b, inp, now, ok);
    } else {
      b' := ServedAlike(a, b, inp, now, a');
    }
  }

  lemma {:induction false} ServedAlike(a: Ledger, b: Ledger, inp: DeductInput, now: Instant, a': Ledger)
    returns (b': Ledger)
    requires SoundGrants(a) && Indistinct(a, b, now) && inp.amount > 0 && Served(a, inp, now, a')
    requires Greedy(Of(a.grants, inp.subject), Of(a'.grants, inp.subject), inp.bucket, now, inp.amount)
    ensures Served(b, inp, now, b') && Indistinct(a', b', now)
    ensures Greedy(Of(b.grants, inp.subject), Of(b'.grants, inp.subject), inp.bucket, now, inp.amount)
  {
    hide SoundGrants, Greedy, Receipts, Transfer, SameRows;
    var s := inp.subject;
    var ga, gb, after := Of(a.grants, s), Of(b.grants, s), Of(a'.grants, s);
    ServedSound(a, inp, now, a');
    assert AlikeRows(ga, gb, now);
    TransferGreedy(ga, after, gb, inp.bucket, now, inp.amount);
    TransferReceipts(ga, after, gb, inp, now, Of(a'.deductions, s)[|Of(a.deductions, s)|..]);
    b' := a'.(grants := b.grants[s := Transfer(after, gb, now)]);
    assert Of(b'.grants, s) == Transfer(after, gb, now);
  }

  lemma {:induction false} DeductUnchanged(a: Ledger, b: Ledger, inp: DeductInput, now: Instant, ok: bool)
    requires inp.amount > 0 && Deducted(a, inp, now, a, ok)
    requires a.seenDeduction == b.seenDeduction
    requires Credit(Of(a.grants, inp.subject), inp.bucket, now) == Credit(Of(b.grants, inp.subject), inp.bucket, now)
    ensures Deducted(b, inp, now, b, ok)
  {
    DeductChanges(a, inp, now, ok);
  }

  lemma {:induction false} AddGrantAlike(a: Ledger, b: Ledger, inp: GrantInput, now: Instant)
    requires Indistinct(a, b, now)
    ensures Indistinct(AddGrant(a, inp, now), AddGrant(b, inp, now), now)
  {
    var ga, gb := Of(a.grants, inp.subject), Of(b.grants, inp.subject);
    assert AlikeRows(ga, gb, now);
    if GrantKey(inp) in a.seenGrant { AlikeFind(ga, gb, now, a.seenGrant[GrantKey(inp)]); }
    if Duplicate(a, inp).None? {
      var g := NewGrant(a.nextId, inp, now);
      assert AlikeRows(ga + [g], gb + [g], now);
    }
  }

  /** One call from two ledgers that differ only in dead credit: the same answer
      and again two such ledgers. */
  lemma {:induction false} StepAlike(a: Ledger, b: Ledger, ev: Event, a': Ledger, ok: bool) returns (b': Ledger)
    requires SoundGrants(a) && Indistinct(a, b, ev.now) && Step(a, ev, a', ok)
    ensures Step(b, ev, b', ok) && Indistinct(a', b', ev.now)
  {
    match ev
    case GrantEvent(inp, now) =>
      b' := AddGrant(b, inp, now);
      AddGrantAlike(a, b, inp, now);
    case DeductEvent(inp, now) =>
      b' := DeductAlike(a, b, inp, now, a', ok);
    case ExpiryEvent(now) =>
      b' := Sweep(b, now);
      forall s | s in a'.grants ensures AlikeRows(a'.grants[s], b'.grants[s], now) {
        assert AlikeRows(a.grants[s], b.grants[s], now);
        forall i | 0 <= i < |a'.grants[s]| ensures Alike(a'.grants[s][i], b'.grants[s][i], now) {
          assert Alike(a.grants[s][i], b.grants[s][i], now);
        }
      }
    case RevokeEvent(id, reason, stamp, now) =>
      b' := Revoke(b, id, reason, stamp);
      forall s | s in a'.grants ensures AlikeRows(a'.grants[s], b'.grants[s], now) {
        assert AlikeRows(a.grants[s], b.grants[s], now);
        forall i | 0 <= i < |a'.grants[s]| ensures Alike(a'.grants[s][i], b'.grants[s][i], now) {
          assert Alike(a.grants[s][i], b.grants[s][i], now);
        }
      }
  }

  /** Same calls, same answers, same balances from every point on. */
  ghost predicate SameObservations(r: Run, q: Run) {
    && r.Clock() == q.Clock()
    && (forall s, bucket, t :: r.Clock() <= t ==>
          BalanceOf(Of(r.ledger.grants, s), bucket, t) == BalanceOf(Of(q.ledger.grants, s), bucket, t))
    && (r.Then? ==> q.Then? && r.ev == q.ev && r.ok == q.ok && SameObservations(r.before, q.before))
    && (r.Start? ==> q.Start?)
  }

  lemma {:induction false} IndistinctBalances(a: Ledger, b: Ledger, now: Instant)
    requires Indistinct(a, b, now)
    ensures forall s, bucket, t :: now <= t ==>
              BalanceOf(Of(a.grants, s), bucket, t) == BalanceOf(Of(b.grants, s), bucket, t)
  {
    forall s, bucket, t | now <= t
      ensures BalanceOf(Of(a.grants, s), bucket, t) == BalanceOf(Of(b.grants, s), bucket, t)
    {
      assert AlikeRows(Of(a.grants, s), Of(b.grants, s), now);
      AlikeBalance(Of(a.grants, s), Of(b.grants, s), now, bucket, t);
    }
  }

  lemma {:induction false} ReplayAlike(r: Run, b: Ledger) returns (q: Run)
    requires r.Legal() && SoundGrants(b)
    requires var start := r.Origin(); Indistinct(start, b, StartTime(r))
    ensures q.Legal() && q.Origin() == b && StartTime(q) == StartTime(r)
    ensures SameObservations(r, q) && Indistinct(r.ledger, q.ledger, r.Clock())
  {
    match r
    case Start(l, at) =>
      q := Start(b, at);
      IndistinctBalances(l, b, at);
    case Then(before, ev, ok, l) =>
      var p := ReplayAlike(before, b);
      RunSound(before);
      IndistinctLater(before.ledger, p.ledger, before.Clock(), ev.now);
      var l' := StepAlike(before.ledger, p.ledger, ev, l, ok);
      q := Then(p, ev, ok, l');
      IndistinctBalances(l, l', ev.now);
  }

  function StartTime(r: Run): Instant {
    if r.Start? then r.at else StartTime(r.before)
  }

  /** RunExpiry is invisible: any run that starts from a ledger can be replayed
      from the swept ledger with the same answers and the same balances, and the
      other way round. */
  lemma {:induction false} ExpiryInvisible(r: Run, l: Ledger) returns (q: Run)
    requires r.Legal() && SoundGrants(l)
    requires (r.Origin() == l || r.Origin() == Sweep(l, StartTime(r)))
    ensures q.Legal() && SameObservations(r, q)
    ensures q.Origin() == if r.Origin() == l then Sweep(l, StartTime(r)) else l
  {
    var at := StartTime(r);
    SweepSound(l, at);
    var swept := Sweep(l, at);
    forall s | s in l.grants
      ensures AlikeRows(l.grants[s], swept.grants[s], at)
      ensures AlikeRows(swept.grants[s], l.grants[s], at)
    {
    }
    if r.Origin() == l {
      q := ReplayAlike(r, swept);
    } else {
      q := ReplayAlike(r, l);
    }
  }
}
