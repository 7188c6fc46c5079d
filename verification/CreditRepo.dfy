/** The in-memory credit repository: its fields are replaced in place, its loops
    are those of the original, and each method is tied to the ledger values and
    relations of CreditLedger.  The mutex makes every call atomic, so a run of
    concurrent callers is a sequence of these calls. */
module CreditRepo {
  import opened Options
  import opened CreditLedger

  /** One planned deduction: index into the subject's grants and amount. */
  datatype Step = Step(index: nat, take: int)

  ghost predicate IsPool(gs: seq<Grant>, bucket: string, now: Instant, pool: seq<nat>) {
    && (forall k :: 0 <= k < |pool| ==> pool[k] < |gs| && Eligible(gs[pool[k]], bucket, now))
    && (forall j, k :: 0 <= j < k < |pool| ==> pool[j] != pool[k])
    && (forall i :: 0 <= i < |gs| && Eligible(gs[i], bucket, now) ==> i in pool)
  }

  ghost predicate InOrder(gs: seq<Grant>, pool: seq<nat>) {
    && (forall k :: 0 <= k < |pool| ==> pool[k] < |gs|)
    && (forall j, k :: 0 <= j < k < |pool| ==> !Earlier(gs[pool[k]], gs[pool[j]]))
  }

  function PoolSum(gs: seq<Grant>, pool: seq<nat>): int
    requires forall k :: 0 <= k < |pool| ==> pool[k] < |gs|
  {
    if pool == [] then 0 else PoolSum(gs, pool[..|pool| - 1]) + gs[pool[|pool| - 1]].remaining
  }

  function Insert(sorted: seq<nat>, at: nat, x: nat): (r: seq<nat>)
    requires at <= |sorted|
    ensures |r| == |sorted| + 1
    ensures forall y :: y in r <==> y in sorted || y == x
  {
    sorted[..at] + [x] + sorted[at..]
  }

  lemma {:induction false} InsertSum(gs: seq<Grant>, sorted: seq<nat>, at: nat, x: nat)
    requires at <= |sorted| && x < |gs| && forall k :: 0 <= k < |sorted| ==> sorted[k] < |gs|
    ensures forall k :: 0 <= k <= |sorted| ==> Insert(sorted, at, x)[k] < |gs|
    ensures PoolSum(gs, Insert(sorted, at, x)) == PoolSum(gs, sorted) + gs[x].remaining
  {
    var r := Insert(sorted, at, x);
    var n := |sorted|;
    if at == n {
      assert r[..n] == sorted;
    } else {
      assert r[..n] == Insert(sorted[..n - 1], at, x);
      InsertSum(gs, sorted[..n - 1], at, x);
    }
  }

  lemma {:induction false} InsertOrder(gs: seq<Grant>, sorted: seq<nat>, at: nat, x: nat)
    requires InOrder(gs, sorted) && at <= |sorted| && x < |gs|
    requires at > 0 ==> !Earlier(gs[x], gs[sorted[at - 1]])
    requires forall k :: at <= k < |sorted| ==> Earlier(gs[x], gs[sorted[k]])
    ensures InOrder(gs, Insert(sorted, at, x))
  {
    var r := Insert(sorted, at, x);
    forall j, k | 0 <= j < k < |r| ensures !Earlier(gs[r[k]], gs[r[j]]) {
      if k == at && j < at - 1 {
        assert !Earlier(gs[sorted[at - 1]], gs[sorted[j]]);
      }
    }
  }

  /** Sorts a pool.  Callers learn only that the result is sorted: the order of
      grants with equal expiry and equal grant time stays unspecified. */
  method SortPool(gs: seq<Grant>, pool: seq<nat>) returns (sorted: seq<nat>)
    requires forall k :: 0 <= k < |pool| ==> pool[k] < |gs|
    ensures InOrder(gs, sorted)
    ensures |sorted| == |pool| && forall x :: x in sorted <==> x in pool
    ensures PoolSum(gs, sorted) == PoolSum(gs, pool)
  {
    sorted := [];
    for n := 0 to |pool|
      invariant |sorted| == n
      invariant InOrder(gs, sorted)
      invariant forall x :: x in sorted <==> x in pool[..n]
      invariant PoolSum(gs, sorted) == PoolSum(gs, pool[..n])
    {
      var x := pool[n];
      var at := n;
      while at > 0 && Earlier(gs[x], gs[sorted[at - 1]])
        invariant 0 <= at <= n
        invariant forall k :: at <= k < n ==> Earlier(gs[x], gs[sorted[k]])
      {
        at := at - 1;
      }
      InsertOrder(gs, sorted, at, x);
      InsertSum(gs, sorted, at, x);
      assert pool[..n + 1][..n] == pool[..n];
      assert pool[..n + 1] == pool[..n] + [x];
      sorted := Insert(sorted, at, x);
    }
    assert pool[..|pool|] == pool;
  }

  function Elements(a: seq<nat>): set<nat> {
    set x | x in a
  }

  lemma {:induction false} ElementsBound(b: seq<nat>)
    ensures |Elements(b)| <= |b|
    ensures |Elements(b)| == |b| <==> forall j, k :: 0 <= j < k < |b| ==> b[j] != b[k]
  {
    if b != [] {
      var n := |b| - 1;
      var init := b[..n];
      ElementsBound(init);
      assert Elements(b) == Elements(init) + {b[n]};
      if b[n] in init {
        var j :| 0 <= j < n && init[j] == b[n];
        assert b[j] == b[n];
      } else {
        assert b[n] !in Elements(init);
        assert forall j :: 0 <= j < n ==> b[j] == init[j] && b[j] in init;
        assert |Elements(b)| == |Elements(init)| + 1;
        assert (forall j, k :: 0 <= j < k < |b| ==> b[j] != b[k]) <==>
               (forall j, k :: 0 <= j < k < n ==> init[j] != init[k]);
      }
    }
  }

  /** A list as long as a duplicate-free one with the same elements has no
      duplicates either. */
  lemma {:induction false} SameElementsDistinct(a: seq<nat>, b: seq<nat>)
    requires |a| == |b| && forall x :: x in a <==> x in b
    requires forall j, k :: 0 <= j < k < |a| ==> a[j] != a[k]
    ensures forall j, k :: 0 <= j < k < |b| ==> b[j] != b[k]
  {
    ElementsBound(a);
    ElementsBound(b);
    assert Elements(a) == Elements(b);
  }

  lemma {:induction false} PoolReordered(gs: seq<Grant>, bucket: string, now: Instant, pool: seq<nat>, sorted: seq<nat>)
    requires IsPool(gs, bucket, now, pool)
    requires |sorted| == |pool| && forall x :: x in sorted <==> x in pool
    ensures IsPool(gs, bucket, now, sorted)
  {
    SameElementsDistinct(pool, sorted);
    forall k | 0 <= k < |sorted| ensures sorted[k] < |gs| && Eligible(gs[sorted[k]], bucket, now) {
      assert sorted[k] in pool;
    }
  }

  /** Total of the planned takes. */
  function TotalTake(steps: seq<Step>): int {
    if steps == [] then 0 else TotalTake(steps[..|steps| - 1]) + steps[|steps| - 1].take
  }

  /** What planning guarantees about a list of steps along a pool. */
  ghost predicate PlanOf(gs: seq<Grant>, pool: seq<nat>, steps: seq<Step>) {
    && |steps| <= |pool|
    && (forall k :: 0 <= k < |pool| ==> pool[k] < |gs|)
    && (forall k :: 0 <= k < |steps| ==>
          steps[k].index == pool[k] && 0 < steps[k].take <= gs[pool[k]].remaining)
    && (forall k :: 0 <= k < |steps| - 1 ==> steps[k].take == gs[pool[k]].remaining)
  }

  lemma {:induction false} PlanExtend(gs: seq<Grant>, pool: seq<nat>, steps: seq<Step>, take: int)
    requires PlanOf(gs, pool, steps) && |steps| < |pool|
    requires forall m :: 0 <= m < |steps| ==> steps[m].take == gs[pool[m]].remaining
    requires 0 < take <= gs[pool[|steps|]].remaining
    ensures PlanOf(gs, pool, steps + [Step(pool[|steps|], take)])
  {
  }

  lemma {:induction false} OneMoreTake(steps: seq<Step>, step: Step)
    ensures TotalTake(steps + [step]) == TotalTake(steps) + step.take
  {
    assert (steps + [step])[..|steps|] == steps;
  }

  lemma {:induction false} OneMoreGrant(gs: seq<Grant>, pool: seq<nat>, k: nat)
    requires k < |pool| && forall k :: 0 <= k < |pool| ==> pool[k] < |gs|
    ensures PoolSum(gs, pool[..k + 1]) == PoolSum(gs, pool[..k]) + gs[pool[k]].remaining
  {
    assert pool[..k + 1][..k] == pool[..k];
  }

  lemma {:induction false} PrefixSum(gs: seq<Grant>, pool: seq<nat>, k: nat)
    requires k <= |pool|
    requires forall k :: 0 <= k < |pool| ==> pool[k] < |gs| && gs[pool[k]].remaining > 0
    ensures PoolSum(gs, pool[..k]) <= PoolSum(gs, pool)
    decreases |pool| - k
  {
    if k == |pool| {
      assert pool[..k] == pool;
    } else {
      assert pool[..k + 1][..k] == pool[..k];
      PrefixSum(gs, pool, k + 1);
    }
  }

  /** Planning along a sorted pool: drain grants in order until the request is
      covered; `short` is what could not be covered.  A negative amount, which the
      callers of the repository exclude, goes to the first grant as a whole. */
  method PlanSteps(gs: seq<Grant>, pool: seq<nat>, amount: int) returns (steps: seq<Step>, short: int)
    requires forall k :: 0 <= k < |pool| ==> pool[k] < |gs| && gs[pool[k]].remaining > 0
    ensures amount > 0 ==> short == if amount <= PoolSum(gs, pool) then 0 else amount - PoolSum(gs, pool)
    ensures amount > 0 ==> PlanOf(gs, pool, steps)
    ensures amount <= 0 ==> short <= 0 && steps == if amount == 0 || pool == [] then [] else [Step(pool[0], amount)]
    ensures TotalTake(steps) == amount - short
  {
    assert TotalTake([]) == 0 && PoolSum(gs, pool[..0]) == 0;
    hide TotalTake, PoolSum;
    steps, short := [], amount;
    var k := 0;
    ghost var covered := 0;
    while k < |pool| && short != 0
      invariant 0 <= k <= |pool| && |steps| == k
      invariant amount > 0 ==> 0 <= short <= amount && PlanOf(gs, pool, steps)
      invariant short > 0 ==> forall m :: 0 <= m < k ==> steps[m].take == gs[pool[m]].remaining
      invariant covered == PoolSum(gs, pool[..k])
      invariant amount > 0 ==> if short > 0 then short == amount - covered else amount <= covered
      invariant amount <= 0 ==>
                  if k == 0 then short == amount && steps == []
                  else amount < 0 && short == 0 && steps == [Step(pool[0], amount)]
      invariant TotalTake(steps) == amount - short
    {
      var take := gs[pool[k]].remaining;
      if take > short { take := short; }
      if amount > 0 { PlanExtend(gs, pool, steps, take); }
      OneMoreTake(steps, Step(pool[k], take));
      OneMoreGrant(gs, pool, k);
      covered := covered + gs[pool[k]].remaining;
      steps := steps + [Step(pool[k], take)];
      short := short - take;
      k := k + 1;
    }
    PrefixSum(gs, pool, k);
    assert k == |pool| ==> pool[..k] == pool;
  }

  /** Grants after the planned steps have been applied in order. */
  function Applied(gs: seq<Grant>, steps: seq<Step>): (r: seq<Grant>)
    requires forall k :: 0 <= k < |steps| ==> steps[k].index < |gs|
    ensures |r| == |gs|
  {
    if steps == [] then gs
    else Lower(Applied(gs, steps[..|steps| - 1]), steps[|steps| - 1].index, steps[|steps| - 1].take)
  }

  ghost predicate DistinctSteps(gs: seq<Grant>, steps: seq<Step>) {
    && (forall k :: 0 <= k < |steps| ==> steps[k].index < |gs|)
    && (forall j, k :: 0 <= j < k < |steps| ==> steps[j].index != steps[k].index)
  }

  lemma {:induction false} UntouchedAt(gs: seq<Grant>, steps: seq<Step>, i: nat)
    requires DistinctSteps(gs, steps) && i < |gs|
    requires forall k :: 0 <= k < |steps| ==> steps[k].index != i
    ensures Applied(gs, steps)[i] == gs[i]
  {
    if steps != [] { UntouchedAt(gs, steps[..|steps| - 1], i); }
  }

  lemma {:induction false} TouchedAt(gs: seq<Grant>, steps: seq<Step>, k: nat)
    requires DistinctSteps(gs, steps) && k < |steps|
    ensures var i := steps[k].index;
            Applied(gs, steps)[i] == gs[i].(remaining := gs[i].remaining - steps[k].take)
  {
    var n := |steps| - 1;
    if k == n {
      UntouchedAt(gs, steps[..n], steps[n].index);
    } else {
      TouchedAt(gs, steps[..n], k);
    }
  }

  lemma {:induction false} AppliedTaken(gs: seq<Grant>, steps: seq<Step>)
    requires forall k :: 0 <= k < |steps| ==> steps[k].index < |gs|
    ensures Taken(gs, Applied(gs, steps)) == TotalTake(steps)
  {
    if steps == [] {
      TakenNothing(gs);
    } else {
      var n := |steps| - 1;
      AppliedTaken(gs, steps[..n]);
      TakenLower(gs, Applied(gs, steps[..n]), steps[n].index, steps[n].take);
    }
  }

  /** A plan along a sorted pool, once applied, is a greedy draw. */
  lemma {:induction false} PlanIsGreedy(gs: seq<Grant>, bucket: string, now: Instant, pool: seq<nat>, amount: int,
                                        steps: seq<Step>)
    requires IsPool(gs, bucket, now, pool) && InOrder(gs, pool)
    requires PlanOf(gs, pool, steps) && DistinctSteps(gs, steps)
    requires TotalTake(steps) == amount
    ensures Greedy(gs, Applied(gs, steps), bucket, now, amount)
  {
    var after := Applied(gs, steps);
    AppliedTaken(gs, steps);
    forall i | 0 <= i < |gs|
      ensures if Eligible(gs[i], bucket, now)
              then 0 <= after[i].remaining <= gs[i].remaining && after[i] == gs[i].(remaining := after[i].remaining)
              else after[i] == gs[i]
    {
      if k :| 0 <= k < |steps| && steps[k].index == i {
        TouchedAt(gs, steps, k);
      } else {
        UntouchedAt(gs, steps, i);
      }
    }
    forall i, j | 0 <= i < |gs| && 0 <= j < |gs|
      && Eligible(gs[i], bucket, now) && after[j] != gs[j] && Earlier(gs[i], gs[j])
      ensures after[i].remaining == 0
    {
      PlanDrainsEarlier(gs, bucket, now, pool, steps, i, j);
    }
  }

  lemma {:induction false} PlanDrainsEarlier(gs: seq<Grant>, bucket: string, now: Instant, pool: seq<nat>,
                                             steps: seq<Step>, i: nat, j: nat)
    requires IsPool(gs, bucket, now, pool) && InOrder(gs, pool)
    requires PlanOf(gs, pool, steps) && DistinctSteps(gs, steps)
    requires i < |gs| && j < |gs| && Eligible(gs[i], bucket, now) && Earlier(gs[i], gs[j])
    requires Applied(gs, steps)[j] != gs[j]
    ensures Applied(gs, steps)[i].remaining == 0
  {
    hide Applied, Eligible;
    if forall n :: 0 <= n < |steps| ==> steps[n].index != j {
      UntouchedAt(gs, steps, j);
    }
    var n :| 0 <= n < |steps| && steps[n].index == j;
    assert i in pool;
    var m :| 0 <= m < |pool| && pool[m] == i;
    assert m < n;
    TouchedAt(gs, steps, m);
  }

  function Row(inp: DeductInput, grantId: nat, take: int, now: Instant): Deduction {
    Deduction(inp.subject, inp.bucket, grantId, take, inp.reason, inp.requestId, now, inp.metadata)
  }

  /** The rows written while applying the steps. */
  function Rows(gs: seq<Grant>, inp: DeductInput, now: Instant, steps: seq<Step>): (r: seq<Deduction>)
    requires forall k :: 0 <= k < |steps| ==> steps[k].index < |gs|
    ensures |r| == |steps|
    ensures forall k :: 0 <= k < |steps| ==> r[k] == Row(inp, gs[steps[k].index].id, steps[k].take, now)
  {
    seq(|steps|, k requires 0 <= k < |steps| => Row(inp, gs[steps[k].index].id, steps[k].take, now))
  }

  lemma {:induction false} RowsForGrant(gs: seq<Grant>, inp: DeductInput, now: Instant, steps: seq<Step>, i: nat)
    requires DistinctSteps(gs, steps) && DistinctIds(gs) && i < |gs|
    ensures SumForGrant(Rows(gs, inp, now, steps), gs[i].id) == gs[i].remaining - Applied(gs, steps)[i].remaining
  {
    if steps != [] {
      var n := |steps| - 1;
      RowsForGrant(gs, inp, now, steps[..n], i);
      assert Rows(gs, inp, now, steps)[..n] == Rows(gs, inp, now, steps[..n]);
      if steps[n].index != i {
        assert gs[steps[n].index].id != gs[i].id;
      }
    }
  }

  lemma {:induction false} RowsForRequest(gs: seq<Grant>, inp: DeductInput, now: Instant, steps: seq<Step>)
    requires forall k :: 0 <= k < |steps| ==> steps[k].index < |gs|
    ensures SumForRequest(Rows(gs, inp, now, steps), inp.requestId) == TotalTake(steps)
  {
    if steps != [] {
      var n := |steps| - 1;
      RowsForRequest(gs, inp, now, steps[..n]);
      assert Rows(gs, inp, now, steps)[..n] == Rows(gs, inp, now, steps[..n]);
    }
  }

  lemma {:induction false} RowsAreReceipts(gs: seq<Grant>, inp: DeductInput, now: Instant, steps: seq<Step>)
    requires DistinctSteps(gs, steps) && DistinctIds(gs)
    requires forall k :: 0 <= k < |steps| ==> steps[k].take > 0
    ensures Receipts(gs, Applied(gs, steps), inp, now, Rows(gs, inp, now, steps), TotalTake(steps))
  {
    forall i | 0 <= i < |gs|
      ensures SumForGrant(Rows(gs, inp, now, steps), gs[i].id) == gs[i].remaining - Applied(gs, steps)[i].remaining
    {
      RowsForGrant(gs, inp, now, steps, i);
    }
    RowsForRequest(gs, inp, now, steps);
  }

  /** The ledger after a served request has been written down. */
  function Record(l: Ledger, inp: DeductInput, after: seq<Grant>, rows: seq<Deduction>): Ledger {
    l.(grants := l.grants[inp.subject := after],
       deductions := l.deductions[inp.subject := Of(l.deductions, inp.subject) + rows],
       seenDeduction := if inp.requestId == "" then l.seenDeduction
                        else l.seenDeduction + {RequestKey(inp.subject, inp.requestId)})
  }

  /** All that TryDeduct may do with a non-positive amount. */
  ghost predicate RaisedLedger(l: Ledger, inp: DeductInput, now: Instant, l': Ledger) {
    if Repeated(l, inp) then l' == l
    else
      exists after, rows ::
        l' == Record(l, inp, after, rows) && Raised(Of(l.grants, inp.subject), after, inp, now, rows)
  }

  lemma {:induction false} RecordServes(l: Ledger, inp: DeductInput, now: Instant, after: seq<Grant>,
                                        rows: seq<Deduction>)
    requires SoundGrants(l) && inp.amount > 0
    requires Draw(Of(l.grants, inp.subject), after, inp.bucket, now, inp.amount)
    requires Receipts(Of(l.grants, inp.subject), after, inp, now, rows, inp.amount)
    ensures Served(l, inp, now, Record(l, inp, after, rows))
    ensures SoundGrants(Record(l, inp, after, rows))
  {
    var before := Of(l.deductions, inp.subject);
    assert (before + rows)[|before|..] == rows;
    ServedSound(l, inp, now, Record(l, inp, after, rows));
  }

  /** Applies planned steps to the grants and writes one row per step. */
  method ApplySteps(gs: seq<Grant>, inp: DeductInput, now: Instant, steps: seq<Step>)
    returns (cur: seq<Grant>, rows: seq<Deduction>)
    requires DistinctSteps(gs, steps)
    ensures cur == Applied(gs, steps) && rows == Rows(gs, inp, now, steps)
  {
    cur, rows := gs, [];
    for n := 0 to |steps|
      invariant cur == Applied(gs, steps[..n]) && rows == Rows(gs, inp, now, steps[..n])
    {
      var st := steps[n];
      UntouchedAt(gs, steps[..n], st.index);
      assert steps[..n + 1][..n] == steps[..n];
      rows := rows + [Row(inp, cur[st.index].id, st.take, now)];
      cur := Lower(cur, st.index, st.take);
    }
    assert steps[..|steps|] == steps;
  }

  /** What a request for a non-positive amount does to a subject's grants: nothing
      if there is nothing to take it from, else it raises a first one in the order. */
  ghost predicate Raised(gs: seq<Grant>, after: seq<Grant>, inp: DeductInput, now: Instant, rows: seq<Deduction>) {
    if inp.amount == 0 || forall i :: 0 <= i < |gs| ==> !Eligible(gs[i], inp.bucket, now) then
      after == gs && rows == []
    else
      exists i :: 0 <= i < |gs| && Eligible(gs[i], inp.bucket, now) && IsFirst(gs, i, inp.bucket, now)
                  && after == Lower(gs, i, inp.amount) && rows == [Row(inp, gs[i].id, inp.amount, now)]
  }

  ghost predicate IsFirst(gs: seq<Grant>, i: nat, bucket: string, now: Instant)
    requires i < |gs|
  {
    forall j :: 0 <= j < |gs| && Eligible(gs[j], bucket, now) ==> !Earlier(gs[j], gs[i])
  }

  lemma {:induction false} PlanRaises(gs: seq<Grant>, inp: DeductInput, now: Instant, pool: seq<nat>, steps: seq<Step>)
    requires IsPool(gs, inp.bucket, now, pool) && InOrder(gs, pool) && inp.amount <= 0
    requires steps == if inp.amount == 0 || pool == [] then [] else [Step(pool[0], inp.amount)]
    ensures Raised(gs, Applied(gs, steps), inp, now, Rows(gs, inp, now, steps))
  {
    if inp.amount == 0 || pool == [] {
      assert forall i :: 0 <= i < |gs| && Eligible(gs[i], inp.bucket, now) ==> i in pool;
    } else {
      var i := pool[0];
      forall j | 0 <= j < |gs| && Eligible(gs[j], inp.bucket, now) ensures !Earlier(gs[j], gs[i]) {
        assert j in pool;
        var k :| 0 <= k < |pool| && pool[k] == j;
        if k == 0 { NotEarlier(gs[i]); }
      }
      assert IsFirst(gs, i, inp.bucket, now);
      assert Applied(gs, steps[..0]) == gs;
      assert Applied(gs, steps) == Lower(gs, i, inp.amount);
    }
  }

  lemma {:induction false} NotEarlier(g: Grant)
    ensures !Earlier(g, g)
  {
  }

  /** Pool, sort, plan and apply, for one subject's grants. */
  method DrawGreedily(gs: seq<Grant>, inp: DeductInput, now: Instant)
    returns (ok: bool, after: seq<Grant>, rows: seq<Deduction>)
    requires DistinctIds(gs)
    ensures ok <==> inp.amount <= 0 || inp.amount <= Credit(gs, inp.bucket, now)
    ensures ok && inp.amount > 0 ==> Greedy(gs, after, inp.bucket, now, inp.amount)
    ensures ok && inp.amount > 0 ==> Receipts(gs, after, inp, now, rows, inp.amount)
    ensures inp.amount <= 0 ==> Raised(gs, after, inp, now, rows)
  {
    hide Greedy, Receipts, Raised, Applied, Rows, Credit;
    var pool := SortedPool(gs, inp.bucket, now);
    var steps, short := PlanSteps(gs, pool, inp.amount);
    if short > 0 {
      return false, gs, [];
    }
    ok := true;
    after, rows := ApplySteps(gs, inp, now, steps);
    if inp.amount > 0 {
      PlanIsGreedy(gs, inp.bucket, now, pool, inp.amount, steps);
      RowsAreReceipts(gs, inp, now, steps);
    } else {
      PlanRaises(gs, inp, now, pool, steps);
    }
  }

  /** Indices of the usable grants of a bucket, in list order. */
  method BuildPool(gs: seq<Grant>, bucket: string, now: Instant) returns (pool: seq<nat>)
    ensures IsPool(gs, bucket, now, pool)
    ensures PoolSum(gs, pool) == Credit(gs, bucket, now)
  {
    hide PoolSum, Credit;
    PoolStart(gs, bucket, now);
    pool := [];
    for i := 0 to |gs|
      invariant forall k :: 0 <= k < |pool| ==> pool[k] < i && Eligible(gs[pool[k]], bucket, now)
      invariant forall j, k :: 0 <= j < k < |pool| ==> pool[j] < pool[k]
      invariant forall m :: 0 <= m < i && Eligible(gs[m], bucket, now) ==> m in pool
      invariant PoolSum(gs, pool) == Credit(gs[..i], bucket, now)
    {
      PoolGrows(gs, bucket, now, pool, i);
      if Eligible(gs[i], bucket, now) {
        pool := pool + [i];
      }
    }
    assert gs[..|gs|] == gs;
  }

  lemma {:induction false} PoolStart(gs: seq<Grant>, bucket: string, now: Instant)
    ensures PoolSum(gs, []) == Credit(gs[..0], bucket, now)
  {
  }

  lemma {:induction false} PoolGrows(gs: seq<Grant>, bucket: string, now: Instant, pool: seq<nat>, i: nat)
    requires i < |gs| && forall k :: 0 <= k < |pool| ==> pool[k] < |gs|
    ensures PoolSum(gs, pool + [i]) == PoolSum(gs, pool) + gs[i].remaining
    ensures Credit(gs[..i + 1], bucket, now) == Credit(gs[..i], bucket, now) + Worth(gs[i], bucket, now)
  {
    assert gs[..i + 1][..i] == gs[..i];
    assert (pool + [i])[..|pool|] == pool;
  }

  /** The usable grants of a bucket, in draining order. */
  method SortedPool(gs: seq<Grant>, bucket: string, now: Instant) returns (sorted: seq<nat>)
    ensures IsPool(gs, bucket, now, sorted) && InOrder(gs, sorted)
    ensures PoolSum(gs, sorted) == Credit(gs, bucket, now)
  {
    var pool := BuildPool(gs, bucket, now);
    sorted := SortPool(gs, pool);
    PoolReordered(gs, bucket, now, pool, sorted);
  }

  /** Zeroes the expired grants of one subject. */
  method SweepSubject(start: seq<Grant>, now: Instant) returns (gs: seq<Grant>, grants: int, credits: int)
    ensures gs == SweepGrants(start, now)
    ensures grants == CountZeroed(start, now) && credits == SumZeroed(start, now)
  {
    gs, grants, credits := start, 0, 0;
    for i := 0 to |gs|
      invariant |gs| == |start|
      invariant forall k :: 0 <= k < |gs| ==> gs[k] == if k < i then ZeroIfExpired(start[k], now) else start[k]
      invariant grants == CountZeroed(start[..i], now) && credits == SumZeroed(start[..i], now)
    {
      assert start[..i + 1][..i] == start[..i];
      if Expired(gs[i], now) && gs[i].remaining > 0 {
        credits := credits + gs[i].remaining;
        gs := gs[i := gs[i].(remaining := 0)];
        grants := grants + 1;
      }
    }
    assert start[..|start|] == start;
  }

  /** All subjects but those still to do have been swept. */
  function SweptMap(start: map<Subject, seq<Grant>>, todo: set<Subject>, now: Instant): map<Subject, seq<Grant>> {
    map s | s in start :: if s in todo then start[s] else SweepGrants(start[s], now)
  }

  lemma {:induction false} SweptMapStep(start: map<Subject, seq<Grant>>, todo: set<Subject>, s: Subject, now: Instant)
    requires todo <= start.Keys && s in todo
    ensures SweptMap(start, todo, now)[s := SweepGrants(start[s], now)] == SweptMap(start, todo - {s}, now)
  {
  }

  lemma {:induction false} SweepProgress(start: map<Subject, seq<Grant>>, todo: set<Subject>, s: Subject, now: Instant)
    requires todo <= start.Keys && s in todo
    ensures ExpiredCredit(start, start.Keys - (todo - {s}), now)
         == ExpiredCredit(start, start.Keys - todo, now) + SumZeroed(start[s], now)
    ensures ExpiredCount(start, start.Keys - (todo - {s}), now)
         == ExpiredCount(start, start.Keys - todo, now) + CountZeroed(start[s], now)
  {
    assert start.Keys - (todo - {s}) == start.Keys - todo + {s};
    ExpiredCreditAdds(start, start.Keys - todo, s, now);
    ExpiredCountAdds(start, start.Keys - todo, s, now);
  }

  /** Sweeps the subjects one by one, in no fixed order. */
  method SweepAll(start: map<Subject, seq<Grant>>, now: Instant)
    returns (cur: map<Subject, seq<Grant>>, grants: int, credits: int)
    ensures cur == SweptMap(start, {}, now)
    ensures grants == ExpiredCount(start, start.Keys, now)
    ensures credits == ExpiredCredit(start, start.Keys, now)
  {
    cur, grants, credits := start, 0, 0;
    var todo := start.Keys;
    assert start.Keys - todo == {};
    assert cur == SweptMap(start, todo, now);
    while todo != {}
      invariant todo <= start.Keys
      invariant cur == SweptMap(start, todo, now)
      invariant grants == ExpiredCount(start, start.Keys - todo, now)
      invariant credits == ExpiredCredit(start, start.Keys - todo, now)
      decreases |todo|
    {
      var s :| s in todo;
      var gs, n, c := SweepSubject(cur[s], now);
      SweepProgress(start, todo, s, now);
      SweptMapStep(start, todo, s, now);
      grants, credits := grants + n, credits + c;
      cur := cur[s := gs];
      todo := todo - {s};
    }
    assert start.Keys - {} == start.Keys;
  }

  class MemoryRepo {
    var bySubject: map<Subject, seq<Grant>>
    var deductionBySubject: map<Subject, seq<Deduction>>
    var seenGrant: map<string, nat>
    var seenDeduction: set<string>
    var nextId: nat

    function State(): Ledger
      reads this
    {
      Ledger(bySubject, deductionBySubject, seenGrant, seenDeduction, nextId)
    }

    ghost predicate Valid()
      reads this
    {
      SoundGrants(State())
    }

    constructor ()
      ensures Valid() && State() == EMPTY
    {
      bySubject, deductionBySubject, seenGrant, seenDeduction, nextId := map[], map[], map[], {}, 0;
    }

    /** The guard against non-positive amounts is the caller's; only with it does the
        ledger stay sound. */
    method AddGrant(inp: GrantInput, now: Instant) returns (g: Grant)
      requires Valid()
      modifies this
      ensures inp.amount > 0 ==> Valid()
      ensures State() == CreditLedger.AddGrant(old(State()), inp, now)
      ensures g == match Duplicate(old(State()), inp)
                   case Some(d) => d
                   case None =>
                     Grant(old(nextId), inp.subject, inp.bucket, inp.amount, inp.amount, now,
                           if inp.validDays > 0 then Some(now + inp.validDays * (24 * 60 * 60 * 1_000_000_000))
                           else None,
                           inp.source, inp.sourceRef, inp.metadata)
    {
      hide SoundGrants;
      var gs := Of(bySubject, inp.subject);
      if inp.sourceRef != "" && GrantKey(inp) in seenGrant {
        var id := seenGrant[GrantKey(inp)];
        for i := 0 to |gs|
          invariant FindId(gs, id) == FindId(gs[i..], id)
        {
          if gs[i].id == id {
            return gs[i];
          }
        }
      }
      if inp.amount > 0 { AddGrantSound(State(), inp, now); }
      g := NewGrant(nextId, inp, now);
      bySubject := bySubject[inp.subject := gs + [g]];
      if inp.sourceRef != "" {
        seenGrant := seenGrant[GrantKey(inp) := nextId];
      }
      nextId := nextId + 1;
    }

    /** Reads the balance: one pass over the subject's grants. */
    method BalanceLocked(subject: Subject, bucket: string, now: Instant) returns (b: Balance)
      ensures b == BalanceOf(Of(bySubject, subject), bucket, now)
    {
      var gs := Of(bySubject, subject);
      b := Balance(0, 0, None);
      for i := 0 to |gs|
        invariant b == BalanceOf(gs[..i], bucket, now)
      {
        var g := gs[i];
        assert gs[..i + 1][..i] == gs[..i];
        if g.bucket == bucket && g.remaining > 0 && !Expired(g, now) {
          var next := b.nextExpiry;
          if g.expiresAt.Some? && (next.None? || g.expiresAt.value < next.value) {
            next := g.expiresAt;
          }
          b := Balance(b.total + g.remaining, b.grantCount + 1, next);
        }
      }
      assert gs[..|gs|] == gs;
    }

    /** The guard against non-positive amounts is the caller's here too; a negative
        one raises a grant. */
    method TryDeduct(inp: DeductInput, now: Instant) returns (ok: bool, b: Balance)
      requires Valid()
      modifies this
      ensures inp.amount > 0 ==> Valid() && Deducted(old(State()), inp, now, State(), ok)
      ensures inp.amount > 0 ==>
                DrainedInOrder(Of(old(bySubject), inp.subject), Of(bySubject, inp.subject), inp.bucket, now)
      ensures inp.amount <= 0 ==> ok && RaisedLedger(old(State()), inp, now, State())
      ensures b == BalanceOf(Of(bySubject, inp.subject), inp.bucket, now)
    {
      hide Greedy, Draw, Receipts, Served, Raised, DrainedInOrder;
      if inp.requestId != "" && RequestKey(inp.subject, inp.requestId) in seenDeduction {
        b := BalanceLocked(inp.subject, inp.bucket, now);
        if inp.amount > 0 { DeductInOrder(State(), inp, now, State(), true); }
        return true, b;
      }
      DistinctOf(State(), inp.subject);
      var served, after, rows := DrawGreedily(Of(bySubject, inp.subject), inp, now);
      if !served {
        b := BalanceLocked(inp.subject, inp.bucket, now);
        if inp.amount > 0 { DeductInOrder(State(), inp, now, State(), false); }
        return false, b;
      }
      if inp.amount > 0 {
        GreedyDraws(Of(bySubject, inp.subject), after, inp.bucket, now, inp.amount);
        RecordServes(State(), inp, now, after, rows);
      }
      bySubject := bySubject[inp.subject := after];
      deductionBySubject := deductionBySubject[inp.subject := Of(deductionBySubject, inp.subject) + rows];
      if inp.requestId != "" {
        seenDeduction := seenDeduction + {RequestKey(inp.subject, inp.requestId)};
      }
      assert State() == Record(old(State()), inp, after, rows);
      if inp.amount > 0 { DeductInOrder(old(State()), inp, now, State(), true); }
      b := BalanceLocked(inp.subject, inp.bucket, now);
      return true, b;
    }

    /** Zeroes every expired grant, subject by subject in no fixed order, and
        reports how many grants and credits that was. */
    method RunExpiry(now: Instant) returns (grants: int, credits: int)
      requires Valid()
      modifies this
      ensures Valid()
      ensures State() == Sweep(old(State()), now)
      ensures grants == ExpiredCount(old(State()).grants, old(State()).grants.Keys, now)
      ensures credits == ExpiredCredit(old(State()).grants, old(State()).grants.Keys, now)
    {
      SweepSound(State(), now);
      var swept;
      swept, grants, credits := SweepAll(bySubject, now);
      bySubject := swept;
      assert bySubject == Sweep(old(State()), now).grants;
    }

    /** Zeroes the grant with this id, searching the subjects in no fixed order;
        an unknown id changes nothing. */
    method RevokeGrant(id: nat, reason: string, stamp: string)
      requires Valid()
      modifies this
      ensures Valid()
      ensures State() == Revoke(old(State()), id, reason, stamp)
    {
      var todo := bySubject.Keys;
      while todo != {}
        invariant todo <= bySubject.Keys
        invariant State() == old(State())
        invariant forall s, k :: s in bySubject.Keys - todo && 0 <= k < |bySubject[s]| ==> bySubject[s][k].id != id
        decreases |todo|
      {
        var s :| s in todo;
        var gs := bySubject[s];
        for i := 0 to |gs|
          invariant forall k :: 0 <= k < i ==> gs[k].id != id
        {
          if gs[i].id == id {
            gs := gs[i := RevokedGrant(gs[i], id, reason, stamp)];
            RevokeHit(State(), s, i, id, reason, stamp);
            RevokeSound(State(), id, reason, stamp);
            bySubject := bySubject[s := gs];
            return;
          }
        }
        todo := todo - {s};
      }
      RevokeMiss(State(), id, reason, stamp);
    }
  }

  lemma {:induction false} DistinctOf(l: Ledger, s: Subject)
    requires SoundGrants(l)
    ensures DistinctIds(Of(l.grants, s))
  {
  }

  lemma {:induction false} GreedyDraws(gs: seq<Grant>, after: seq<Grant>, bucket: string, now: Instant, amount: int)
    requires Greedy(gs, after, bucket, now, amount)
    ensures Draw(gs, after, bucket, now, amount)
  {
  }

  lemma {:induction false} RevokeHit(l: Ledger, s: Subject, i: nat, id: nat, reason: string, stamp: string)
    requires SoundGrants(l) && s in l.grants && i < |l.grants[s]| && l.grants[s][i].id == id
    ensures Revoke(l, id, reason, stamp).grants
         == l.grants[s := l.grants[s][i := RevokedGrant(l.grants[s][i], id, reason, stamp)]]
  {
    var r := Revoke(l, id, reason, stamp).grants;
    var gs := l.grants[s];
    assert RevokeIn(gs, id, reason, stamp) == gs[i := RevokedGrant(gs[i], id, reason, stamp)] by {
      forall k | 0 <= k < |gs| && k != i ensures gs[k].id != id {
        assert k < i ==> gs[k].id != gs[i].id;
      }
    }
    forall u | u in l.grants && u != s ensures r[u] == l.grants[u] {
      assert RevokeIn(l.grants[u], id, reason, stamp) == l.grants[u];
    }
  }

  lemma {:induction false} RevokeMiss(l: Ledger, id: nat, reason: string, stamp: string)
    requires forall s, k :: s in l.grants && 0 <= k < |l.grants[s]| ==> l.grants[s][k].id != id
    ensures Revoke(l, id, reason, stamp) == l
  {
    forall u | u in l.grants ensures RevokeIn(l.grants[u], id, reason, stamp) == l.grants[u] {
    }
    assert Revoke(l, id, reason, stamp).grants == l.grants;
  }

  // --------------------------------------------------------- expiry totals

  function SumZeroed(gs: seq<Grant>, now: Instant): int {
    if gs == [] then 0
    else
      var g := gs[|gs| - 1];
      SumZeroed(gs[..|gs| - 1], now) + (g.remaining - ZeroIfExpired(g, now).remaining)
  }

  function CountZeroed(gs: seq<Grant>, now: Instant): int {
    if gs == [] then 0
    else
      var g := gs[|gs| - 1];
      CountZeroed(gs[..|gs| - 1], now) + (if ZeroIfExpired(g, now) != g then 1 else 0)
  }

  /** What the sweep reports of one subject: the credit it takes from the grants, and
      the number of grants past their expiry that still had some. */
  lemma {:induction false} SweepReports(gs: seq<Grant>, now: Instant)
    ensures SumZeroed(gs, now) == Taken(gs, SweepGrants(gs, now))
    ensures CountZeroed(gs, now)
         == |set i | 0 <= i < |gs| && gs[i].expiresAt.Some? && gs[i].expiresAt.value < now && gs[i].remaining > 0|
  {
    hide SumZeroed, CountZeroed, Taken, SweepGrants;
    SweepTakes(gs, now);
    SweepCounts(gs, now);
  }

  lemma {:induction false} SweepTakes(gs: seq<Grant>, now: Instant)
    ensures SumZeroed(gs, now) == Taken(gs, SweepGrants(gs, now))
  {
    if gs != [] {
      var n := |gs| - 1;
      SweepTakes(gs[..n], now);
      assert SweepGrants(gs, now)[..n] == SweepGrants(gs[..n], now);
    }
  }

  lemma {:induction false} SweepCounts(gs: seq<Grant>, now: Instant)
    ensures CountZeroed(gs, now)
         == |set i | 0 <= i < |gs| && gs[i].expiresAt.Some? && gs[i].expiresAt.value < now && gs[i].remaining > 0|
  {
    if gs != [] {
      var n := |gs| - 1;
      var init := gs[..n];
      SweepCounts(init, now);
      var before := set i | 0 <= i < n && init[i].expiresAt.Some? && init[i].expiresAt.value < now
                            && init[i].remaining > 0;
      var all := set i | 0 <= i < |gs| && gs[i].expiresAt.Some? && gs[i].expiresAt.value < now && gs[i].remaining > 0;
      assert all == if Expired(gs[n], now) && gs[n].remaining > 0 then before + {n} else before;
    }
  }

  ghost function ExpiredCredit(m: map<Subject, seq<Grant>>, subjects: set<Subject>, now: Instant): int
    requires subjects <= m.Keys
  {
    if subjects == {} then 0
    else
      var s :| s in subjects;
      SumZeroed(m[s], now) + ExpiredCredit(m, subjects - {s}, now)
  }

  ghost function ExpiredCount(m: map<Subject, seq<Grant>>, subjects: set<Subject>, now: Instant): int
    requires subjects <= m.Keys
  {
    if subjects == {} then 0
    else
      var s :| s in subjects;
      CountZeroed(m[s], now) + ExpiredCount(m, subjects - {s}, now)
  }

  /** The reported totals do not depend on the order subjects are visited. */
  lemma {:induction false} ExpiredCreditAdds(m: map<Subject, seq<Grant>>, subjects: set<Subject>, s: Subject,
                                             now: Instant)
    requires subjects <= m.Keys && s in m.Keys && s !in subjects
    ensures ExpiredCredit(m, subjects + {s}, now) == ExpiredCredit(m, subjects, now) + SumZeroed(m[s], now)
    decreases |subjects|
  {
    var all := subjects + {s};
    var p :| p in all && ExpiredCredit(m, all, now) == SumZeroed(m[p], now) + ExpiredCredit(m, all - {p}, now);
    if p == s {
      assert all - {s} == subjects;
    } else {
      assert all - {p} == (subjects - {p}) + {s};
      ExpiredCreditAdds(m, subjects - {p}, s, now);
      ExpiredCreditAdds(m, subjects - {p}, p, now);
      assert (subjects - {p}) + {p} == subjects;
    }
  }

  lemma {:induction false} ExpiredCountAdds(m: map<Subject, seq<Grant>>, subjects: set<Subject>, s: Subject,
                                            now: Instant)
    requires subjects <= m.Keys && s in m.Keys && s !in subjects
    ensures ExpiredCount(m, subjects + {s}, now) == ExpiredCount(m, subjects, now) + CountZeroed(m[s], now)
    decreases |subjects|
  {
    var all := subjects + {s};
    var p :| p in all && ExpiredCount(m, all, now) == CountZeroed(m[p], now) + ExpiredCount(m, all - {p}, now);
    if p == s {
      assert all - {s} == subjects;
    } else {
      assert all - {p} == (subjects - {p}) + {s};
      ExpiredCountAdds(m, subjects - {p}, s, now);
      ExpiredCountAdds(m, subjects - {p}, p, now);
      assert (subjects - {p}) + {p} == subjects;
    }
  }
}
