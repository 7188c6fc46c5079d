/** The claim protocol of the webhook endpoint: any number of deliveries of one
    event id race against the dedup store, each of them may crash at any point,
    and every store call may fail, with or without having taken effect. */
module WebhookDedup {
  import opened Options
  import opened Runs

  /** Seconds. */
  type Time = nat

  /** What the store holds under the event id.  Each delivery locks at most
      once, so its number serves as the token. */
  datatype Entry = Free | Locked(token: nat, until: Time) | Completed(token: nat, until: Time)

  predicate Live(e: Entry, now: Time) {
    !e.Free? && now < e.until
  }

  datatype Pc = Arrived | Checked | Claimed | Dispatching | Deciding | Marking | Unlocking | Finished | Crashed

  /** `claimedAt`, `succeeded`, `marked` and `released` record what happened. */
  datatype Delivery = Delivery(
    pc: Pc, claimedAt: Option<Time>, succeeded: bool, marked: Option<Time>, released: bool)

  const ARRIVED := Delivery(Arrived, None, false, None, false)

  datatype State = State(now: Time, entry: Entry, ds: seq<Delivery>)

  const START := State(0, Free, [])

  /** A store call is answered, or fails after or without taking effect. */
  datatype Reply = Answered | Failed(applied: bool) {
    predicate TookEffect() { Answered? || applied }
  }

  datatype Step =
    | Tick(seconds: nat)
    | Arrive
    | Get(i: nat, reply: Reply)
    | TryLock(i: nat, reply: Reply)
    | Skip(i: nat)
    | Dispatch(i: nat)
    | Return(i: nat, ok: bool)
    | GiveUp(i: nat)
    | Retry(i: nat)
    | Set(i: nat, reply: Reply)
    | Unlock(i: nat, reply: Reply)
    | Crash(i: nat)

  predicate At(s: State, i: nat, pc: Pc) {
    i < |s.ds| && s.ds[i].pc == pc
  }

  function Put(s: State, i: nat, d: Delivery): State
    requires i < |s.ds|
  {
    s.(ds := s.ds[i := d])
  }

  function Goto(s: State, i: nat, pc: Pc): State
    requires i < |s.ds|
  {
    Put(s, i, s.ds[i].(pc := pc))
  }

  /** store.Get: a completed event is answered at once. */
  function AfterGet(s: State, i: nat, reply: Reply): State
    requires i < |s.ds|
  {
    if reply.Failed? || (s.entry.Completed? && Live(s.entry, s.now)) then Goto(s, i, Finished) else Goto(s, i, Checked)
  }

  /** store.TryLock is atomic and refuses while the key is locked or completed. */
  function AfterTryLock(ttl: nat, s: State, i: nat, reply: Reply): State
    requires i < |s.ds|
  {
    if Live(s.entry, s.now) then Goto(s, i, Finished)
    else
      var t := if reply.TookEffect() then s.(entry := Locked(i, s.now + ttl)) else s;
      if reply.Answered? then Put(t, i, t.ds[i].(pc := Claimed, claimedAt := Some(s.now))) else Goto(t, i, Finished)
  }

  /** Set and Unlock act only with the current token. */
  predicate Holds(s: State, i: nat) {
    s.entry.Locked? && s.entry.token == i && Live(s.entry, s.now)
  }

  function AfterSet(ttl: nat, s: State, i: nat, reply: Reply): State
    requires i < |s.ds|
  {
    if Holds(s, i) && reply.TookEffect() then
      Put(s, i, s.ds[i].(pc := Finished, marked := Some(s.now))).(entry := Completed(i, s.now + ttl))
    else Goto(s, i, Finished)
  }

  function AfterUnlock(s: State, i: nat, reply: Reply): State
    requires i < |s.ds|
  {
    if Holds(s, i) && reply.TookEffect() then
      Put(s, i, s.ds[i].(pc := Finished, released := true)).(entry := Free)
    else Goto(s, i, Finished)
  }

  /** One step; a step that is not possible changes nothing. */
  function Do(ttl: nat, s: State, step: Step): State {
    match step
    case Tick(d) => s.(now := s.now + d)
    case Arrive => s.(ds := s.ds + [ARRIVED])
    case Get(i, reply) => if At(s, i, Arrived) then AfterGet(s, i, reply) else s
    case TryLock(i, reply) => if At(s, i, Checked) then AfterTryLock(ttl, s, i, reply) else s
    case Skip(i) => if At(s, i, Claimed) then Goto(s, i, Marking) else s
    case Dispatch(i) => if At(s, i, Claimed) then Goto(s, i, Dispatching) else s
    case Return(i, ok) =>
      if !At(s, i, Dispatching) then s
      else if ok then Put(s, i, s.ds[i].(pc := Marking, succeeded := true))
      else Goto(s, i, Deciding)
    case GiveUp(i) => if At(s, i, Deciding) then Goto(s, i, Marking) else s
    case Retry(i) => if At(s, i, Deciding) then Goto(s, i, Unlocking) else s
    case Set(i, reply) => if At(s, i, Marking) then AfterSet(ttl, s, i, reply) else s
    case Unlock(i, reply) => if At(s, i, Unlocking) then AfterUnlock(s, i, reply) else s
    case Crash(i) => if i < |s.ds| && s.ds[i].pc != Finished then Goto(s, i, Crashed) else s
  }

  function Next(ttl: nat): (State, Step) -> State {
    (s: State, step: Step) => Do(ttl, s, step)
  }

  /** The state after further steps. */
  function Continue(ttl: nat, s: State, steps: seq<Step>): State {
    Play(Next(ttl), s, steps)
  }

  /** The state after a run: any interleaving is a sequence of steps. */
  function Run(ttl: nat, steps: seq<Step>): State {
    Continue(ttl, START, steps)
  }

  // --------------------------------------------------------------- invariant

  /** A claim that was never given back and has not expired. */
  predicate Holding(ttl: nat, s: State, i: nat) {
    && i < |s.ds| && s.ds[i].claimedAt.Some? && !s.ds[i].released
    && s.now < s.ds[i].claimedAt.value + ttl
  }

  predicate MarkLives(ttl: nat, s: State, i: nat) {
    i < |s.ds| && s.ds[i].marked.Some? && s.now < s.ds[i].marked.value + ttl
  }

  predicate Coherent(d: Delivery, now: Time) {
    && (d.claimedAt.None? ==> d.pc in {Arrived, Checked, Finished, Crashed} && !d.succeeded && d.marked.None?)
    && (d.claimedAt.Some? ==> d.pc !in {Arrived, Checked} && d.claimedAt.value <= now)
    && (d.released ==> d.pc in {Finished, Crashed} && !d.succeeded && d.marked.None?)
    && (d.succeeded ==> d.pc in {Marking, Finished, Crashed})
    && (d.marked.Some? ==> d.pc in {Finished, Crashed} && d.claimedAt.Some?
                           && d.claimedAt.value <= d.marked.value <= now)
  }

  /** Only one delivery can own the entry. */
  predicate Owns(ttl: nat, s: State, i: nat)
    requires i < |s.ds| && s.ds[i].claimedAt.Some?
  {
    if s.ds[i].marked.Some? then s.entry == Completed(i, s.ds[i].marked.value + ttl)
    else s.entry == Locked(i, s.ds[i].claimedAt.value + ttl)
  }

  /** Two claims, neither given back, lie a TTL apart, and a TTL after a mark. */
  predicate Apart(ttl: nat, d: Delivery, e: Delivery)
    requires d.claimedAt.Some? && e.claimedAt.Some?
  {
    d.released || e.released || After(ttl, d, e) || After(ttl, e, d)
  }

  predicate After(ttl: nat, d: Delivery, e: Delivery)
    requires d.claimedAt.Some? && e.claimedAt.Some?
  {
    && d.claimedAt.value + ttl <= e.claimedAt.value
    && (d.marked.Some? ==> d.marked.value + ttl <= e.claimedAt.value)
  }

  ghost predicate Inv(ttl: nat, s: State) {
    && (forall i :: 0 <= i < |s.ds| ==> Coherent(s.ds[i], s.now))
    && (forall i :: 0 <= i < |s.ds| && s.ds[i].claimedAt.Some? && (Holding(ttl, s, i) || MarkLives(ttl, s, i)) ==>
          Owns(ttl, s, i))
    && (forall i, j :: 0 <= i < j < |s.ds| && s.ds[i].claimedAt.Some? && s.ds[j].claimedAt.Some? ==>
          Apart(ttl, s.ds[i], s.ds[j]))
    && (s.entry.Free? || s.entry.token < |s.ds|)
    && (s.entry.Locked? && s.ds[s.entry.token].claimedAt.Some? ==>
          s.entry.until == s.ds[s.entry.token].claimedAt.value + ttl)
    && (s.entry.Free? || s.entry.until <= s.now + ttl)
  }

  lemma {:induction false} StepKeepsInv(ttl: nat, s: State, step: Step)
    requires Inv(ttl, s)
    ensures Inv(ttl, Do(ttl, s, step))
  {
    match step
    case Tick(d) => TickKeepsInv(ttl, s, d);
    case Arrive => ArriveKeepsInv(ttl, s);
    case TryLock(i, reply) => if At(s, i, Checked) { TryLockKeepsInv(ttl, s, i, reply); }
    case Set(i, reply) => if At(s, i, Marking) { SetKeepsInv(ttl, s, i, reply); }
    case Unlock(i, reply) => if At(s, i, Unlocking) { UnlockKeepsInv(ttl, s, i, reply); }
    case _ => QuietKeepsInv(ttl, s, step);
  }

  lemma {:induction false} TickKeepsInv(ttl: nat, s: State, seconds: nat)
    requires Inv(ttl, s)
    ensures Inv(ttl, Do(ttl, s, Tick(seconds)))
  {
  }

  lemma {:induction false} ArriveKeepsInv(ttl: nat, s: State)
    requires Inv(ttl, s)
    ensures Inv(ttl, Do(ttl, s, Arrive))
  {
  }

  /** Progress inside one delivery does not touch its claim. */
  lemma {:induction false} QuietKeepsInv(ttl: nat, s: State, step: Step)
    requires Inv(ttl, s) && !step.Tick? && !step.Arrive? && !step.TryLock? && !step.Set? && !step.Unlock?
    ensures Inv(ttl, Do(ttl, s, step))
  {
    hide Inv;
    var t := Do(ttl, s, step);
    if t != s {
      CoherentNow(ttl, s, step.i);
      assert t == Put(s, step.i, t.ds[step.i]);
      PutKeepsInv(ttl, s, step.i, t.ds[step.i]);
    }
  }

  lemma {:induction false} CoherentNow(ttl: nat, s: State, i: nat)
    requires Inv(ttl, s) && i < |s.ds|
    ensures Coherent(s.ds[i], s.now)
  {
  }

  lemma {:induction false} PutKeepsInv(ttl: nat, s: State, i: nat, d: Delivery)
    requires Inv(ttl, s) && i < |s.ds| && Coherent(d, s.now)
    requires d.claimedAt == s.ds[i].claimedAt && d.marked == s.ds[i].marked && d.released == s.ds[i].released
    ensures Inv(ttl, Put(s, i, d))
  {
    hide Coherent, Apart;
    var t := Put(s, i, d);
    forall j, k | 0 <= j < k < |t.ds| && t.ds[j].claimedAt.Some? && t.ds[k].claimedAt.Some?
      ensures Apart(ttl, t.ds[j], t.ds[k])
    {
      assert Apart(ttl, s.ds[j], s.ds[k]);
      SameClaimsApart(ttl, s.ds[j], s.ds[k], t.ds[j], t.ds[k]);
    }
  }

  lemma {:induction false} SameClaimsApart(ttl: nat, d: Delivery, e: Delivery, d': Delivery, e': Delivery)
    requires d.claimedAt.Some? && e.claimedAt.Some? && Apart(ttl, d, e)
    requires d'.claimedAt == d.claimedAt && d'.marked == d.marked && d'.released == d.released
    requires e'.claimedAt == e.claimedAt && e'.marked == e.marked && e'.released == e.released
    ensures Apart(ttl, d', e')
  {
  }

  lemma {:induction false} TryLockKeepsInv(ttl: nat, s: State, i: nat, reply: Reply)
    requires Inv(ttl, s) && At(s, i, Checked)
    ensures Inv(ttl, AfterTryLock(ttl, s, i, reply))
  {
    if Live(s.entry, s.now) {
      PutKeepsInv(ttl, s, i, s.ds[i].(pc := Finished));
    } else {
      forall j | 0 <= j < |s.ds| ensures !Holding(ttl, s, j) && !MarkLives(ttl, s, j) {
        assert Coherent(s.ds[j], s.now);
      }
      LockKeepsInv(ttl, s, i, reply);
    }
  }

  /** A lock granted on an expired entry: no other claim is alive. */
  lemma {:induction false} LockKeepsInv(ttl: nat, s: State, i: nat, reply: Reply)
    requires Inv(ttl, s) && At(s, i, Checked) && !Live(s.entry, s.now)
    requires forall j :: 0 <= j < |s.ds| ==> !Holding(ttl, s, j) && !MarkLives(ttl, s, j)
    ensures Inv(ttl, AfterTryLock(ttl, s, i, reply))
  {
    assert Coherent(s.ds[i], s.now);
  }

  lemma {:induction false} SetKeepsInv(ttl: nat, s: State, i: nat, reply: Reply)
    requires Inv(ttl, s) && At(s, i, Marking)
    ensures Inv(ttl, AfterSet(ttl, s, i, reply))
  {
    CoherentNow(ttl, s, i);
    if Holds(s, i) && reply.TookEffect() {
      MarkKeepsInv(ttl, s, i);
    } else {
      PutKeepsInv(ttl, s, i, s.ds[i].(pc := Finished));
    }
  }

  /** A mark by the current owner: every other claim lies a TTL before this one. */
  lemma {:induction false} MarkKeepsInv(ttl: nat, s: State, i: nat)
    requires Inv(ttl, s) && At(s, i, Marking) && Holds(s, i)
    ensures Inv(ttl, AfterSet(ttl, s, i, Answered))
  {
    CoherentNow(ttl, s, i);
    var d := s.ds[i];
    forall j | 0 <= j < |s.ds| && j != i && s.ds[j].claimedAt.Some?
      ensures s.ds[j].released || After(ttl, s.ds[j], d)
      ensures !Holding(ttl, s, j) && !MarkLives(ttl, s, j)
    {
      CoherentNow(ttl, s, j);
      assert Apart(ttl, s.ds[j], d) || Apart(ttl, d, s.ds[j]);
    }
  }

  lemma {:induction false} UnlockKeepsInv(ttl: nat, s: State, i: nat, reply: Reply)
    requires Inv(ttl, s) && At(s, i, Unlocking)
    ensures Inv(ttl, AfterUnlock(s, i, reply))
  {
    CoherentNow(ttl, s, i);
    if !(Holds(s, i) && reply.TookEffect()) {
      PutKeepsInv(ttl, s, i, s.ds[i].(pc := Finished));
    }
  }

  lemma {:induction false} ContinueKeepsInv(ttl: nat, s: State, steps: seq<Step>)
    requires Inv(ttl, s)
    ensures Inv(ttl, Continue(ttl, s, steps))
    decreases |steps|
  {
    hide Inv, Do;
    if steps != [] {
      StepKeepsInv(ttl, s, steps[0]);
      ContinueKeepsInv(ttl, Do(ttl, s, steps[0]), steps[1..]);
    }
  }

  lemma {:induction false} RunKeepsInv(ttl: nat, steps: seq<Step>)
    ensures Inv(ttl, Run(ttl, steps))
  {
    ContinueKeepsInv(ttl, START, steps);
  }

  // ----------------------------------------------------------- what it gives

  /** The delivery's own claim has not expired. */
  predicate InTime(ttl: nat, s: State, i: nat) {
    i < |s.ds| && s.ds[i].claimedAt.Some? && s.now < s.ds[i].claimedAt.value + ttl
  }

  /** In every interleaving at most one delivery whose claim is in time is inside
      dispatch. */
  lemma {:induction false} OneDispatchAtATime(ttl: nat, steps: seq<Step>, i: nat, j: nat)
    ensures var s := Run(ttl, steps);
            At(s, i, Dispatching) && At(s, j, Dispatching) && InTime(ttl, s, i) && InTime(ttl, s, j) ==> i == j
  {
    RunKeepsInv(ttl, steps);
    var s := Run(ttl, steps);
    assert Holding(ttl, s, i) && Holding(ttl, s, j) ==> Owns(ttl, s, i) && Owns(ttl, s, j);
  }

  /** Once a dispatch has succeeded, no delivery whose claim is in time starts
      another until the claim of the first, and its mark if it was stored, have
      expired. */
  lemma {:induction false} NoDispatchAfterSuccess(ttl: nat, steps: seq<Step>, i: nat, j: nat)
    requires i < |Run(ttl, steps).ds| && Run(ttl, steps).ds[i].succeeded
    requires At(Run(ttl, steps), j, Claimed) && InTime(ttl, Run(ttl, steps), j)
    ensures !InTime(ttl, Run(ttl, steps), i) && !MarkLives(ttl, Run(ttl, steps), i)
  {
    RunKeepsInv(ttl, steps);
    var s := Run(ttl, steps);
    assert Coherent(s.ds[i], s.now) && Coherent(s.ds[j], s.now);
    assert Holding(ttl, s, j) && Owns(ttl, s, j);
    assert Holding(ttl, s, i) || MarkLives(ttl, s, i) ==> Owns(ttl, s, i);
  }

  /** Any two successful deliveries claimed the event at least a TTL apart, and
      the later one a TTL after the mark of the earlier. */
  lemma {:induction false} SuccessesAreApart(ttl: nat, steps: seq<Step>, i: nat, j: nat)
    requires i < j < |Run(ttl, steps).ds|
    requires Run(ttl, steps).ds[i].succeeded && Run(ttl, steps).ds[j].succeeded
    ensures var d, e := Run(ttl, steps).ds[i], Run(ttl, steps).ds[j];
            && d.claimedAt.Some? && e.claimedAt.Some?
            && (After(ttl, d, e) || After(ttl, e, d))
  {
    RunKeepsInv(ttl, steps);
    var s := Run(ttl, steps);
    assert Coherent(s.ds[i], s.now) && Coherent(s.ds[j], s.now);
    assert Apart(ttl, s.ds[i], s.ds[j]);
  }

  // ------------------------------------------------------------------ retries

  function ClaimSteps(n: nat): seq<Step> {
    [Arrive, Get(n, Answered), TryLock(n, Answered)]
  }

  /** A delivery that arrives when nothing live is stored gets the claim. */
  lemma {:induction false} ClaimsWhenFree(ttl: nat, s: State)
    requires !Live(s.entry, s.now)
    ensures Continue(ttl, s, ClaimSteps(|s.ds|))
         == State(s.now, Locked(|s.ds|, s.now + ttl), s.ds + [ARRIVED.(pc := Claimed, claimedAt := Some(s.now))])
  {
    var n := |s.ds|;
    Three(Next(ttl), s, Arrive, Get(n, Answered), TryLock(n, Answered));
    var t := Do(ttl, s, Arrive);
    assert t.ds[n] == ARRIVED;
    var u := Do(ttl, t, Get(n, Answered));
    assert u == t.(ds := s.ds + [ARRIVED.(pc := Checked)]);
  }

  /** While a mark is alive a further delivery is answered at once. */
  lemma {:induction false} DuplicateIsReplayed(ttl: nat, steps: seq<Step>, i: nat)
    requires MarkLives(ttl, Run(ttl, steps), i)
    ensures var n := |Run(ttl, steps).ds|;
            At(Run(ttl, steps + [Arrive] + [Get(n, Answered)]), n, Finished)
  {
    var s := Run(ttl, steps);
    var n := |s.ds|;
    RunKeepsInv(ttl, steps);
    CoherentNow(ttl, s, i);
    assert Owns(ttl, s, i);
    var t := Do(ttl, s, Arrive);
    Concat(Next(ttl), START, steps, [Arrive]);
    One(Next(ttl), s, Arrive);
    Concat(Next(ttl), START, steps + [Arrive], [Get(n, Answered)]);
    One(Next(ttl), t, Get(n, Answered));
  }

  /** Nothing blocks an event for longer than a TTL, whatever crashed before: a
      delivery arriving then is about to dispatch. */
  lemma {:induction false} RetryAfterTtl(ttl: nat, steps: seq<Step>)
    ensures var n := |Run(ttl, steps).ds|;
            At(Run(ttl, steps + [Tick(ttl)] + ClaimSteps(n)), n, Claimed)
  {
    var s := Run(ttl, steps);
    RunKeepsInv(ttl, steps);
    var n := |s.ds|;
    var t := Do(ttl, s, Tick(ttl));
    Concat(Next(ttl), START, steps, [Tick(ttl)]);
    assert Continue(ttl, s, [Tick(ttl)]) == t;
    Concat(Next(ttl), START, steps + [Tick(ttl)], ClaimSteps(n));
    ClaimsWhenFree(ttl, t);
  }

  /** After a failed dispatch whose unlock went through, the next delivery can
      dispatch at once. */
  lemma {:induction false} RetryAfterUnlock(ttl: nat, steps: seq<Step>, i: nat)
    requires At(Run(ttl, steps), i, Unlocking) && Holds(Run(ttl, steps), i)
    ensures var n := |Run(ttl, steps).ds|;
            At(Run(ttl, steps + [Unlock(i, Answered)] + ClaimSteps(n)), n, Claimed)
  {
    var s := Run(ttl, steps);
    var n := |s.ds|;
    var t := Do(ttl, s, Unlock(i, Answered));
    Concat(Next(ttl), START, steps, [Unlock(i, Answered)]);
    assert Continue(ttl, s, [Unlock(i, Answered)]) == t;
    Concat(Next(ttl), START, steps + [Unlock(i, Answered)], ClaimSteps(n));
    ClaimsWhenFree(ttl, t);
  }

  lemma {:induction false} RunMore(ttl: nat, steps: seq<Step>, step: Step)
    ensures Run(ttl, steps + [step]) == Do(ttl, Run(ttl, steps), step)
  {
    Concat(Next(ttl), START, steps, [step]);
    One(Next(ttl), Run(ttl, steps), step);
  }

  lemma {:induction false} RunNothing(ttl: nat)
    ensures Run(ttl, []) == START
  {
  }

  /** How delivery i got where it is, in the steps taken. */
  ghost predicate Explained(d: Delivery, i: nat, steps: seq<Step>) {
    && (d.pc == Claimed || d.claimedAt.Some? ==> TryLock(i, Answered) in steps)
    && (d.pc == Dispatching ==> Dispatch(i) in steps)
    && (d.succeeded ==> Return(i, true) in steps)
    && (d.pc == Deciding ==> Return(i, false) in steps)
    && (d.pc == Marking || d.marked.Some? ==>
          Skip(i) in steps || d.succeeded || (Return(i, false) in steps && GiveUp(i) in steps))
    && (d.pc == Unlocking || d.released ==> Return(i, false) in steps && Retry(i) in steps)
    && (d.pc == Crashed ==> Crash(i) in steps)
  }

  /** Why an event is marked, in every run: it was skipped, its dispatch succeeded,
      or its dispatch failed and the delivery gave up.  A lock is given back only
      after a failed dispatch that is to be retried. */
  lemma {:induction false} MarksHaveReasons(ttl: nat, steps: seq<Step>, i: nat)
    requires i < |Run(ttl, steps).ds|
    ensures Explained(Run(ttl, steps).ds[i], i, steps)
  {
    hide Run, Do, Explained;
    if steps == [] {
      RunNothing(ttl);
    } else {
      var n := |steps| - 1;
      var init := steps[..n];
      assert steps == init + [steps[n]];
      RunMore(ttl, init, steps[n]);
      if i < |Run(ttl, init).ds| { MarksHaveReasons(ttl, init, i); }
      StepIsExplained(ttl, Run(ttl, init), init, steps[n], i);
    }
  }

  lemma {:induction false} StepIsExplained(ttl: nat, s: State, steps: seq<Step>, step: Step, i: nat)
    requires i < |s.ds| ==> Explained(s.ds[i], i, steps)
    requires i < |Do(ttl, s, step).ds|
    ensures Explained(Do(ttl, s, step).ds[i], i, steps + [step])
  {
    hide Live;
    assert forall x :: x in steps ==> x in steps + [step];
    assert step in steps + [step];
  }

  /** A failed dispatch is retried: from every run in which delivery i is inside
      dispatch and holds the entry, its failure and unlock let the next delivery
      dispatch at once. */
  lemma {:induction false} FailedDispatchIsRetried(ttl: nat, steps: seq<Step>, i: nat)
    requires At(Run(ttl, steps), i, Dispatching) && Holds(Run(ttl, steps), i)
    ensures var n := |Run(ttl, steps).ds|;
            var fail := [Return(i, false), Retry(i), Unlock(i, Answered)];
            var s := Run(ttl, steps + fail + (ClaimSteps(n) + [Dispatch(n)]));
            At(s, n, Dispatching) && At(s, i, Finished) && s.ds[i].marked.None? && !s.ds[i].succeeded
  {
    hide Play;
    var s, n := Run(ttl, steps), |Run(ttl, steps).ds|;
    var fail := [Return(i, false), Retry(i), Unlock(i, Answered)];
    RunKeepsInv(ttl, steps);
    CoherentNow(ttl, s, i);
    Concat(Next(ttl), START, steps, fail);
    Three(Next(ttl), s, fail[0], fail[1], fail[2]);
    var t := Run(ttl, steps + fail);
    assert t == Put(s, i, s.ds[i].(pc := Finished, released := true)).(entry := Free);
    Concat(Next(ttl), START, steps + fail, ClaimSteps(n) + [Dispatch(n)]);
    Concat(Next(ttl), t, ClaimSteps(n), [Dispatch(n)]);
    ClaimsWhenFree(ttl, t);
    One(Next(ttl), Continue(ttl, t, ClaimSteps(n)), Dispatch(n));
  }

  /** A delivery of another namespace is marked without a dispatch. */
  lemma {:induction false} SkippedIsMarked(ttl: nat, steps: seq<Step>, i: nat)
    requires At(Run(ttl, steps), i, Claimed) && Holds(Run(ttl, steps), i)
    ensures var s := Run(ttl, steps + [Skip(i), Set(i, Answered)]);
            At(s, i, Finished) && !s.ds[i].succeeded && MarkLives(ttl, s, i)
  {
    hide Play;
    var s := Run(ttl, steps);
    RunKeepsInv(ttl, steps);
    CoherentNow(ttl, s, i);
    Concat(Next(ttl), START, steps, [Skip(i), Set(i, Answered)]);
    Two(Next(ttl), s, Skip(i), Set(i, Answered));
  }

  /** A delivery that has answered stays so, whatever happens next; any other can
      crash, and leaves the store as it is. */
  lemma {:induction false} AnsweredStays(ttl: nat, s: State, step: Step, i: nat)
    requires i < |s.ds|
    ensures s.ds[i].pc == Finished ==> i < |Do(ttl, s, step).ds| && Do(ttl, s, step).ds[i] == s.ds[i]
    ensures s.ds[i].pc != Finished ==> Do(ttl, s, Crash(i)) == s.(ds := s.ds[i := s.ds[i].(pc := Crashed)])
  {
  }

  /** A failed look-up answers the request without a claim. */
  lemma {:induction false} FailedGetEnds(ttl: nat, s: State, i: nat, applied: bool)
    requires At(s, i, Arrived)
    ensures Do(ttl, s, Get(i, Failed(applied))) == s.(ds := s.ds[i := s.ds[i].(pc := Finished)])
  {
  }

  /** A claim whose answer is lost ends the delivery.  If the lock was taken all the
      same it blocks the next delivery until a TTL has passed, otherwise that one
      claims at once. */
  lemma {:induction false} LostLockBlocksIff(ttl: nat, s: State, i: nat, applied: bool, seconds: nat)
    requires At(s, i, Checked) && !Live(s.entry, s.now)
    ensures var n := |s.ds|;
            var t := Continue(ttl, s, [TryLock(i, Failed(applied)), Tick(seconds)] + ClaimSteps(n));
            && At(t, i, Finished) && t.ds[i].claimedAt == s.ds[i].claimedAt
            && (At(t, n, Claimed) <==> !(applied && seconds < ttl))
            && (At(t, n, Finished) <==> applied && seconds < ttl)
  {
    hide Play;
    var n, lost := |s.ds|, [TryLock(i, Failed(applied)), Tick(seconds)];
    Concat(Next(ttl), s, lost, ClaimSteps(n));
    Two(Next(ttl), s, lost[0], lost[1]);
    var t := Continue(ttl, s, lost);
    if applied && seconds < ttl { RefusedWhenLocked(ttl, t); } else { ClaimsWhenFree(ttl, t); }
  }

  /** A mark whose answer is lost ends the delivery too: if it was stored, the next
      delivery finds it; otherwise the lock is still there. */
  lemma {:induction false} LostMarkIsFoundIff(ttl: nat, s: State, i: nat, applied: bool)
    requires At(s, i, Marking) && Holds(s, i) && ttl > 0
    ensures var n := |s.ds|;
            var t := Continue(ttl, s, [Set(i, Failed(applied)), Arrive, Get(n, Answered)]);
            && At(t, i, Finished) && (At(t, n, Finished) <==> applied) && (At(t, n, Checked) <==> !applied)
            && (!applied ==> t.entry == s.entry)
  {
    hide Play;
    Three(Next(ttl), s, Set(i, Failed(applied)), Arrive, Get(|s.ds|, Answered));
  }

  /** And an unlock whose answer is lost frees the event if and only if it was
      applied. */
  lemma {:induction false} LostUnlockFreesIff(ttl: nat, s: State, i: nat, applied: bool)
    requires At(s, i, Unlocking) && Holds(s, i)
    ensures var n := |s.ds|;
            var t := Continue(ttl, s, [Unlock(i, Failed(applied))] + ClaimSteps(n));
            At(t, i, Finished) && (At(t, n, Claimed) <==> applied) && (At(t, n, Finished) <==> !applied)
  {
    hide Play;
    var n := |s.ds|;
    Concat(Next(ttl), s, [Unlock(i, Failed(applied))], ClaimSteps(n));
    One(Next(ttl), s, Unlock(i, Failed(applied)));
    var t := Do(ttl, s, Unlock(i, Failed(applied)));
    if applied { ClaimsWhenFree(ttl, t); } else { RefusedWhenLocked(ttl, t); }
  }

  /** Without the lock neither a mark nor an unlock has an effect on the store. */
  lemma {:induction false} LostOwnershipIsHarmless(ttl: nat, s: State, i: nat, reply: Reply)
    requires i < |s.ds| && !Holds(s, i)
    ensures s.ds[i].pc == Marking ==> Do(ttl, s, Set(i, reply)) == s.(ds := s.ds[i := s.ds[i].(pc := Finished)])
    ensures s.ds[i].pc == Unlocking ==> Do(ttl, s, Unlock(i, reply)) == s.(ds := s.ds[i := s.ds[i].(pc := Finished)])
  {
  }

  /** A dispatch that succeeds, or that fails for good, is marked: from every such
      run the next delivery is answered at once for the length of a TTL. */
  lemma {:induction false} SettledDispatchIsMarked(ttl: nat, steps: seq<Step>, i: nat, ok: bool, seconds: nat)
    requires At(Run(ttl, steps), i, Dispatching) && Holds(Run(ttl, steps), i) && seconds < ttl
    ensures var n := |Run(ttl, steps).ds|;
            var settle := [Return(i, ok), GiveUp(i), Set(i, Answered)];
            var s := Run(ttl, steps + settle + [Tick(seconds), Arrive, Get(n, Answered)]);
            && At(s, i, Finished) && s.ds[i].succeeded == ok && MarkLives(ttl, s, i)
            && At(s, n, Finished) && s.ds[n].claimedAt.None?
  {
    hide Play;
    var s, n := Run(ttl, steps), |Run(ttl, steps).ds|;
    var settle := [Return(i, ok), GiveUp(i), Set(i, Answered)];
    RunKeepsInv(ttl, steps);
    CoherentNow(ttl, s, i);
    Concat(Next(ttl), START, steps, settle);
    Three(Next(ttl), s, settle[0], settle[1], settle[2]);
    var t := Run(ttl, steps + settle);
    assert t.entry == Completed(i, s.now + ttl) && t.now == s.now && |t.ds| == n;
    Concat(Next(ttl), START, steps + settle, [Tick(seconds), Arrive, Get(n, Answered)]);
    Three(Next(ttl), t, Tick(seconds), Arrive, Get(n, Answered));
  }

  /** Claim, dispatch and mark of the next delivery. */
  function ProcessSteps(n: nat): seq<Step> {
    ClaimSteps(n) + [Dispatch(n), Return(n, true), Set(n, Answered)]
  }

  lemma {:induction false} ProcessesWhenFree(ttl: nat, s: State)
    requires ttl > 0 && !Live(s.entry, s.now)
    ensures var t := Continue(ttl, s, ProcessSteps(|s.ds|));
            && t.now == s.now && |t.ds| == |s.ds| + 1 && t.ds[..|s.ds|] == s.ds
            && t.ds[|s.ds|].succeeded && MarkLives(ttl, t, |s.ds|)
  {
    hide Play;
    var n := |s.ds|;
    ClaimsWhenFree(ttl, s);
    var u := Continue(ttl, s, ClaimSteps(n));
    Concat(Next(ttl), s, ClaimSteps(n), [Dispatch(n), Return(n, true), Set(n, Answered)]);
    Three(Next(ttl), u, Dispatch(n), Return(n, true), Set(n, Answered));
  }

  /** The in-time condition cannot be dropped, in any run: whenever a delivery
      holds a claim it has not yet dispatched, it may stall for a TTL while another
      delivery claims, dispatches and marks the event, and then dispatch it again. */
  lemma {:induction false} StalledDeliveryDispatchesAgain(ttl: nat, steps: seq<Step>, i: nat)
    requires ttl > 0 && At(Run(ttl, steps), i, Claimed)
    ensures var n := |Run(ttl, steps).ds|;
            var s := Run(ttl, steps + [Tick(ttl)] + ProcessSteps(n) + [Dispatch(i)]);
            At(s, i, Dispatching) && !InTime(ttl, s, i) && n < |s.ds| && s.ds[n].succeeded && MarkLives(ttl, s, n)
  {
    hide Play;
    var s, n := Run(ttl, steps), |Run(ttl, steps).ds|;
    RunKeepsInv(ttl, steps);
    CoherentNow(ttl, s, i);
    EntryExpires(ttl, s);
    var t := Do(ttl, s, Tick(ttl));
    Concat(Next(ttl), START, steps, [Tick(ttl)]);
    One(Next(ttl), s, Tick(ttl));
    ProcessesWhenFree(ttl, t);
    Concat(Next(ttl), START, steps + [Tick(ttl)], ProcessSteps(n));
    var u := Continue(ttl, t, ProcessSteps(n));
    assert u.ds[i] == u.ds[..n][i];
    Concat(Next(ttl), START, steps + [Tick(ttl)] + ProcessSteps(n), [Dispatch(i)]);
    One(Next(ttl), u, Dispatch(i));
  }

  /** The exact condition for exclusion inside dispatch: while delivery i is inside
      dispatch and time passes, the next delivery gets in beside it if and only if
      the claim of i has expired by then. */
  lemma {:induction false} SlowDispatchIsJoinedIff(ttl: nat, steps: seq<Step>, i: nat, seconds: nat)
    requires At(Run(ttl, steps), i, Dispatching) && InTime(ttl, Run(ttl, steps), i)
    ensures var n := |Run(ttl, steps).ds|;
            var s := Run(ttl, steps + [Tick(seconds)] + (ClaimSteps(n) + [Dispatch(n)]));
            At(s, i, Dispatching) && i != n && (At(s, n, Dispatching) <==> !InTime(ttl, s, i))
  {
    hide Play, Inv;
    var s, n := Run(ttl, steps), |Run(ttl, steps).ds|;
    RunKeepsInv(ttl, steps);
    DispatcherOwns(ttl, s, i);
    var t := Do(ttl, s, Tick(seconds));
    Concat(Next(ttl), START, steps, [Tick(seconds)]);
    One(Next(ttl), s, Tick(seconds));
    Concat(Next(ttl), START, steps + [Tick(seconds)], ClaimSteps(n) + [Dispatch(n)]);
    Concat(Next(ttl), t, ClaimSteps(n), [Dispatch(n)]);
    if Live(t.entry, t.now) { RefusedWhenLocked(ttl, t); } else { ClaimsWhenFree(ttl, t); }
    One(Next(ttl), Continue(ttl, t, ClaimSteps(n)), Dispatch(n));
  }

  lemma {:induction false} DispatcherOwns(ttl: nat, s: State, i: nat)
    requires Inv(ttl, s) && At(s, i, Dispatching) && InTime(ttl, s, i)
    ensures s.entry == Locked(i, s.ds[i].claimedAt.value + ttl)
  {
    CoherentNow(ttl, s, i);
    assert Holding(ttl, s, i) && Owns(ttl, s, i);
  }

  /** A delivery that arrives while another holds the lock ends there. */
  lemma {:induction false} RefusedWhenLocked(ttl: nat, s: State)
    requires s.entry.Locked? && Live(s.entry, s.now)
    ensures Continue(ttl, s, ClaimSteps(|s.ds|)) == s.(ds := s.ds + [ARRIVED.(pc := Finished)])
  {
    var n := |s.ds|;
    Three(Next(ttl), s, Arrive, Get(n, Answered), TryLock(n, Answered));
    var t := Do(ttl, s, Arrive);
    assert t.ds[n] == ARRIVED;
    var u := Do(ttl, t, Get(n, Answered));
    assert u == t.(ds := s.ds + [ARRIVED.(pc := Checked)]);
  }

  lemma {:induction false} EntryExpires(ttl: nat, s: State)
    requires Inv(ttl, s)
    ensures !Live(s.entry, s.now + ttl)
  {
  }
}
