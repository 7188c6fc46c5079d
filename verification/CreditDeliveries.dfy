/** Webhook deliveries against the ledger: any number of handler executions, of
    sessions and invoices, interleaved call by call with each other and with other
    ledger calls, each of them cut short at any call; and why a payment is credited
    exactly once all the same. */
module CreditDeliveries {
  import opened Options
  import opened Decimals
  import opened CreditLedger
  import opened CreditHistory
  import opened CreditRedelivery

  /** One delivery of an event to its handler. */
  datatype Job = SessionJob(session: SessionEvent) | InvoiceJob(spec: RecurringSpec, invoice: InvoiceEvent)

  /** The grant calls the handler has to make, in order. */
  function Inputs(job: Job): seq<GrantInput> {
    match job
    case SessionJob(e) =>
      if !Relevant(e) || e.grants == [] || e.subject == "" then [] else SessionInputs(e, |e.grants|)
    case InvoiceJob(spec, e) => if Billable(e) then InvoiceInputs(spec, e, |e.lines|) else []
  }

  /** A session that owes grants to nobody is an error. */
  predicate Refused(job: Job) {
    job.SessionJob? && Relevant(job.session) && job.session.grants != [] && job.session.subject == ""
  }

  /** Which deliveries make calls, and which are refused at once. */
  lemma {:induction false} InputsAre(job: Job)
    ensures job.SessionJob? ==>
              var e := job.session;
              var paid := e.kind in {"checkout.session.completed", "checkout.session.async_payment_succeeded"};
              && Inputs(job) == (if paid && e.subject != "" then SessionInputs(e, |e.grants|) else [])
              && (Refused(job) <==> paid && e.grants != [] && e.subject == "")
    ensures job.InvoiceJob? ==>
              var e := job.invoice;
              var paid := e.kind in {"invoice.paid", "invoice.payment_succeeded"} && e.subscription != ""
                          && (e.subject != "" || e.subscriptionSubject !in {None, Some("")});
              Inputs(job) == (if paid then InvoiceInputs(job.spec, e, |e.lines|) else []) && !Refused(job)
  {
  }

  /** Calls answered so far, and whether the handler is still at it, returned nil
      or returned an error. */
  datatype Stage = Working | ReturnedNil | ReturnedError

  datatype Progress = Progress(made: nat, stage: Stage)

  /** A store call is answered, or fails after or without taking effect. */
  datatype Reply = Answered | Lost(applied: bool) {
    predicate TookEffect() { Answered? || applied }
  }

  function FirstStage(job: Job): Progress {
    Progress(0, if Refused(job) then ReturnedError else if Inputs(job) == [] then ReturnedNil else Working)
  }

  function NextStage(job: Job, p: Progress, reply: Reply): Progress {
    if reply.Lost? then p.(stage := ReturnedError)
    else Progress(p.made + 1, if p.made + 1 == |Inputs(job)| then ReturnedNil else Working)
  }

  datatype History =
    | Opened(at: Instant)
    | Arrived(before: History, job: Job)
    | Called(before: History, d: nat, now: Instant, reply: Reply)
    | Other(before: History, ev: Event, ok: bool, ledger: Ledger)
  {
    function Jobs(): seq<Job> {
      match this
      case Opened(_) => []
      case Arrived(h, job) => h.Jobs() + [job]
      case Called(h, _, _, _) => h.Jobs()
      case Other(h, _, _, _) => h.Jobs()
    }

    /** How far each delivery got. */
    function Stages(): (s: seq<Progress>)
      ensures |s| == |Jobs()|
      decreases this, 0
    {
      match this
      case Opened(_) => []
      case Arrived(h, job) => h.Stages() + [FirstStage(job)]
      case Called(h, d, _, reply) =>
        if h.CanCall(d) then h.Stages()[d := NextStage(h.Jobs()[d], h.Stages()[d], reply)] else h.Stages()
      case Other(h, _, _, _) => h.Stages()
    }

    predicate CanCall(d: nat)
      decreases this, 1
    {
      d < |Jobs()| && d < |Stages()| && Stages()[d].stage == Working && Stages()[d].made < |Inputs(Jobs()[d])|
    }

    /** The call delivery d makes next. */
    function NextCall(d: nat): GrantInput
      requires CanCall(d)
    {
      Inputs(Jobs()[d])[Stages()[d].made]
    }

    /** The calls that took effect, as a run of the ledger from empty. */
    function Ledgers(): Run {
      match this
      case Opened(at) => Start(EMPTY, at)
      case Arrived(h, _) => h.Ledgers()
      case Called(h, d, now, reply) =>
        if h.CanCall(d) && reply.TookEffect()
        then Then(h.Ledgers(), GrantEvent(h.NextCall(d), now), true, AddGrant(h.Ledgers().ledger, h.NextCall(d), now))
        else h.Ledgers()
      case Other(h, ev, ok, l) => Then(h.Ledgers(), ev, ok, l)
    }

    /** Positive amounts, a clock that never goes back, and other calls that do what
        the ledger does. */
    ghost predicate Legal() {
      match this
      case Opened(_) => true
      case Arrived(h, _) => h.Legal()
      case Called(h, d, now, _) =>
        h.Legal() && h.CanCall(d) && h.NextCall(d).amount > 0 && h.Ledgers().Clock() <= now
      case Other(h, ev, ok, l) => h.Legal() && h.Ledgers().Clock() <= ev.now && Step(h.Ledgers().ledger, ev, l, ok)
    }
  }

  lemma {:induction false} LedgersAreLegal(h: History)
    requires h.Legal()
    ensures h.Ledgers().Legal() && h.Ledgers().Origin() == EMPTY
  {
    hide SoundGrants, Step;
    match h
    case Opened(_) => EmptyIsSound();
    case Arrived(b, _) => LedgersAreLegal(b);
    case Called(b, d, now, _) =>
      LedgersAreLegal(b);
      GrantIsStep(b.Ledgers().ledger, b.NextCall(d), now);
    case Other(b, _, _, _) => LedgersAreLegal(b);
  }

  lemma {:induction false} GrantIsStep(l: Ledger, inp: GrantInput, now: Instant)
    requires inp.amount > 0
    ensures Step(l, GrantEvent(inp, now), AddGrant(l, inp, now), true)
  {
  }

  // ------------------------------------------------------- handlers as deliveries

  /** The history in which delivery d, just arrived, has had n calls answered. */
  function Calls(h: History, d: nat, n: nat, clock: nat -> Instant): History {
    if n == 0 then h else Called(Calls(h, d, n - 1, clock), d, clock(n - 1), Answered)
  }

  ghost predicate GoodClock(h: History, n: nat, clock: nat -> Instant) {
    && (forall k :: 0 <= k < n ==> h.Ledgers().Clock() <= clock(k))
    && (forall j, k :: 0 <= j < k < n ==> clock(j) <= clock(k))
  }

  /** The history t is h with this job arrived and its first n calls answered. */
  ghost predicate AfterCalls(t: History, h: History, job: Job, n: nat, clock: nat -> Instant)
    requires n <= |Inputs(job)|
  {
    && t.Legal() && t.Jobs() == h.Jobs() + [job]
    && t.Stages() == h.Stages() + [Progress(n, if n == |Inputs(job)| then ReturnedNil else Working)]
    && t.Ledgers() == Deliver(h.Ledgers(), Inputs(job)[..n], clock)
    && t.Ledgers().Clock() == (if n == 0 then h.Ledgers().Clock() else clock(n - 1))
  }

  lemma {:induction false} StartAlone(h: History, job: Job, clock: nat -> Instant)
    requires h.Legal() && Inputs(job) != [] && !Refused(job)
    ensures AfterCalls(Arrived(h, job), h, job, 0, clock)
  {
    hide Inputs, Refused;
  }

  lemma {:induction false} StepAlone(b: History, h: History, job: Job, n: nat, clock: nat -> Instant)
    requires n < |Inputs(job)| && AfterCalls(b, h, job, n, clock) && Inputs(job)[n].amount > 0
    requires (if n == 0 then h.Ledgers().Clock() else clock(n - 1)) <= clock(n)
    ensures AfterCalls(Called(b, |h.Jobs()|, clock(n), Answered), h, job, n + 1, clock)
  {
    hide Inputs, AddGrant;
    OneCall(b, h.Stages(), job, n, clock(n));
    DeliverOneMore(h.Ledgers(), Inputs(job), n, clock);
  }

  lemma {:induction false} CallsAlone(h: History, job: Job, n: nat, m: nat, clock: nat -> Instant)
    requires h.Legal() && Inputs(job) != [] && !Refused(job) && n <= |Inputs(job)| && n <= m && GoodClock(h, m, clock)
    requires forall inp :: inp in Inputs(job) ==> inp.amount > 0
    ensures AfterCalls(Calls(Arrived(h, job), |h.Jobs()|, n, clock), h, job, n, clock)
  {
    hide Inputs, Refused, AfterCalls;
    if n == 0 {
      StartAlone(h, job, clock);
    } else {
      CallsAlone(h, job, n - 1, m, clock);
      assert Inputs(job)[n - 1] in Inputs(job);
      StepAlone(Calls(Arrived(h, job), |h.Jobs()|, n - 1, clock), h, job, n - 1, clock);
    }
  }

  /** The effect of one answered call of the delivery that arrived last. */
  lemma {:induction false} OneCall(b: History, stages: seq<Progress>, job: Job, made: nat, now: Instant)
    requires b.Legal() && made < |Inputs(job)| && Inputs(job)[made].amount > 0 && b.Ledgers().Clock() <= now
    requires |b.Jobs()| == |stages| + 1 && b.Jobs()[|stages|] == job && b.Stages() == stages + [Progress(made, Working)]
    ensures var t, inp := Called(b, |stages|, now, Answered), Inputs(job)[made];
            && t.Legal() && t.Jobs() == b.Jobs()
            && t.Stages() == stages + [NextStage(job, Progress(made, Working), Answered)]
            && t.Ledgers() == Then(b.Ledgers(), GrantEvent(inp, now), true, AddGrant(b.Ledgers().ledger, inp, now))
  {
    hide Inputs, AddGrant;
  }

  lemma {:induction false} DeliverOneMore(r: Run, inputs: seq<GrantInput>, n: nat, clock: nat -> Instant)
    requires n < |inputs|
    ensures var b := Deliver(r, inputs[..n], clock);
            Deliver(r, inputs[..n + 1], clock) ==
            Then(b, GrantEvent(inputs[n], clock(n)), true, AddGrant(b.ledger, inputs[n], clock(n)))
  {
    hide AddGrant;
    assert inputs[..n + 1][..n] == inputs[..n];
    DeliverLedger(r, inputs[..n], clock);
  }

  lemma {:induction false} DeliverLedger(r: Run, calls: seq<GrantInput>, clock: nat -> Instant)
    ensures Deliver(r, calls, clock).ledger == AddAll(r.ledger, calls, clock)
  {
  }

  /** A handler execution on its own, failing at its (budget + 1)-th call or not, is
      a delivery of this history: it returns nil exactly when it gets through, and
      the ledger runs through exactly the calls that took effect. */
  lemma {:induction false} HandlerIsDelivery(h: History, job: Job, clock: nat -> Instant, budget: nat, applied: bool)
    returns (t: History)
    requires h.Legal() && !Refused(job) && GoodClock(h, |Inputs(job)|, clock)
    requires forall inp :: inp in Inputs(job) ==> inp.amount > 0
    ensures t.Legal() && t.Jobs() == h.Jobs() + [job]
    ensures t.Ledgers() == Deliver(h.Ledgers(), Effective(Inputs(job), budget, applied), clock)
    ensures |t.Stages()| == |h.Stages()| + 1
    ensures t.Stages()[|h.Jobs()|].stage == if |Inputs(job)| <= budget then ReturnedNil else ReturnedError
  {
    hide Inputs, Refused, AddGrant;
    var inputs, d := Inputs(job), |h.Jobs()|;
    if inputs == [] {
      t := Arrived(h, job);
    } else if |inputs| <= budget {
      CallsAlone(h, job, |inputs|, |inputs|, clock);
      t := Calls(Arrived(h, job), d, |inputs|, clock);
      assert inputs[..|inputs|] == inputs;
    } else {
      CallsAlone(h, job, budget, |inputs|, clock);
      var b := Calls(Arrived(h, job), d, budget, clock);
      assert inputs[budget] in inputs;
      assert b.CanCall(d) && b.NextCall(d) == inputs[budget];
      t := Called(b, d, clock(budget), Lost(applied));
      DeliverOneMore(h.Ledgers(), inputs, budget, clock);
    }
  }

  // -------------------------------------------------------- who asked for what

  /** Every call a delivery has had answered has been asked, and a delivery that
      returned nil has had them all answered. */
  ghost predicate Asking(h: History, d: nat)
    requires d < |h.Jobs()|
  {
    var inputs, p := Inputs(h.Jobs()[d]), h.Stages()[d];
    && p.made <= |inputs| && (p.stage == ReturnedNil ==> p.made == |inputs|)
    && forall k :: 0 <= k < p.made ==> Asked(h.Ledgers(), inputs[k].subject, inputs[k].bucket, inputs[k].sourceRef)
  }

  lemma {:induction false} AnsweredIsAsked(h: History, d: nat)
    requires h.Legal() && d < |h.Jobs()|
    ensures Asking(h, d)
  {
    hide Inputs, Refused;
    match h
    case Opened(_) =>
    case Arrived(b, job) => if d < |b.Jobs()| { AnsweredIsAsked(b, d); }
    case Called(b, e, now, reply) => AnsweredIsAsked(b, d);
    case Other(b, _, _, _) => AnsweredIsAsked(b, d);
  }

  /** A session some delivery of which returned nil has had all its calls asked. */
  lemma {:induction false} ReturnedSessionIsCompleted(h: History, d: nat)
    requires h.Legal() && d < |h.Jobs()| && h.Jobs()[d].SessionJob? && h.Stages()[d].stage == ReturnedNil
    requires Relevant(h.Jobs()[d].session) && h.Jobs()[d].session.subject != ""
    ensures SessionCompleted(h.Ledgers(), h.Jobs()[d].session)
  {
    AnsweredIsAsked(h, d);
    var e := h.Jobs()[d].session;
    var inputs := SessionInputs(e, |e.grants|);
    forall inp | inp in inputs ensures Asked(h.Ledgers(), inp.subject, inp.bucket, inp.sourceRef) {
      var k :| 0 <= k < |inputs| && inputs[k] == inp;
    }
  }

  lemma {:induction false} ReturnedInvoiceIsCompleted(h: History, d: nat)
    requires h.Legal() && d < |h.Jobs()| && h.Jobs()[d].InvoiceJob? && h.Stages()[d].stage == ReturnedNil
    requires Billable(h.Jobs()[d].invoice)
    ensures InvoiceCompleted(h.Ledgers(), h.Jobs()[d].spec, h.Jobs()[d].invoice)
  {
    AnsweredIsAsked(h, d);
    var spec, e := h.Jobs()[d].spec, h.Jobs()[d].invoice;
    var inputs := InvoiceInputs(spec, e, |e.lines|);
    forall inp | inp in inputs ensures Asked(h.Ledgers(), inp.subject, inp.bucket, inp.sourceRef) {
      var k :| 0 <= k < |inputs| && inputs[k] == inp;
    }
  }

  // ------------------------------------------------------------ plain subjects

  ghost predicate PlainInput(inp: GrantInput) {
    '|' !in inp.subject && '|' !in inp.bucket
  }

  /** Subjects and buckets of all deliveries and other grants avoid the bar. */
  ghost predicate Plain(h: History) {
    match h
    case Opened(_) => true
    case Arrived(b, job) => Plain(b) && forall inp :: inp in Inputs(job) ==> PlainInput(inp)
    case Called(b, _, _, _) => Plain(b)
    case Other(b, ev, _, _) => Plain(b) && (ev.GrantEvent? ==> PlainInput(ev.gin))
  }

  lemma {:induction false} PlainJob(h: History, d: nat)
    requires Plain(h) && d < |h.Jobs()|
    ensures forall inp :: inp in Inputs(h.Jobs()[d]) ==> PlainInput(inp)
  {
    hide Inputs, PlainInput;
    match h
    case Opened(_) =>
    case Arrived(b, _) => if d < |b.Jobs()| { PlainJob(b, d); }
    case Called(b, _, _, _) => PlainJob(b, d);
    case Other(b, _, _, _) => PlainJob(b, d);
  }

  lemma {:induction false} PlainLedgers(h: History)
    requires Plain(h)
    ensures PlainGrants(h.Ledgers())
  {
    hide Inputs;
    match h
    case Opened(_) =>
    case Arrived(b, _) => PlainLedgers(b);
    case Called(b, d, _, _) =>
      PlainLedgers(b);
      if b.CanCall(d) {
        PlainJob(b, d);
        assert b.NextCall(d) in Inputs(b.Jobs()[d]);
      }
    case Other(b, _, _, _) => PlainLedgers(b);
  }

  // ------------------------------------------------------------------ sessions

  /** The same session, announced by the same or the other event kind. */
  predicate SameSession(e: SessionEvent, f: SessionEvent) {
    e.(kind := f.kind) == f
  }

  /** The payment intent belongs to this session alone: no other session has it, and
      grants from elsewhere are not booked under its refs. */
  ghost predicate OwnIntent(h: History, e: SessionEvent) {
    match h
    case Opened(_) => true
    case Arrived(b, job) =>
      && OwnIntent(b, e)
      && (job.SessionJob? && job.session.paymentIntent == e.paymentIntent ==> SameSession(job.session, e))
    case Called(b, _, _, _) => OwnIntent(b, e)
    case Other(b, ev, _, _) =>
      && OwnIntent(b, e)
      && (ev.GrantEvent? ==> forall i: nat, u: nat :: ev.gin.sourceRef != SessionRef(e.paymentIntent, i, u))
  }

  lemma {:induction false} OwnIntentJob(h: History, e: SessionEvent, d: nat)
    requires OwnIntent(h, e) && d < |h.Jobs()| && h.Jobs()[d].SessionJob?
    requires h.Jobs()[d].session.paymentIntent == e.paymentIntent
    ensures SameSession(h.Jobs()[d].session, e)
  {
    match h
    case Opened(_) =>
    case Arrived(b, _) => if d < |b.Jobs()| { OwnIntentJob(b, e, d); }
    case Called(b, _, _, _) => OwnIntentJob(b, e, d);
    case Other(b, _, _, _) => OwnIntentJob(b, e, d);
  }

  lemma {:induction false} SessionInputForm(e: SessionEvent, k: nat, inp: GrantInput) returns (i: nat, u: nat)
    requires k <= |e.grants| && inp in SessionInputs(e, k)
    ensures i < |e.grants| && u < e.grants[i].Units() && inp == SessionInput(e, i, u)
  {
    hide SessionInput;
    var own := UnitInputs(e, k - 1, e.grants[k - 1].Units());
    if inp in own {
      u :| 0 <= u < |own| && own[u] == inp;
      i := k - 1;
    } else {
      i, u := SessionInputForm(e, k - 1, inp);
    }
  }

  lemma {:induction false} InvoiceInputForm(spec: RecurringSpec, e: InvoiceEvent, n: nat, inp: GrantInput)
    returns (k: nat)
    requires n <= |e.lines| && inp in InvoiceInputs(spec, e, n)
    ensures k < |e.lines| && LineProduct(spec, e.lines[k]).Some?
    ensures var product := LineProduct(spec, e.lines[k]).value;
            inp == InvoiceInput(e, product, spec.products[product].value)
  {
    hide InvoiceInput;
    InvoiceLine(spec, e, n - 1);
    if inp in InvoiceInputs(spec, e, n - 1) {
      k := InvoiceInputForm(spec, e, n - 1, inp);
    } else {
      k := n - 1;
    }
  }

  /** A delivery asks under this session's refs only for what the session owes. */
  lemma {:induction false} SessionCallOwes(h: History, e: SessionEvent, d: nat, i: nat, u: nat)
    requires OwnIntent(h, e) && !("invoice" <= e.paymentIntent)
    requires h.CanCall(d) && h.NextCall(d).sourceRef == SessionRef(e.paymentIntent, i, u)
    ensures i < |e.grants| && u < e.grants[i].Units() && h.NextCall(d) == SessionInput(e, i, u)
  {
    hide SessionRef, InvoiceRef;
    var job, inp := h.Jobs()[d], h.NextCall(d);
    assert inp in Inputs(job);
    match job
    case SessionJob(f) =>
      var j, w := SessionInputForm(f, |f.grants|, inp);
      SessionRefUnique(f.paymentIntent, j, w, e.paymentIntent, i, u);
      OwnIntentJob(h, e, d);
    case InvoiceJob(spec, f) =>
      var k := InvoiceInputForm(spec, f, |f.lines|, inp);
      SessionRefIsNotInvoiceRef(e.paymentIntent, i, u, f.id, LineProduct(spec, f.lines[k]).value);
  }

  /** A grant under a ref of the session is one the session owes. */
  ghost predicate SessionOwes(e: SessionEvent, g: Grant) {
    forall i: nat, u: nat :: g.sourceRef == SessionRef(e.paymentIntent, i, u) ==>
      && i < |e.grants| && u < (if e.grants[i].quantity <= 0 then 1 else e.grants[i].quantity)
      && Books(SessionInput(e, i, u), g)
  }

  lemma {:induction false} SessionAsksOwed(h: History, e: SessionEvent, g: Grant)
    requires OwnIntent(h, e) && !("invoice" <= e.paymentIntent) && WasAsked(h.Ledgers(), g)
    ensures SessionOwes(e, g)
  {
    hide Inputs, SessionRef, SessionInput;
    match h
    case Opened(_) =>
    case Arrived(b, _) => SessionAsksOwed(b, e, g);
    case Called(b, d, _, _) =>
      if WasAsked(b.Ledgers(), g) {
        SessionAsksOwed(b, e, g);
      } else {
        forall i: nat, u: nat | g.sourceRef == SessionRef(e.paymentIntent, i, u)
          ensures i < |e.grants| && u < e.grants[i].Units() && Books(SessionInput(e, i, u), g)
        {
          SessionCallOwes(b, e, d, i, u);
        }
      }
    case Other(b, _, _, _) => if WasAsked(b.Ledgers(), g) { SessionAsksOwed(b, e, g); }
  }

  /** No more than is owed, at any point of any history: whatever subject or bucket
      it is on, a grant under a ref of the session is one the session owes, for its
      subject, in its bucket, of its amount and validity. */
  lemma {:induction false} SessionNothingElse(h: History, e: SessionEvent)
    requires h.Legal() && OwnIntent(h, e) && !("invoice" <= e.paymentIntent)
    ensures forall s, k :: 0 <= k < |Of(h.Ledgers().ledger.grants, s)| ==>
              SessionOwes(e, Of(h.Ledgers().ledger.grants, s)[k]) && Of(h.Ledgers().ledger.grants, s)[k].subject == s
  {
    hide SessionOwes;
    LedgersAreLegal(h);
    var l := h.Ledgers().ledger;
    forall s, k | 0 <= k < |Of(l.grants, s)|
      ensures SessionOwes(e, Of(l.grants, s)[k]) && Of(l.grants, s)[k].subject == s
    {
      RowsWereAsked(h.Ledgers(), s, k);
      SessionAsksOwed(h, e, Of(l.grants, s)[k]);
    }
  }

  /** So every grant call under a ref of the session asks for the amount it owes. */
  lemma {:induction false} SessionAlwaysAsks(h: History, e: SessionEvent, i: nat, u: nat)
    requires OwnIntent(h, e) && !("invoice" <= e.paymentIntent) && i < |e.grants|
    ensures AlwaysAsks(h.Ledgers(), e.subject, SessionRef(e.paymentIntent, i, u), e.grants[i].amount)
  {
    hide Inputs, SessionRef;
    match h
    case Opened(_) =>
    case Arrived(b, _) => SessionAlwaysAsks(b, e, i, u);
    case Called(b, d, _, _) =>
      SessionAlwaysAsks(b, e, i, u);
      if b.CanCall(d) && b.NextCall(d).sourceRef == SessionRef(e.paymentIntent, i, u) {
        SessionCallOwes(b, e, d, i, u);
      }
    case Other(b, _, _, _) => SessionAlwaysAsks(b, e, i, u);
  }

  /** Exactly-once crediting of a session: whatever deliveries, failures, retries
      and other ledger calls the history interleaves, once some delivery of the
      session has returned nil each pending grant has been credited quantity times
      amount, by exactly one grant per unit, and no other grant of the whole ledger
      carries a ref of the session. */
  lemma {:induction false} SessionCreditedOnce(h: History, d: nat, i: nat)
    requires h.Legal() && Plain(h) && d < |h.Jobs()| && h.Jobs()[d].SessionJob?
    requires h.Jobs()[d].session.kind == "checkout.session.completed"
             || h.Jobs()[d].session.kind == "checkout.session.async_payment_succeeded"
    requires h.Stages()[d].stage == ReturnedNil
    requires OwnIntent(h, h.Jobs()[d].session) && !("invoice" <= h.Jobs()[d].session.paymentIntent)
    requires i < |h.Jobs()[d].session.grants|
    ensures var e, gs := h.Jobs()[d].session, Of(h.Ledgers().ledger.grants, h.Jobs()[d].session.subject);
            var quantity := if e.grants[i].quantity <= 0 then 1 else e.grants[i].quantity;
            && UnitsCredited(gs, e, i, quantity) == quantity * e.grants[i].amount
            && forall u :: 0 <= u < quantity ==>
                 CountFor(gs, e.grants[i].bucket, SessionRef(e.paymentIntent, i, u)) == 1
    ensures forall s, k :: 0 <= k < |Of(h.Ledgers().ledger.grants, s)| ==>
              && SessionOwes(h.Jobs()[d].session, Of(h.Ledgers().ledger.grants, s)[k])
              && Of(h.Ledgers().ledger.grants, s)[k].subject == s
  {
    hide SessionRef, CountFor, UnitsCredited, SessionOwes;
    var e := h.Jobs()[d].session;
    SessionNothingElse(h, e);
    ReturnedHasSubject(h, d);
    LedgersAreLegal(h);
    PlainLedgers(h);
    PlainJob(h, d);
    SessionCovers(e, |e.grants|, i, 0);
    assert PlainInput(SessionInput(e, i, 0));
    ReturnedSessionIsCompleted(h, d);
    forall u | 0 <= u < e.grants[i].Units()
      ensures AlwaysAsks(h.Ledgers(), e.subject, SessionRef(e.paymentIntent, i, u), e.grants[i].amount)
    {
      SessionAlwaysAsks(h, e, i, u);
    }
    CompletedSessionIsCredited(h.Ledgers(), e, i);
  }

  /** A session that owes grants and has no subject never returns nil. */
  lemma {:induction false} ReturnedHasSubject(h: History, d: nat)
    requires d < |h.Jobs()| && h.Stages()[d].stage == ReturnedNil
    ensures !Refused(h.Jobs()[d])
  {
    hide Inputs, Refused;
    match h
    case Opened(_) =>
    case Arrived(b, _) => if d < |b.Jobs()| { ReturnedHasSubject(b, d); }
    case Called(b, e, _, _) =>
      if e != d || !b.CanCall(d) { ReturnedHasSubject(b, d); } else { WorkingIsNotRefused(b, d); }
    case Other(b, _, _, _) => ReturnedHasSubject(b, d);
  }

  lemma {:induction false} WorkingIsNotRefused(h: History, d: nat)
    requires d < |h.Jobs()| && h.Stages()[d].stage == Working
    ensures !Refused(h.Jobs()[d])
  {
    hide Inputs, Refused;
    match h
    case Opened(_) =>
    case Arrived(b, _) => if d < |b.Jobs()| { WorkingIsNotRefused(b, d); }
    case Called(b, e, _, _) => WorkingIsNotRefused(b, d);
    case Other(b, _, _, _) => WorkingIsNotRefused(b, d);
  }

  // ------------------------------------------------------------------ invoices

  /** The same invoice, announced as paid or as payment succeeded. */
  predicate SameInvoice(e: InvoiceEvent, f: InvoiceEvent) {
    e.(kind := f.kind) == f
  }

  /** The invoice id belongs to this invoice alone, under one catalog; sessions have
      ordinary payment intents, product keys have no colon, and grants from elsewhere
      are not booked under its refs. */
  ghost predicate OwnInvoice(h: History, spec: RecurringSpec, e: InvoiceEvent) {
    match h
    case Opened(_) => true
    case Arrived(b, job) => OwnInvoice(b, spec, e) && InvoiceNeighbour(spec, e, job)
    case Called(b, _, _, _) => OwnInvoice(b, spec, e)
    case Other(b, ev, _, _) =>
      OwnInvoice(b, spec, e) && (ev.GrantEvent? ==> forall k :: ev.gin.sourceRef != InvoiceRef(e.id, k))
  }

  ghost predicate InvoiceNeighbour(spec: RecurringSpec, e: InvoiceEvent, job: Job) {
    match job
    case SessionJob(f) => !("invoice" <= f.paymentIntent)
    case InvoiceJob(other, f) =>
      && (forall k :: k in other.products ==> ':' !in k)
      && (f.id == e.id ==> other == spec && SameInvoice(f, e))
  }

  lemma {:induction false} OwnInvoiceJob(h: History, spec: RecurringSpec, e: InvoiceEvent, d: nat)
    requires OwnInvoice(h, spec, e) && d < |h.Jobs()|
    ensures InvoiceNeighbour(spec, e, h.Jobs()[d])
  {
    hide InvoiceNeighbour;
    match h
    case Opened(_) =>
    case Arrived(b, _) => if d < |b.Jobs()| { OwnInvoiceJob(b, spec, e, d); }
    case Called(b, _, _, _) => OwnInvoiceJob(b, spec, e, d);
    case Other(b, _, _, _) => OwnInvoiceJob(b, spec, e, d);
  }

  /** The product of some line of the invoice, with the grant it asks for. */
  ghost predicate OnInvoice(spec: RecurringSpec, e: InvoiceEvent, product: string) {
    exists k :: 0 <= k < |e.lines| && LineProduct(spec, e.lines[k]) == Some(product)
  }

  lemma {:induction false} InvoiceCallOwes(h: History, spec: RecurringSpec, e: InvoiceEvent, d: nat, product: string)
    requires OwnInvoice(h, spec, e) && ':' !in product
    requires h.CanCall(d) && h.NextCall(d).sourceRef == InvoiceRef(e.id, product)
    ensures OnInvoice(spec, e, product) && product in spec.products && spec.products[product].Some?
    ensures h.NextCall(d) == InvoiceInput(e, product, spec.products[product].value)
  {
    hide SessionRef, InvoiceRef;
    var job, inp := h.Jobs()[d], h.NextCall(d);
    assert inp in Inputs(job);
    OwnInvoiceJob(h, spec, e, d);
    match job
    case SessionJob(f) =>
      var j, w := SessionInputForm(f, |f.grants|, inp);
      SessionRefIsNotInvoiceRef(f.paymentIntent, j, w, e.id, product);
    case InvoiceJob(other, f) =>
      var k := InvoiceInputForm(other, f, |f.lines|, inp);
      InvoiceRefUnique(f.id, LineProduct(other, f.lines[k]).value, e.id, product);
  }

  /** A grant under a ref of the invoice is the one a product on its lines gets. */
  ghost predicate InvoiceOwes(spec: RecurringSpec, e: InvoiceEvent, g: Grant) {
    forall product :: ':' !in product && g.sourceRef == InvoiceRef(e.id, product) ==>
      && OnInvoice(spec, e, product) && product in spec.products && spec.products[product].Some?
      && Books(InvoiceInput(e, product, spec.products[product].value), g)
  }

  lemma {:induction false} InvoiceAsksOwed(h: History, spec: RecurringSpec, e: InvoiceEvent, g: Grant)
    requires OwnInvoice(h, spec, e) && WasAsked(h.Ledgers(), g)
    ensures InvoiceOwes(spec, e, g)
  {
    hide Inputs, InvoiceRef, InvoiceInput, OnInvoice;
    match h
    case Opened(_) =>
    case Arrived(b, _) => InvoiceAsksOwed(b, spec, e, g);
    case Called(b, d, _, _) =>
      if WasAsked(b.Ledgers(), g) {
        InvoiceAsksOwed(b, spec, e, g);
      } else {
        forall product | ':' !in product && g.sourceRef == InvoiceRef(e.id, product)
          ensures OnInvoice(spec, e, product) && product in spec.products && spec.products[product].Some?
          ensures Books(InvoiceInput(e, product, spec.products[product].value), g)
        {
          InvoiceCallOwes(b, spec, e, d, product);
        }
      }
    case Other(b, _, _, _) => if WasAsked(b.Ledgers(), g) { InvoiceAsksOwed(b, spec, e, g); }
  }

  /** No more than is owed, at any point of any history. */
  lemma {:induction false} InvoiceNothingElse(h: History, spec: RecurringSpec, e: InvoiceEvent)
    requires h.Legal() && OwnInvoice(h, spec, e)
    ensures forall s, k :: 0 <= k < |Of(h.Ledgers().ledger.grants, s)| ==>
              && InvoiceOwes(spec, e, Of(h.Ledgers().ledger.grants, s)[k])
              && Of(h.Ledgers().ledger.grants, s)[k].subject == s
  {
    hide InvoiceOwes;
    LedgersAreLegal(h);
    var l := h.Ledgers().ledger;
    forall s, k | 0 <= k < |Of(l.grants, s)|
      ensures InvoiceOwes(spec, e, Of(l.grants, s)[k]) && Of(l.grants, s)[k].subject == s
    {
      RowsWereAsked(h.Ledgers(), s, k);
      InvoiceAsksOwed(h, spec, e, Of(l.grants, s)[k]);
    }
  }

  lemma {:induction false} InvoiceAlwaysAsks(h: History, spec: RecurringSpec, e: InvoiceEvent, product: string)
    requires OwnInvoice(h, spec, e) && product in spec.products && spec.products[product].Some? && ':' !in product
    ensures AlwaysAsks(h.Ledgers(), e.Subject(), InvoiceRef(e.id, product), spec.products[product].value.amount)
  {
    hide Inputs, InvoiceRef;
    match h
    case Opened(_) =>
    case Arrived(b, _) => InvoiceAlwaysAsks(b, spec, e, product);
    case Called(b, d, _, _) =>
      InvoiceAlwaysAsks(b, spec, e, product);
      if b.CanCall(d) && b.NextCall(d).sourceRef == InvoiceRef(e.id, product) {
        InvoiceCallOwes(b, spec, e, d, product);
      }
    case Other(b, _, _, _) => InvoiceAlwaysAsks(b, spec, e, product);
  }

  /** Exactly-once crediting of an invoice: announced as invoice.paid, as
      invoice.payment_succeeded or as both, any number of times, once some delivery
      of it has returned nil each product with a recurring grant has exactly one
      grant, of its amount, however many lines name it, and no other grant of the
      whole ledger carries a ref of the invoice. */
  lemma {:induction false} InvoiceCreditedOnce(h: History, d: nat, k: nat)
    requires h.Legal() && Plain(h) && d < |h.Jobs()| && h.Jobs()[d].InvoiceJob?
    requires h.Jobs()[d].invoice.kind == "invoice.paid" || h.Jobs()[d].invoice.kind == "invoice.payment_succeeded"
    requires h.Jobs()[d].invoice.subscription != "" && h.Jobs()[d].invoice.Subject() != ""
    requires h.Stages()[d].stage == ReturnedNil
    requires OwnInvoice(h, h.Jobs()[d].spec, h.Jobs()[d].invoice)
    requires k < |h.Jobs()[d].invoice.lines| && LineProduct(h.Jobs()[d].spec, h.Jobs()[d].invoice.lines[k]).Some?
    ensures var spec, e := h.Jobs()[d].spec, h.Jobs()[d].invoice;
            var product, gs := LineProduct(spec, e.lines[k]).value, Of(h.Ledgers().ledger.grants, e.Subject());
            var rg := spec.products[product].value;
            && CountFor(gs, rg.bucket, InvoiceRef(e.id, product)) == 1
            && CreditedFor(gs, rg.bucket, InvoiceRef(e.id, product)) == rg.amount
    ensures forall s, n :: 0 <= n < |Of(h.Ledgers().ledger.grants, s)| ==>
              && InvoiceOwes(h.Jobs()[d].spec, h.Jobs()[d].invoice, Of(h.Ledgers().ledger.grants, s)[n])
              && Of(h.Ledgers().ledger.grants, s)[n].subject == s
  {
    hide InvoiceRef, CountFor, CreditedFor, InvoiceOwes;
    var spec, e := h.Jobs()[d].spec, h.Jobs()[d].invoice;
    InvoiceNothingElse(h, spec, e);
    var product := LineProduct(spec, e.lines[k]).value;
    LedgersAreLegal(h);
    PlainLedgers(h);
    PlainJob(h, d);
    InvoiceCovers(spec, e, |e.lines|, k);
    assert PlainInput(InvoiceInput(e, product, spec.products[product].value));
    ReturnedInvoiceIsCompleted(h, d);
    OwnInvoiceJob(h, spec, e, d);
    InvoiceAlwaysAsks(h, spec, e, product);
    CompletedInvoiceIsCredited(h.Ledgers(), spec, e, k);
  }
}
