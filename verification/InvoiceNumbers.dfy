/** Gapless invoice numbers: per-prefix counters, the life of a number, and the
    allocation around the Stripe call that creates a draft. */
module InvoiceNumbers {
  import opened Options
  import opened Decimals

  // ---------------------------------------------------------------- numerals

  const MILLION: nat := 1000000

  function Zeros(k: nat): string {
    seq(k, _ => '0')
  }

  /** %06d */
  function Padded(n: nat): (s: string)
    ensures |s| >= 6 && AllDigits(s)
  {
    var d := Decimal(n);
    if |d| >= 6 then d else Zeros(6 - |d|) + d
  }

  /** The number a prefix and a counter stand for. */
  function Number(prefix: string, counter: nat): string {
    prefix + Padded(counter)
  }

  lemma {:induction false} ValueOfZeros(k: nat)
    ensures AllDigits(Zeros(k)) && Value(Zeros(k)) == 0
  {
    if k > 0 {
      ValueOfZeros(k - 1);
      assert Zeros(k)[..k - 1] == Zeros(k - 1);
    }
  }

  lemma {:induction false} ValuePadded(k: nat, s: string)
    requires AllDigits(s)
    ensures AllDigits(Zeros(k) + s) && Value(Zeros(k) + s) == Value(s)
  {
    ValueOfZeros(k);
    if s == "" {
      assert Zeros(k) + s == Zeros(k);
    } else {
      ValuePadded(k, s[..|s| - 1]);
      assert (Zeros(k) + s)[..|Zeros(k) + s| - 1] == Zeros(k) + s[..|s| - 1];
    }
  }

  /** A padded numeral still reads as its number. */
  lemma {:induction false} PaddedReads(n: nat)
    ensures Value(Padded(n)) == n
  {
    ValueOfDecimal(n);
    var d := Decimal(n);
    if |d| < 6 { ValuePadded(6 - |d|, d); }
  }

  function Power10(k: nat): nat {
    if k == 0 then 1 else 10 * Power10(k - 1)
  }

  lemma {:induction false} DecimalIsShort(n: nat, k: nat)
    requires k > 0 && n < Power10(k)
    ensures |Decimal(n)| <= k
  {
    if k > 1 && n >= 10 {
      assert n / 10 < Power10(k - 1);
      DecimalIsShort(n / 10, k - 1);
    }
  }

  /** Only a counter that has reached a million prints in more than six digits. */
  lemma {:induction false} LongMeansMillion(n: nat)
    requires |Padded(n)| > 6
    ensures n >= MILLION
  {
    if n < MILLION {
      assert Power10(1) == 10 && Power10(2) == 100 && Power10(3) == 1000;
      assert Power10(4) == 10000 && Power10(5) == 100000 && Power10(6) == MILLION;
      DecimalIsShort(n, 6);
    }
  }

  /** Different (prefix, counter) pairs share a number exactly when the longer
      prefix is the shorter one followed by leading digits of a counter that has
      outgrown the padding. */
  predicate Clash(p: string, c: nat, q: string, d: nat) {
    |p| < |q| && p == q[..|p|] && c >= MILLION && Padded(c) == q[|p|..] + Padded(d)
  }

  lemma {:induction false} SameNumber(p: string, c: nat, q: string, d: nat)
    ensures Number(p, c) == Number(q, d) <==> (p == q && c == d) || Clash(p, c, q, d) || Clash(q, d, p, c)
  {
    hide Clash, Padded, Number;
    if Number(p, c) == Number(q, d) {
      if |p| == |q| {
        SamePrefix(p, c, q, d);
      } else if |p| < |q| {
        ClashOf(p, c, q, d);
      } else {
        ClashOf(q, d, p, c);
      }
    }
    if Clash(p, c, q, d) { ClashGivesSame(p, c, q, d); }
    if Clash(q, d, p, c) { ClashGivesSame(q, d, p, c); }
  }

  lemma {:induction false} SamePrefix(p: string, c: nat, q: string, d: nat)
    requires Number(p, c) == Number(q, d) && |p| == |q|
    ensures p == q && c == d
  {
    hide Padded;
    assert Number(p, c)[..|p|] == p && Number(q, d)[..|q|] == q;
    assert Number(p, c)[|p|..] == Padded(c) && Number(q, d)[|q|..] == Padded(d);
    PaddedReads(c);
    PaddedReads(d);
  }

  lemma {:induction false} ClashGivesSame(p: string, c: nat, q: string, d: nat)
    requires Clash(p, c, q, d)
    ensures Number(p, c) == Number(q, d)
  {
    hide Padded;
    assert Number(q, d) == q[..|p|] + (q[|p|..] + Padded(d));
  }

  lemma {:induction false} ClashOf(p: string, c: nat, q: string, d: nat)
    requires Number(p, c) == Number(q, d) && |p| < |q|
    ensures Clash(p, c, q, d)
  {
    var n := Number(p, c);
    assert n[..|p|] == p && n[..|q|] == q && q[..|p|] == n[..|p|];
    assert n[|p|..] == Padded(c);
    assert n[|p|..] == q[|p|..] + Padded(d);
    LongMeansMillion(c);
  }

  /** Numbers are distinct while counters stay below a million, and for prefixes
      that end in a non-digit always. */
  lemma {:induction false} ClashNeedsDigit(p: string, c: nat, q: string, d: nat)
    requires Clash(p, c, q, d)
    ensures c >= MILLION && IsDigit(q[|q| - 1])
  {
    assert Padded(c)[|q| - |p| - 1] == q[|q| - 1];
  }

  // -------------------------------------------------------------- the ledger

  datatype Status = Issued | Used(stripeId: string) | Voided(reason: string)

  datatype Error = NumberNotIssued | NumberAlreadyResolved | LedgerUnavailable

  /** Last counter per prefix, and the status of every number on record. */
  datatype Book = Book(last: map<string, nat>, status: map<string, Status>)

  const EMPTY := Book(map[], map[])

  function Last(b: Book, prefix: string): nat {
    if prefix in b.last then b.last[prefix] else 0
  }

  function NextNumber(b: Book, prefix: string): string {
    Number(prefix, Last(b, prefix) + 1)
  }

  function AfterNext(b: Book, prefix: string): Book {
    Book(b.last[prefix := Last(b, prefix) + 1], b.status[NextNumber(b, prefix) := Issued])
  }

  /** What marking a number answers, and the status it leaves. */
  function UsedError(b: Book, number: string, stripeId: string): Option<Error> {
    if number !in b.status then Some(NumberNotIssued)
    else if b.status[number] == Issued || b.status[number] == Used(stripeId) then None
    else Some(NumberAlreadyResolved)
  }

  function AfterUsed(b: Book, number: string, stripeId: string): Book {
    if number in b.status && b.status[number].Issued? then b.(status := b.status[number := Used(stripeId)]) else b
  }

  function VoidedError(b: Book, number: string): Option<Error> {
    if number !in b.status then Some(NumberNotIssued)
    else if b.status[number].Used? then Some(NumberAlreadyResolved)
    else None
  }

  function AfterVoided(b: Book, number: string, reason: string): Book {
    if number in b.status && b.status[number].Issued? then b.(status := b.status[number := Voided(reason)]) else b
  }

  /** MarkUsed answers nil exactly when the number ends up used under this id. */
  lemma {:induction false} MarkUsedExact(b: Book, number: string, stripeId: string)
    ensures UsedError(b, number, stripeId).None? <==>
              && number in AfterUsed(b, number, stripeId).status
              && AfterUsed(b, number, stripeId).status[number] == Used(stripeId)
    ensures UsedError(b, number, stripeId).Some? ==> AfterUsed(b, number, stripeId) == b
    ensures UsedError(b, number, stripeId) == Some(NumberNotIssued) <==> number !in b.status
    ensures UsedError(b, number, stripeId) == Some(NumberAlreadyResolved) <==>
              number in b.status && b.status[number] != Issued && b.status[number] != Used(stripeId)
    ensures forall n :: n in b.status && n != number ==> AfterUsed(b, number, stripeId).status[n] == b.status[n]
  {
  }

  /** MarkVoided answers nil exactly when the number ends up voided; the first
      reason stays. */
  lemma {:induction false} MarkVoidedExact(b: Book, number: string, reason: string)
    ensures VoidedError(b, number).None? <==>
              number in AfterVoided(b, number, reason).status && AfterVoided(b, number, reason).status[number].Voided?
    ensures VoidedError(b, number).Some? ==> AfterVoided(b, number, reason) == b
    ensures VoidedError(b, number) == Some(NumberNotIssued) <==> number !in b.status
    ensures VoidedError(b, number) == Some(NumberAlreadyResolved) <==> number in b.status && b.status[number].Used?
    ensures forall n :: n in b.status && n != number ==> AfterVoided(b, number, reason).status[n] == b.status[n]
    ensures number in b.status && b.status[number].Voided? ==> AfterVoided(b, number, reason) == b
    ensures number in b.status && b.status[number].Issued? ==>
              AfterVoided(b, number, reason).status[number] == Voided(reason)
  {
  }

  class MemoryNumberRepo {
    var last: map<string, nat>
    var status: map<string, Status>

    function Contents(): Book
      reads this
    {
      Book(last, status)
    }

    constructor ()
      ensures Contents() == EMPTY
    {
      last, status := map[], map[];
    }

    method Next(prefix: string) returns (number: string)
      modifies this
      ensures number == NextNumber(old(Contents()), prefix)
      ensures Contents() == AfterNext(old(Contents()), prefix)
    {
      last := last[prefix := (if prefix in last then last[prefix] else 0) + 1];
      number := Number(prefix, last[prefix]);
      status := status[number := Issued];
    }

    method MarkUsed(number: string, stripeId: string) returns (err: Option<Error>)
      modifies this
      ensures err == UsedError(old(Contents()), number, stripeId)
      ensures Contents() == AfterUsed(old(Contents()), number, stripeId)
    {
      if number !in status { return Some(NumberNotIssued); }
      match status[number]
      case Issued =>
        status := status[number := Used(stripeId)];
        return None;
      case Used(id) =>
        return if id == stripeId then None else Some(NumberAlreadyResolved);
      case Voided(_) =>
        return Some(NumberAlreadyResolved);
    }

    method MarkVoided(number: string, reason: string) returns (err: Option<Error>)
      modifies this
      ensures err == VoidedError(old(Contents()), number)
      ensures Contents() == AfterVoided(old(Contents()), number, reason)
    {
      if number !in status { return Some(NumberNotIssued); }
      match status[number]
      case Issued =>
        status := status[number := Voided(reason)];
        return None;
      case Used(_) =>
        return Some(NumberAlreadyResolved);
      case Voided(_) =>
        return None;
    }
  }

  // ------------------------------------------------------------------ drafts

  datatype LineItem = LineItem(amount: int, currency: string)

  datatype CreateInput = CreateInput(
    customer: string, lineItems: seq<LineItem>, numberOverride: string, numberPrefix: string)

  predicate ValidLine(li: LineItem) {
    li.amount > 0 && li.currency != ""
  }

  predicate ValidInput(inp: CreateInput) {
    && inp.customer != "" && inp.lineItems != []
    && forall i :: 0 <= i < |inp.lineItems| ==> ValidLine(inp.lineItems[i])
  }

  datatype StripeReply = Created(stripeId: string) | Rejected(message: string)

  /** The ledger answers, or is unavailable, after or without taking effect. */
  datatype Outage = Works | Down(applied: bool) {
    predicate TookEffect() { Works? || applied }
  }

  const VOID_FAILED := "void_failed_after_stripe_error"
  const USED_FAILED := "used_failed_after_stripe_success"
  const VOID_REASON := "stripe CreateDraft failed: "

  datatype OrphanInfo = OrphanInfo(number: string, reason: string, stripeId: string)

  datatype DraftResult = Draft(stripeId: string) | InvalidInput | NoNumber | StripeError | LedgerError(stripeId: string)

  /** The ledger after a call to Next. */
  function AfterDraw(b: Book, prefix: string, outage: Outage): Book {
    if outage.TookEffect() then AfterNext(b, prefix) else b
  }

  /** The ledger after MarkUsed or MarkVoided, as Stripe's answer demands. */
  function AfterResolve(b: Book, number: string, reply: StripeReply, outage: Outage): Book {
    if !outage.TookEffect() then b
    else match reply
         case Created(id) => AfterUsed(b, number, id)
         case Rejected(m) => AfterVoided(b, number, VOID_REASON + m)
  }

  function ResolveError(b: Book, number: string, reply: StripeReply, outage: Outage): Option<Error> {
    if outage.Down? then Some(LedgerUnavailable)
    else match reply
         case Created(id) => UsedError(b, number, id)
         case Rejected(_) => VoidedError(b, number)
  }

  /** What the orphan hook is told when the ledger did not answer nil. */
  function OrphanOf(number: string, reply: StripeReply): OrphanInfo {
    match reply
    case Created(id) => OrphanInfo(number, USED_FAILED, id)
    case Rejected(_) => OrphanInfo(number, VOID_FAILED, "")
  }

  /** What becomes of a fresh number: resolved as Stripe answered when the mark
      took effect, still issued otherwise; the ledger's answer is nil exactly when
      it works. */
  lemma {:induction false} DraftResolves(b: Book, p: string, reply: StripeReply, marking: Outage)
    ensures var number := NextNumber(b, p);
            var t := AfterResolve(AfterNext(b, p), number, reply, marking);
            && number in t.status
            && t.status[number] == (if !marking.TookEffect() then Issued
                                    else match reply
                                         case Created(id) => Used(id)
                                         case Rejected(m) => Voided("stripe CreateDraft failed: " + m))
            && (ResolveError(AfterNext(b, p), number, reply, marking).None? <==> marking.Works?)
            && OrphanOf(number, reply) ==
                 match reply
                 case Created(id) => OrphanInfo(number, "used_failed_after_stripe_success", id)
                 case Rejected(_) => OrphanInfo(number, "void_failed_after_stripe_error", "")
  {
    hide Number;
  }

  lemma {:induction false} FreshMarkIsAnswered(b: Book, p: string, reply: StripeReply, marking: Outage)
    ensures ResolveError(AfterNext(b, p), NextNumber(b, p), reply, marking).None? <==> marking.Works?
  {
    hide Number;
    DraftResolves(b, p, reply, marking);
  }

  /** The draw of a draft. */
  method DrawNumber(repo: MemoryNumberRepo, prefix: string, outage: Outage) returns (number: Option<string>)
    modifies repo
    ensures repo.Contents() == AfterDraw(old(repo.Contents()), prefix, outage)
    ensures number == if outage.Works? then Some(NextNumber(old(repo.Contents()), prefix)) else None
  {
    number := None;
    if outage.TookEffect() {
      var drawn := repo.Next(prefix);
      if outage.Works? { number := Some(drawn); }
    }
  }

  /** The mark of a draft once Stripe has answered, with the report if it fails. */
  method ResolveNumber(repo: MemoryNumberRepo, number: string, reply: StripeReply, outage: Outage)
    returns (orphan: Option<OrphanInfo>)
    modifies repo
    ensures repo.Contents() == AfterResolve(old(repo.Contents()), number, reply, outage)
    ensures orphan == if ResolveError(old(repo.Contents()), number, reply, outage).None? then None
                      else Some(OrphanOf(number, reply))
  {
    var err := Some(LedgerUnavailable);
    if outage.TookEffect() {
      var answer;
      match reply {
        case Created(id) => answer := repo.MarkUsed(number, id);
        case Rejected(m) => answer := repo.MarkVoided(number, VOID_REASON + m);
      }
      if outage.Works? { err := answer; }
    }
    orphan := if err.None? then None else Some(OrphanOf(number, reply));
  }

  /** CreateDraft with nobody else at the ledger: the draw, Stripe's answer, the
      mark. */
  method CreateDraft(repo: MemoryNumberRepo, inp: CreateInput, drawing: Outage, reply: StripeReply, marking: Outage)
    returns (r: DraftResult, orphan: Option<OrphanInfo>)
    modifies repo
    ensures var b := old(repo.Contents());
            repo.Contents() ==
              if !ValidInput(inp) || inp.numberOverride != "" then b
              else if drawing.Down? then AfterDraw(b, inp.numberPrefix, drawing)
              else AfterResolve(AfterNext(b, inp.numberPrefix), NextNumber(b, inp.numberPrefix), reply, marking)
    ensures orphan == if ValidInput(inp) && inp.numberOverride == "" && drawing.Works? && marking.Down?
                      then Some(OrphanOf(NextNumber(old(repo.Contents()), inp.numberPrefix), reply)) else None
    ensures r.InvalidInput? <==>
              || inp.customer == "" || inp.lineItems == []
              || exists i :: 0 <= i < |inp.lineItems|
                             && (inp.lineItems[i].amount <= 0 || inp.lineItems[i].currency == "")
    ensures r.NoNumber? <==> !r.InvalidInput? && inp.numberOverride == "" && drawing.Down?
    ensures r.StripeError? <==> !r.InvalidInput? && !r.NoNumber? && reply.Rejected?
    ensures r.LedgerError? <==>
              !r.InvalidInput? && inp.numberOverride == "" && drawing.Works? && reply.Created? && marking.Down?
    ensures r.Draft? || r.LedgerError? ==> reply == Created(r.stripeId)
  {
    hide Number;
    if inp.customer == "" { return InvalidInput, None; }
    if inp.lineItems == [] { return InvalidInput, None; }
    for i := 0 to |inp.lineItems|
      invariant forall k :: 0 <= k < i ==> ValidLine(inp.lineItems[k])
    {
      if inp.lineItems[i].amount <= 0 { return InvalidInput, None; }
      if inp.lineItems[i].currency == "" { return InvalidInput, None; }
    }
    orphan := None;
    if inp.numberOverride == "" {
      var number := DrawNumber(repo, inp.numberPrefix, drawing);
      if number.None? { return NoNumber, None; }
      orphan := ResolveNumber(repo, number.value, reply, marking);
    }
    match reply
    case Rejected(_) => return StripeError, orphan;
    case Created(id) => return if orphan.Some? then LedgerError(id) else Draft(id), orphan;
  }

  // ------------------------------------------------------- the office, in steps

  /** Where a draft stands.  Another process may act between any two of its calls;
      a draft that dies with its number, or whose draw took effect without an
      answer, loses it. */
  datatype Progress =
    | Asking(prefix: string)
    | Holding(number: string)
    | Answered(number: string, reply: StripeReply)
    | Settled(number: string)
    | Lost(number: string)
    | Over
  {
    predicate HasNumber() { !Asking? && !Over? }
  }

  /** The ledger, all drafts, the numbers the orphan hook received, and those some
      call from outside a draft resolved. */
  datatype Office = Office(book: Book, drafts: seq<Progress>, reported: set<string>, marked: set<string>)

  const OPENING := Office(EMPTY, [], {}, {})

  datatype Event =
    | NextCall(prefix: string)
    | UsedCall(number: string, stripeId: string)
    | VoidedCall(number: string, reason: string)
    | BeginDraft(prefix: string)
    | Draw(i: nat, outage: Outage)
    | Reply(i: nat, reply: StripeReply)
    | Resolve(i: nat, outage: Outage)
    | Crash(i: nat)

  function Put(o: Office, i: nat, d: Progress): Office
    requires i < |o.drafts|
  {
    o.(drafts := o.drafts[i := d])
  }

  predicate IsIssued(b: Book, number: string) {
    number in b.status && b.status[number].Issued?
  }

  function Marking(o: Office, number: string): Office {
    if IsIssued(o.book, number) then o.(marked := o.marked + {number}) else o
  }

  function StepDraw(o: Office, i: nat, outage: Outage): Office
    requires i < |o.drafts| && o.drafts[i].Asking?
  {
    var prefix := o.drafts[i].prefix;
    var number := NextNumber(o.book, prefix);
    var d := if outage.Works? then Holding(number) else if outage.applied then Lost(number) else Over;
    Put(o, i, d).(book := AfterDraw(o.book, prefix, outage))
  }

  function StepResolve(o: Office, i: nat, outage: Outage): Office
    requires i < |o.drafts| && o.drafts[i].Answered?
  {
    var number, reply := o.drafts[i].number, o.drafts[i].reply;
    Put(o, i, Settled(number)).(
      book := AfterResolve(o.book, number, reply, outage),
      reported := if ResolveError(o.book, number, reply, outage).None? then o.reported else o.reported + {number})
  }

  /** One step; a step that is not possible changes nothing. */
  function Step(o: Office, e: Event): Office {
    match e
    case NextCall(prefix) => o.(book := AfterNext(o.book, prefix))
    case UsedCall(number, id) => Marking(o, number).(book := AfterUsed(o.book, number, id))
    case VoidedCall(number, reason) => Marking(o, number).(book := AfterVoided(o.book, number, reason))
    case BeginDraft(prefix) => o.(drafts := o.drafts + [Asking(prefix)])
    case Draw(i, outage) => if i < |o.drafts| && o.drafts[i].Asking? then StepDraw(o, i, outage) else o
    case Reply(i, reply) =>
      if i < |o.drafts| && o.drafts[i].Holding? then Put(o, i, Answered(o.drafts[i].number, reply)) else o
    case Resolve(i, outage) => if i < |o.drafts| && o.drafts[i].Answered? then StepResolve(o, i, outage) else o
    case Crash(i) =>
      if i < |o.drafts| && o.drafts[i].Asking? then Put(o, i, Over)
      else if i < |o.drafts| && (o.drafts[i].Holding? || o.drafts[i].Answered?) then Put(o, i, Lost(o.drafts[i].number))
      else o
  }

  function Run(o: Office, es: seq<Event>): Office {
    if es == [] then o else Step(Run(o, es[..|es| - 1]), es[|es| - 1])
  }

  lemma {:induction false} RunMore(o: Office, es: seq<Event>, e: Event)
    ensures Run(o, es + [e]) == Step(Run(o, es), e)
  {
    assert (es + [e])[..|es|] == es;
  }

  /** CreateDraft is these steps with nothing in between. */
  lemma {:induction false} DraftIsItsSteps(o: Office, inp: CreateInput, drawing: Outage, reply: StripeReply,
                                           marking: Outage)
    requires ValidInput(inp) && inp.numberOverride == ""
    ensures var k, p := |o.drafts|, inp.numberPrefix;
            var t := Run(o, [BeginDraft(p)] + [Draw(k, drawing)] + [Reply(k, reply)] + [Resolve(k, marking)]);
            && t.book == (if drawing.Down? then AfterDraw(o.book, p, drawing)
                          else AfterResolve(AfterNext(o.book, p), NextNumber(o.book, p), reply, marking))
            && (drawing.Works? ==>
                  t.reported == o.reported + if marking.Down? then {NextNumber(o.book, p)} else {})
  {
    hide Number, Run, AfterNext, AfterResolve, ResolveError;
    var k, p := |o.drafts|, inp.numberPrefix;
    FreshMarkIsAnswered(o.book, p, reply, marking);
    RunNothing(o);
    RunMore(o, [], BeginDraft(p));
    assert [] + [BeginDraft(p)] == [BeginDraft(p)];
    RunMore(o, [BeginDraft(p)], Draw(k, drawing));
    RunMore(o, [BeginDraft(p)] + [Draw(k, drawing)], Reply(k, reply));
    RunMore(o, [BeginDraft(p)] + [Draw(k, drawing)] + [Reply(k, reply)], Resolve(k, marking));
  }

  lemma {:induction false} RunNothing(o: Office)
    ensures Run(o, []) == o
  {
  }

  /** The record already says what Stripe's answer demands. */
  predicate Agrees(status: Status, reply: StripeReply) {
    match reply
    case Created(id) => status == Used(id)
    case Rejected(_) => status.Voided?
  }

  /** If someone else resolves the number first, the record stays, whatever Stripe
      answered and whether the ledger works or not; a ledger that works reports the
      number exactly when the record does not already agree with that answer. */
  lemma {:induction false} ForeignResolutionIsReported(o: Office, i: nat, outage: Outage)
    requires i < |o.drafts| && o.drafts[i].Answered? && Resolved(o.book, o.drafts[i].number)
    ensures var number, t := o.drafts[i].number, Step(o, Resolve(i, outage));
            && t.book == o.book && t.drafts[i] == Settled(number)
            && (number in t.reported <==>
                number in o.reported || outage.Down? || !Agrees(o.book.status[number], o.drafts[i].reply))
  {
  }

  /** How a number gets lost: a draw that took effect without an answer leaves its
      number issued and in nobody's hands, and so does a draft that dies with it. */
  lemma {:induction false} LostNumbers(o: Office, i: nat)
    requires i < |o.drafts|
    ensures o.drafts[i].Asking? ==>
              var number, t := NextNumber(o.book, o.drafts[i].prefix), Step(o, Draw(i, Down(true)));
              t.drafts[i] == Lost(number) && IsIssued(t.book, number) && t.reported == o.reported
    ensures o.drafts[i].Asking? ==> Step(o, Draw(i, Down(false))) == o.(drafts := o.drafts[i := Over])
    ensures Step(o, Crash(i)) ==
              if o.drafts[i].Asking? then o.(drafts := o.drafts[i := Over])
              else if o.drafts[i].Holding? || o.drafts[i].Answered?
              then o.(drafts := o.drafts[i := Lost(o.drafts[i].number)])
              else o
  {
    hide Number;
  }

  predicate Resolved(b: Book, number: string) {
    number in b.status && !b.status[number].Issued?
  }

  // ------------------------------------------------------------------ gapless

  /** Exactly the numbers 1..n of every prefix are on record. */
  ghost predicate Gapless(b: Book) {
    && (forall p, c :: 1 <= c <= Last(b, p) ==> Number(p, c) in b.status)
    && (forall n :: n in b.status ==> OnRecord(b, n))
  }

  ghost predicate OnRecord(b: Book, number: string) {
    exists p, c :: 1 <= c <= Last(b, p) && number == Number(p, c)
  }

  lemma {:induction false} NextKeepsGapless(b: Book, prefix: string)
    requires Gapless(b)
    ensures Gapless(AfterNext(b, prefix))
  {
    hide Number;
    var t := AfterNext(b, prefix);
    assert forall p :: Last(t, p) == if p == prefix then Last(b, p) + 1 else Last(b, p);
    forall p, c | 1 <= c <= Last(t, p) ensures Number(p, c) in t.status {
      assert c <= Last(b, p) || (p == prefix && c == Last(b, prefix) + 1);
    }
    forall n | n in t.status ensures OnRecord(t, n) {
      if n == NextNumber(b, prefix) {
        assert 1 <= Last(t, prefix) <= Last(t, prefix) && n == Number(prefix, Last(t, prefix));
      } else {
        var p, c :| 1 <= c <= Last(b, p) && n == Number(p, c);
        assert 1 <= c <= Last(t, p);
      }
    }
  }

  lemma {:induction false} MarkKeepsGapless(b: Book, t: Book)
    requires Gapless(b) && t.last == b.last && t.status.Keys == b.status.Keys
    ensures Gapless(t)
  {
    hide Number;
    assert forall p :: Last(t, p) == Last(b, p);
    forall n | n in t.status ensures OnRecord(t, n) {
      assert n in b.status.Keys;
      var p, c :| 1 <= c <= Last(b, p) && n == Number(p, c);
      assert 1 <= c <= Last(t, p);
    }
  }

  /** The prefix a step draws from, if it draws. */
  function DrawPrefix(o: Office, e: Event): Option<string> {
    match e
    case NextCall(prefix) => Some(prefix)
    case Draw(i, outage) =>
      if i < |o.drafts| && o.drafts[i].Asking? && outage.TookEffect() then Some(o.drafts[i].prefix) else None
    case _ => None
  }

  /** A step draws from one prefix, or leaves the numbers on record as they are. */
  lemma {:induction false} StepBook(o: Office, e: Event)
    ensures DrawPrefix(o, e).Some? ==> Step(o, e).book == AfterNext(o.book, DrawPrefix(o, e).value)
    ensures DrawPrefix(o, e).None? ==>
              Step(o, e).book.last == o.book.last && Step(o, e).book.status.Keys == o.book.status.Keys
  {
    hide Number;
  }

  lemma {:induction false} StepKeepsGapless(o: Office, e: Event)
    requires Gapless(o.book)
    ensures Gapless(Step(o, e).book)
  {
    hide Gapless, Step, AfterNext;
    StepBook(o, e);
    match DrawPrefix(o, e)
    case Some(prefix) => NextKeepsGapless(o.book, prefix);
    case None => MarkKeepsGapless(o.book, Step(o, e).book);
  }

  /** Every run leaves each prefix with exactly the numbers of its counters. */
  lemma {:induction false} RunIsGapless(es: seq<Event>)
    ensures Gapless(Run(OPENING, es).book)
  {
    hide Gapless, Step;
    if es == [] {
      OpeningIsGapless();
    } else {
      RunIsGapless(es[..|es| - 1]);
      StepKeepsGapless(Run(OPENING, es[..|es| - 1]), es[|es| - 1]);
    }
  }

  lemma {:induction false} OpeningIsGapless()
    ensures Gapless(EMPTY)
  {
  }

  /** How often a run drew from a prefix. */
  function CountDraws(es: seq<Event>, prefix: string): nat {
    if es == [] then 0
    else
      CountDraws(es[..|es| - 1], prefix) +
      (if DrawPrefix(Run(OPENING, es[..|es| - 1]), es[|es| - 1]) == Some(prefix) then 1 else 0)
  }

  /** The k-th draw from a prefix gets counter k: no counter is skipped or given
      out twice. */
  lemma {:induction false} CounterCountsDraws(es: seq<Event>, prefix: string)
    ensures Last(Run(OPENING, es).book, prefix) == CountDraws(es, prefix)
  {
    hide Number, Step, DrawPrefix;
    if es != [] {
      CounterCountsDraws(es[..|es| - 1], prefix);
      StepBook(Run(OPENING, es[..|es| - 1]), es[|es| - 1]);
    }
  }

  // --------------------------------------------------------------- collisions

  /** The number a step puts on record as issued. */
  function Drawn(o: Office, e: Event): Option<string> {
    match DrawPrefix(o, e)
    case None => None
    case Some(prefix) => Some(NextNumber(o.book, prefix))
  }

  predicate Collides(o: Office, e: Event) {
    Drawn(o, e).Some? && Drawn(o, e).value in o.book.status
  }

  /** Counter d of q, already drawn, clashes with the next counter of p. */
  predicate NextClashes(b: Book, p: string, q: string, d: nat) {
    1 <= d <= Last(b, q) && (Clash(p, Last(b, p) + 1, q, d) || Clash(q, d, p, Last(b, p) + 1))
  }

  /** When a draw hits a number on record: exactly when some other prefix has, among
      its counters, one that clashes with the next of this prefix. */
  lemma {:induction false} CollidesIff(b: Book, p: string)
    requires Gapless(b)
    ensures NextNumber(b, p) in b.status <==>
              exists q, d :: NextClashes(b, p, q, d)
  {
    hide Number, Clash;
    var c := Last(b, p) + 1;
    if NextNumber(b, p) in b.status {
      var q, d :| 1 <= d <= Last(b, q) && NextNumber(b, p) == Number(q, d);
      SameNumber(p, c, q, d);
      assert NextClashes(b, p, q, d);
    }
    if q, d :| NextClashes(b, p, q, d) {
      SameNumber(p, c, q, d);
    }
  }

  predicate SameStatus(b: Book, t: Book, n: string) {
    n in b.status && n in t.status && t.status[n] == b.status[n]
  }

  /** A resolved number changes under a step if and only if the step draws it. */
  lemma {:induction false} ResolvedChangesIff(o: Office, e: Event, n: string)
    requires Resolved(o.book, n)
    ensures SameStatus(o.book, Step(o, e).book, n) <==> Drawn(o, e) != Some(n)
  {
    hide Number;
  }

  /** Some step of the run draws this number. */
  ghost predicate DrawnIn(o: Office, es: seq<Event>, n: string) {
    exists k :: 0 <= k < |es| && Drawn(Run(o, es[..k]), es[k]) == Some(n)
  }

  /** Used and voided numbers, and the Stripe ids recorded with them, stay as they
      are through a run if and only if no draw of the run hits the number. */
  lemma {:induction false} ResolvedForGood(o: Office, es: seq<Event>, n: string)
    requires Resolved(o.book, n)
    ensures (forall k :: 0 <= k <= |es| ==> SameStatus(o.book, Run(o, es[..k]).book, n)) <==> !DrawnIn(o, es, n)
  {
    hide Step, Drawn;
    if !DrawnIn(o, es, n) {
      forall k | 0 <= k <= |es| ensures SameStatus(o.book, Run(o, es[..k]).book, n) { StaysResolved(o, es, n, k); }
    }
    if k :| 0 <= k < |es| && Drawn(Run(o, es[..k]), es[k]) == Some(n) {
      if SameStatus(o.book, Run(o, es[..k]).book, n) {
        assert es[..k + 1] == es[..k] + [es[k]];
        RunMore(o, es[..k], es[k]);
        ResolvedChangesIff(Run(o, es[..k]), es[k], n);
      }
    }
  }

  lemma {:induction false} StaysResolved(o: Office, es: seq<Event>, n: string, k: nat)
    requires Resolved(o.book, n) && k <= |es| && !DrawnIn(o, es, n)
    ensures SameStatus(o.book, Run(o, es[..k]).book, n)
  {
    hide Step, Drawn;
    if k == 0 {
      assert es[..0] == [];
    } else {
      StaysResolved(o, es, n, k - 1);
      assert es[..k] == es[..k - 1] + [es[k - 1]];
      RunMore(o, es[..k - 1], es[k - 1]);
      ResolvedChangesIff(Run(o, es[..k - 1]), es[k - 1], n);
    }
  }

  /** No draw of the run collides. */
  ghost predicate Clean(es: seq<Event>) {
    es == [] || (Clean(es[..|es| - 1]) && !Collides(Run(OPENING, es[..|es| - 1]), es[|es| - 1]))
  }

  // --------------------------------------------------------- accounting for drafts

  /** Still issued, and nobody was told. */
  predicate Unaccounted(o: Office, n: string) {
    IsIssued(o.book, n) && n !in o.reported
  }

  /** Each draft with a number has it for itself; one that is settled has it
      resolved or reported, one that is not has told nobody, and then only a call
      from outside can have resolved it. */
  ghost predicate Accounts(o: Office) {
    && o.reported <= o.book.status.Keys && o.marked <= o.book.status.Keys
    && (forall i :: 0 <= i < |o.drafts| && o.drafts[i].HasNumber() ==> Fate(o, o.drafts[i]))
    && (forall i, j :: 0 <= i < j < |o.drafts| && o.drafts[i].HasNumber() && o.drafts[j].HasNumber() ==>
          o.drafts[i].number != o.drafts[j].number)
  }

  predicate Fate(o: Office, d: Progress)
    requires d.HasNumber()
  {
    && d.number in o.book.status
    && (if d.Settled? then Resolved(o.book, d.number) || d.number in o.reported
        else d.number !in o.reported && (IsIssued(o.book, d.number) <==> d.number !in o.marked))
  }

  lemma {:induction false} NextKeepsAccounts(o: Office, prefix: string)
    requires Accounts(o) && NextNumber(o.book, prefix) !in o.book.status
    ensures Accounts(o.(book := AfterNext(o.book, prefix)))
  {
    hide Number;
  }

  lemma {:induction false} DrawKeepsAccounts(o: Office, i: nat, outage: Outage)
    requires Accounts(o) && i < |o.drafts| && o.drafts[i].Asking?
    requires outage.TookEffect() ==> NextNumber(o.book, o.drafts[i].prefix) !in o.book.status
    ensures Accounts(StepDraw(o, i, outage))
  {
    hide Number;
  }

  lemma {:induction false} MarkKeepsAccounts(o: Office, number: string, t: Office)
    requires Accounts(o) && t.drafts == o.drafts && t.reported == o.reported
    requires t.book.status.Keys == o.book.status.Keys && t.marked == Marking(o, number).marked
    requires forall n :: n in o.book.status && (n != number || !IsIssued(o.book, n)) ==>
               t.book.status[n] == o.book.status[n]
    requires IsIssued(o.book, number) ==> Resolved(t.book, number)
    ensures Accounts(t)
  {
    assert forall n :: n in t.book.status <==> n in t.book.status.Keys;
  }

  lemma {:induction false} ResolveKeepsAccounts(o: Office, i: nat, outage: Outage)
    requires Accounts(o) && i < |o.drafts| && o.drafts[i].Answered?
    ensures Accounts(StepResolve(o, i, outage))
  {
  }

  lemma {:induction false} ProgressKeepsAccounts(o: Office, i: nat, d: Progress)
    requires Accounts(o) && i < |o.drafts| && !d.Settled?
    requires d.HasNumber() ==> o.drafts[i].HasNumber() && d.number == o.drafts[i].number && !o.drafts[i].Settled?
    ensures Accounts(Put(o, i, d))
  {
  }

  lemma {:induction false} StepKeepsAccounts(o: Office, e: Event)
    requires Accounts(o) && !Collides(o, e)
    ensures Accounts(Step(o, e))
  {
    hide Accounts, Number;
    match e
    case NextCall(prefix) => NextKeepsAccounts(o, prefix);
    case UsedCall(number, _) => MarkKeepsAccounts(o, number, Step(o, e));
    case VoidedCall(number, _) => MarkKeepsAccounts(o, number, Step(o, e));
    case BeginDraft(prefix) => BeginKeepsAccounts(o, prefix);
    case Draw(i, outage) => if i < |o.drafts| && o.drafts[i].Asking? { DrawKeepsAccounts(o, i, outage); }
    case Resolve(i, outage) => if i < |o.drafts| && o.drafts[i].Answered? { ResolveKeepsAccounts(o, i, outage); }
    case _ => if Step(o, e) != o { ProgressKeepsAccounts(o, e.i, Step(o, e).drafts[e.i]); }
  }

  lemma {:induction false} BeginKeepsAccounts(o: Office, prefix: string)
    requires Accounts(o)
    ensures Accounts(o.(drafts := o.drafts + [Asking(prefix)]))
  {
  }

  lemma {:induction false} RunKeepsAccounts(es: seq<Event>)
    requires Clean(es)
    ensures Accounts(Run(OPENING, es))
  {
    hide Accounts, Step, Collides;
    if es == [] {
      OpeningAccounts();
    } else {
      RunKeepsAccounts(es[..|es| - 1]);
      StepKeepsAccounts(Run(OPENING, es[..|es| - 1]), es[|es| - 1]);
    }
  }

  lemma {:induction false} OpeningAccounts()
    ensures Accounts(OPENING)
  {
  }

  /** In every interleaving without a collision, a number that a draft drew stays
      unaccounted for exactly when the draft did not get to settle it, because it
      is still under way, died, or never learnt of the draw, and no call from
      outside resolved it. */
  lemma {:induction false} DraftsAreAccountedFor(es: seq<Event>)
    ensures var o := Run(OPENING, es);
            Clean(es) ==>
              forall i :: 0 <= i < |o.drafts| && o.drafts[i].HasNumber() ==>
                (Unaccounted(o, o.drafts[i].number) <==> !o.drafts[i].Settled? && o.drafts[i].number !in o.marked)
  {
    hide Run, Clean;
    if Clean(es) { RunKeepsAccounts(es); }
  }

  // ------------------------------------------------------------ safe prefixes

  /** No prefix that has drawn a million numbers is the beginning of one that
      ends in a digit. */
  ghost predicate SafePrefixes(b: Book) {
    forall p, q :: p in b.last && q in b.last && b.last[p] >= MILLION && |p| < |q| && p == q[..|p|] ==>
      !IsDigit(q[|q| - 1])
  }

  /** Under safe prefixes the numbers on record are pairwise distinct. */
  lemma {:induction false} SafeIsDistinct(b: Book, p: string, c: nat, q: string, d: nat)
    requires SafePrefixes(b) && 1 <= c <= Last(b, p) && 1 <= d <= Last(b, q)
    ensures Number(p, c) == Number(q, d) <==> p == q && c == d
  {
    hide Number;
    SameNumber(p, c, q, d);
    if Clash(p, c, q, d) { ClashNeedsDigit(p, c, q, d); }
    if Clash(q, d, p, c) { ClashNeedsDigit(q, d, p, c); }
  }

  lemma {:induction false} SafeIsFresh(b: Book, prefix: string)
    requires Gapless(b) && SafePrefixes(AfterNext(b, prefix))
    ensures NextNumber(b, prefix) !in b.status
  {
    hide Number, SafePrefixes;
    var t, n := AfterNext(b, prefix), NextNumber(b, prefix);
    if n in b.status {
      var p, c :| 1 <= c <= Last(b, p) && n == Number(p, c);
      SafeIsDistinct(t, p, c, prefix, Last(t, prefix));
    }
  }

  lemma {:induction false} SafeBefore(b: Book, t: Book)
    requires SafePrefixes(t) && forall p :: p in b.last ==> p in t.last && b.last[p] <= t.last[p]
    ensures SafePrefixes(b)
  {
  }

  /** A caller's way to a run without collisions: safe prefixes at its end. */
  lemma {:induction false} SafeRunIsClean(es: seq<Event>)
    ensures SafePrefixes(Run(OPENING, es).book) ==> Clean(es)
  {
    hide SafePrefixes, Gapless, Step, DrawPrefix, Number;
    if es != [] && SafePrefixes(Run(OPENING, es).book) {
      var o, e := Run(OPENING, es[..|es| - 1]), es[|es| - 1];
      StepBook(o, e);
      SafeBefore(o.book, Step(o, e).book);
      SafeRunIsClean(es[..|es| - 1]);
      RunIsGapless(es[..|es| - 1]);
      if DrawPrefix(o, e).Some? { SafeIsFresh(o.book, DrawPrefix(o, e).value); }
    }
  }

  // ---------------------------------------------------------- when they clash

  /** A run of calls to Next only: as many draws as wanted from two prefixes. */
  lemma {:induction false} ManyDraws(p: string, c: nat, q: string, d: nat) returns (es: seq<Event>)
    requires p != q
    ensures CountDraws(es, p) == c && CountDraws(es, q) == d
    ensures AllIssued(Run(OPENING, es).book)
    decreases c + d
  {
    hide Number, Run, CountDraws, AllIssued;
    if c > 0 {
      var init := ManyDraws(p, c - 1, q, d);
      es := init + [NextCall(p)];
      OneMoreDraw(init, p, p);
      OneMoreDraw(init, p, q);
    } else if d > 0 {
      var init := ManyDraws(p, c, q, d - 1);
      es := init + [NextCall(q)];
      OneMoreDraw(init, q, p);
      OneMoreDraw(init, q, q);
    } else {
      es := [];
      NoDraws(p);
      NoDraws(q);
    }
  }

  lemma {:induction false} OneMoreDraw(es: seq<Event>, p: string, prefix: string)
    ensures CountDraws(es + [NextCall(p)], prefix) == CountDraws(es, prefix) + if p == prefix then 1 else 0
    ensures AllIssued(Run(OPENING, es).book) ==> AllIssued(Run(OPENING, es + [NextCall(p)]).book)
  {
    hide Number;
    RunMore(OPENING, es, NextCall(p));
    assert (es + [NextCall(p)])[..|es|] == es;
  }

  lemma {:induction false} NoDraws(prefix: string)
    ensures CountDraws([], prefix) == 0 && AllIssued(Run(OPENING, []).book)
  {
  }

  ghost predicate AllIssued(b: Book) {
    forall n :: n in b.status ==> b.status[n].Issued?
  }

  /** Wherever two prefixes share a number, it can be used under the one and then
      be issued again, its record overwritten, by a draw from the other. */
  lemma {:induction false} SharedNumberIsReissued(p: string, c: nat, q: string, d: nat, id: string)
    returns (es: seq<Event>)
    requires p != q && c >= 1 && d >= 1 && Number(p, c) == Number(q, d)
    ensures var n, o, t := Number(q, d), Run(OPENING, es), Run(OPENING, es + [NextCall(p)]);
            && n in o.book.status && o.book.status[n] == Used(id)
            && n in t.book.status && t.book.status[n] == Issued
  {
    hide Number;
    var many := ManyDraws(p, c - 1, q, d);
    CounterCountsDraws(many, p);
    CounterCountsDraws(many, q);
    RunIsGapless(many);
    var b := Run(OPENING, many).book;
    assert Number(q, d) in b.status;
    es := many + [UsedCall(Number(q, d), id)];
    RunMore(OPENING, many, UsedCall(Number(q, d), id));
    RunMore(OPENING, es, NextCall(p));
  }

  /** Such prefixes exist: the millionth and first number of "A" is the first of
      "A1". */
  lemma {:induction false} SharedNumberExists()
    ensures Number("A", MILLION + 1) == Number("A1", 1) == "A1000001"
  {
    assert Decimal(1) == "1" && Zeros(5) == "00000";
    assert Decimal(10) == "10";
    assert Decimal(100) == "100";
    assert Decimal(1000) == "1000";
    assert Decimal(10000) == "10000";
    assert Decimal(100000) == "100000";
    assert Decimal(1000001) == "1000001";
    assert Padded(1) == "000001";
  }
}
