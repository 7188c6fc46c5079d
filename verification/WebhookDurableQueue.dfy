/** The durable webhook queue: table rows claimed, completed and released by
    concurrent workers, and a sweeper that takes rows back from workers it
    believes dead.  Every SQL statement is one atomic step that may report an
    error with or without having taken effect. */
module WebhookDurableQueue {
  import opened Runs

  type EventId = string
  type Time = nat

  datatype Row = Queued | Processing(lockedAt: Time)

  datatype Outcome = Ok | PermanentFailure | RetryableError

  predicate Final(o: Outcome) {
    o != RetryableError
  }

  /** A worker is idle, inside dispatch, or back from it and about to update
      the table. */
  datatype Worker = Idle | Running(id: EventId, since: Time) | Returned(id: EventId, since: Time, outcome: Outcome) {
    predicate Busy() { !Idle? }
  }

  /** `accepted` collects the ids whose Enqueue returned nil, `finished` those
      some dispatch answered with nil or a permanent failure; `owed` those not so
      answered since their row was last inserted. */
  datatype State = State(
    now: Time, table: map<EventId, Row>, workers: seq<Worker>,
    accepted: set<EventId>, finished: set<EventId>, owed: set<EventId>)

  function Start(workers: nat): State {
    State(0, map[], seq(workers, _ => Idle), {}, {}, {})
  }

  datatype Reply = Answered | Failed(applied: bool) {
    predicate TookEffect() { Answered? || applied }
  }

  datatype Step =
    | Tick(seconds: nat)
    | Enqueue(id: EventId, reply: Reply)
    | Dequeue(w: nat, id: EventId, reply: Reply)
    | Return(w: nat, outcome: Outcome)
    | Complete(w: nat, reply: Reply)
    | ReleaseFailed(w: nat, reply: Reply)
    | Crash(w: nat)
    | Sweep

  function SetWorker(s: State, w: nat, worker: Worker): State
    requires w < |s.workers|
  {
    s.(workers := s.workers[w := worker])
  }

  /** INSERT ... ON CONFLICT DO NOTHING. */
  function AfterEnqueue(s: State, id: EventId, reply: Reply): State {
    var inserted := reply.TookEffect() && id !in s.table;
    s.(table := if inserted then s.table[id := Queued] else s.table,
       owed := if inserted then s.owed + {id} else s.owed,
       accepted := if reply.Answered? then s.accepted + {id} else s.accepted)
  }

  /** SELECT ... FOR UPDATE SKIP LOCKED and UPDATE in one transaction: some queued
      row that no other transaction has locked. */
  function AfterDequeue(s: State, w: nat, id: EventId, reply: Reply): State
    requires w < |s.workers|
  {
    var t := if reply.TookEffect() then s.(table := s.table[id := Processing(s.now)]) else s;
    if reply.Answered? then SetWorker(t, w, Running(id, s.now)) else t
  }

  function AfterReturn(s: State, w: nat, outcome: Outcome): State
    requires w < |s.workers| && s.workers[w].Running?
  {
    var worker := s.workers[w];
    SetWorker(s, w, Returned(worker.id, worker.since, outcome)).(
      finished := if Final(outcome) then s.finished + {worker.id} else s.finished,
      owed := if Final(outcome) then s.owed - {worker.id} else s.owed)
  }

  /** DELETE by event id, whoever holds the row. */
  function AfterComplete(s: State, w: nat, reply: Reply): State
    requires w < |s.workers| && s.workers[w].Returned?
  {
    var id := s.workers[w].id;
    SetWorker(s, w, Idle).(table := if reply.TookEffect() then s.table - {id} else s.table)
  }

  /** UPDATE by event id, whoever holds the row; no row, no effect. */
  function AfterRelease(s: State, w: nat, reply: Reply): State
    requires w < |s.workers| && s.workers[w].Returned?
  {
    var id := s.workers[w].id;
    SetWorker(s, w, Idle).(table := if reply.TookEffect() && id in s.table then s.table[id := Queued] else s.table)
  }

  predicate Stuck(stuckAfter: nat, r: Row, now: Time) {
    r.Processing? && r.lockedAt + stuckAfter < now
  }

  function Swept(stuckAfter: nat, s: State): map<EventId, Row> {
    map id | id in s.table :: if Stuck(stuckAfter, s.table[id], s.now) then Queued else s.table[id]
  }

  /** One step; a step that is not possible changes nothing. */
  function Do(stuckAfter: nat, s: State, step: Step): State {
    match step
    case Tick(d) => s.(now := s.now + d)
    case Enqueue(id, reply) => AfterEnqueue(s, id, reply)
    case Dequeue(w, id, reply) =>
      if w < |s.workers| && s.workers[w].Idle? && id in s.table && s.table[id].Queued?
      then AfterDequeue(s, w, id, reply)
      else s
    case Return(w, outcome) =>
      if w < |s.workers| && s.workers[w].Running? then AfterReturn(s, w, outcome) else s
    case Complete(w, reply) =>
      if w < |s.workers| && s.workers[w].Returned? && Final(s.workers[w].outcome) then AfterComplete(s, w, reply) else s
    case ReleaseFailed(w, reply) =>
      if w < |s.workers| && s.workers[w].Returned? && !Final(s.workers[w].outcome) then AfterRelease(s, w, reply) else s
    case Crash(w) => if w < |s.workers| then SetWorker(s, w, Idle) else s
    case Sweep => s.(table := Swept(stuckAfter, s))
  }

  function Next(stuckAfter: nat): (State, Step) -> State {
    (s: State, step: Step) => Do(stuckAfter, s, step)
  }

  /** The state after further steps. */
  function Continue(stuckAfter: nat, s: State, steps: seq<Step>): State {
    Play(Next(stuckAfter), s, steps)
  }

  /** The state after a run of `workers` workers: any interleaving is a sequence
      of steps. */
  function Run(stuckAfter: nat, workers: nat, steps: seq<Step>): State {
    Continue(stuckAfter, Start(workers), steps)
  }

  // ----------------------------------------------------------------- no loss

  /** Accepted events are in the table or finished. */
  ghost predicate NothingLost(s: State) {
    && s.accepted <= s.table.Keys + s.finished
    && (forall w :: 0 <= w < |s.workers| && s.workers[w].Returned? && Final(s.workers[w].outcome) ==>
          s.workers[w].id in s.finished)
  }

  lemma {:induction false} StepLosesNothing(stuckAfter: nat, s: State, step: Step)
    requires NothingLost(s)
    ensures NothingLost(Do(stuckAfter, s, step))
  {
  }

  lemma {:induction false} ContinueLosesNothing(stuckAfter: nat, s: State, steps: seq<Step>)
    requires NothingLost(s)
    ensures NothingLost(Continue(stuckAfter, s, steps))
    decreases |steps|
  {
    hide NothingLost, Do;
    if steps != [] {
      StepLosesNothing(stuckAfter, s, steps[0]);
      ContinueLosesNothing(stuckAfter, Do(stuckAfter, s, steps[0]), steps[1..]);
    }
  }

  /** No loss: whatever crashes, fails or comes late, an accepted event that is
      no longer in the table was answered with nil or a permanent failure. */
  lemma {:induction false} AcceptedIsKeptOrFinished(stuckAfter: nat, workers: nat, steps: seq<Step>, id: EventId)
    requires id in Run(stuckAfter, workers, steps).accepted
    ensures id in Run(stuckAfter, workers, steps).table || id in Run(stuckAfter, workers, steps).finished
  {
    ContinueLosesNothing(stuckAfter, Start(workers), steps);
  }

  /** Only an insert adds a row: a late release, or the sweeper, never brings back
      one that was deleted. */
  lemma {:induction false} DeletedStaysDeleted(stuckAfter: nat, s: State, steps: seq<Step>, id: EventId)
    requires id !in s.table && forall k :: 0 <= k < |steps| ==> !(steps[k].Enqueue? && steps[k].id == id)
    ensures id !in Continue(stuckAfter, s, steps).table
    decreases |steps|
  {
    if steps != [] {
      NoInsertNoRow(stuckAfter, s, steps[0], id);
      DeletedStaysDeleted(stuckAfter, Do(stuckAfter, s, steps[0]), steps[1..], id);
    }
  }

  lemma {:induction false} NoInsertNoRow(stuckAfter: nat, s: State, step: Step, id: EventId)
    requires id !in s.table && !(step.Enqueue? && step.id == id)
    ensures id !in Do(stuckAfter, s, step).table
  {
  }

  // ---------------------------------------------------------------- outcomes

  /** What becomes of a row, outcome by outcome: success and permanent failure
      delete it and cannot release it, any other error releases it and cannot delete
      it. */
  lemma {:induction false} OutcomeDecidesRow(stuckAfter: nat, s: State, w: nat, reply: Reply)
    requires w < |s.workers| && s.workers[w].Returned?
    ensures var id, outcome := s.workers[w].id, s.workers[w].outcome;
            var done, back := Do(stuckAfter, s, Complete(w, reply)), Do(stuckAfter, s, ReleaseFailed(w, reply));
            && (outcome == Ok || outcome == PermanentFailure ==>
                  && back == s && done.workers == s.workers[w := Idle]
                  && done.table == if reply == Answered || reply == Failed(true) then s.table - {id} else s.table)
            && (outcome == RetryableError ==>
                  && done == s && back.workers == s.workers[w := Idle] && back.table.Keys == s.table.Keys
                  && forall k :: k in s.table ==>
                       back.table[k] == if k == id && (reply == Answered || reply == Failed(true)) then Queued
                                        else s.table[k])
  {
  }

  /** A statement whose answer is lost: an insert that was applied leaves the row but
      accepts nothing, a claim that was applied leaves the row locked with no worker
      on it. */
  lemma {:induction false} LostAnswers(stuckAfter: nat, s: State, w: nat, id: EventId, applied: bool)
    ensures Do(stuckAfter, s, Enqueue(id, Failed(applied))).table
         == if applied && id !in s.table then s.table[id := Queued] else s.table
    ensures Do(stuckAfter, s, Enqueue(id, Failed(applied))).accepted == s.accepted
    ensures w < |s.workers| && s.workers[w].Idle? && id in s.table && s.table[id] == Queued ==>
              var t := Do(stuckAfter, s, Dequeue(w, id, Failed(applied)));
              t.workers == s.workers && t.table == if applied then s.table[id := Processing(s.now)] else s.table
  {
  }

  /** A busy worker takes no other row, and nothing but its own steps moves it. */
  lemma {:induction false} BusyStaysBusy(stuckAfter: nat, s: State, step: Step, w: nat)
    requires w < |s.workers| && s.workers[w] != Idle
    requires step.Return? || step.Complete? || step.ReleaseFailed? || step.Crash? ==> step.w != w
    ensures w < |Do(stuckAfter, s, step).workers| && Do(stuckAfter, s, step).workers[w] == s.workers[w]
  {
  }

  /** The k-th step answers the event: a worker that runs it returns nil or a
      permanent failure. */
  ghost predicate Answers(stuckAfter: nat, workers: nat, steps: seq<Step>, k: nat, id: EventId)
    requires k < |steps|
  {
    var s := Run(stuckAfter, workers, steps[..k]);
    && steps[k].Return? && (steps[k].outcome == Ok || steps[k].outcome == PermanentFailure)
    && steps[k].w < |s.workers| && s.workers[steps[k].w].Running? && s.workers[steps[k].w].id == id
  }

  lemma {:induction false} RunMore(stuckAfter: nat, workers: nat, steps: seq<Step>, step: Step)
    ensures Run(stuckAfter, workers, steps + [step]) == Do(stuckAfter, Run(stuckAfter, workers, steps), step)
  {
    Concat(Next(stuckAfter), Start(workers), steps, [step]);
    One(Next(stuckAfter), Run(stuckAfter, workers, steps), step);
  }

  lemma {:induction false} RecordsAre(stuckAfter: nat, workers: nat, steps: seq<Step>, id: EventId)
    ensures id in Run(stuckAfter, workers, steps).accepted <==> Enqueue(id, Answered) in steps
    ensures id in Run(stuckAfter, workers, steps).finished <==>
              exists k :: 0 <= k < |steps| && Answers(stuckAfter, workers, steps, k, id)
  {
    hide Run;
    if steps == [] {
      RunNothing(stuckAfter, workers);
    } else {
      var n := |steps| - 1;
      var init := steps[..n];
      assert steps == init + [steps[n]];
      RunMore(stuckAfter, workers, init, steps[n]);
      RecordsAre(stuckAfter, workers, init, id);
      assert forall k :: 0 <= k < n ==> init[..k] == steps[..k] && init[k] == steps[k];
      assert forall k :: 0 <= k < n ==>
        (Answers(stuckAfter, workers, init, k, id) <==> Answers(stuckAfter, workers, steps, k, id));
      assert Answers(stuckAfter, workers, steps, n, id) <==>
        id in AnsweredBy(Run(stuckAfter, workers, init), steps[n]);
    }
  }

  /** The event a step answers, if it does. */
  function AnsweredBy(s: State, step: Step): set<EventId> {
    if step.Return? && (step.outcome == Ok || step.outcome == PermanentFailure) && step.w < |s.workers|
       && s.workers[step.w].Running?
    then {s.workers[step.w].id} else {}
  }

  lemma {:induction false} RunNothing(stuckAfter: nat, workers: nat)
    ensures Run(stuckAfter, workers, []) == Start(workers)
  {
  }

  /** No loss, in steps alone: an event whose Enqueue was answered and whose row is
      gone has been returned by a worker running it with nil or a permanent failure;
      an event with a retryable error behind it is still in the table. */
  lemma {:induction false} AcceptedIsAnswered(stuckAfter: nat, workers: nat, steps: seq<Step>, id: EventId)
    requires Enqueue(id, Answered) in steps && id !in Run(stuckAfter, workers, steps).table
    ensures exists k :: 0 <= k < |steps| && Answers(stuckAfter, workers, steps, k, id)
  {
    RecordsAre(stuckAfter, workers, steps, id);
    AcceptedIsKeptOrFinished(stuckAfter, workers, steps, id);
  }

  // --------------------------------------------------------------- exclusion

  /** The sweeper never meets a row whose worker is still busy. */
  ghost predicate InTime(stuckAfter: nat, s: State) {
    forall w :: 0 <= w < |s.workers| && s.workers[w].Busy() ==> s.now <= s.workers[w].since + stuckAfter
  }

  ghost predicate Prompt(stuckAfter: nat, s: State, steps: seq<Step>)
    decreases |steps|
  {
    steps != [] ==>
      && (steps[0].Sweep? ==> InTime(stuckAfter, s))
      && Prompt(stuckAfter, Do(stuckAfter, s, steps[0]), steps[1..])
  }

  /** Every busy worker holds the row it claimed, nobody else does, and a row
      that still owes an answer is there. */
  ghost predicate Exclusive(s: State) {
    && (forall w :: 0 <= w < |s.workers| && s.workers[w].Busy() ==>
          s.workers[w].id in s.table && s.table[s.workers[w].id] == Processing(s.workers[w].since))
    && (forall v, w :: 0 <= v < w < |s.workers| && s.workers[v].Busy() && s.workers[w].Busy() ==>
          s.workers[v].id != s.workers[w].id)
    && s.owed <= s.table.Keys
    && (forall w :: 0 <= w < |s.workers| && s.workers[w].Returned? && Final(s.workers[w].outcome) ==>
          s.workers[w].id !in s.owed)
  }

  lemma {:induction false} StepKeepsExclusive(stuckAfter: nat, s: State, step: Step)
    requires Exclusive(s) && (step.Sweep? ==> InTime(stuckAfter, s))
    ensures Exclusive(Do(stuckAfter, s, step))
  {
    match step
    case Complete(w, reply) => CompleteKeepsExclusive(stuckAfter, s, w, reply);
    case ReleaseFailed(w, reply) => ReleaseKeepsExclusive(stuckAfter, s, w, reply);
    case _ =>
  }

  lemma {:induction false} CompleteKeepsExclusive(stuckAfter: nat, s: State, w: nat, reply: Reply)
    requires Exclusive(s)
    ensures Exclusive(Do(stuckAfter, s, Complete(w, reply)))
  {
  }

  lemma {:induction false} ReleaseKeepsExclusive(stuckAfter: nat, s: State, w: nat, reply: Reply)
    requires Exclusive(s)
    ensures Exclusive(Do(stuckAfter, s, ReleaseFailed(w, reply)))
  {
  }

  lemma {:induction false} ContinueKeepsExclusive(stuckAfter: nat, s: State, steps: seq<Step>)
    requires Exclusive(s) && Prompt(stuckAfter, s, steps)
    ensures Exclusive(Continue(stuckAfter, s, steps))
    decreases |steps|
  {
    hide Exclusive, InTime, Do;
    if steps != [] {
      StepKeepsExclusive(stuckAfter, s, steps[0]);
      ContinueKeepsExclusive(stuckAfter, Do(stuckAfter, s, steps[0]), steps[1..]);
    }
  }

  /** As long as no sweep finds a worker that is still busy after StuckAfter, no
      two workers ever run the same event. */
  lemma {:induction false} OneWorkerPerEvent(stuckAfter: nat, workers: nat, steps: seq<Step>, v: nat, w: nat)
    requires Prompt(stuckAfter, Start(workers), steps)
    requires v < w < |Run(stuckAfter, workers, steps).workers|
    requires Run(stuckAfter, workers, steps).workers[v].Busy() && Run(stuckAfter, workers, steps).workers[w].Busy()
    ensures Run(stuckAfter, workers, steps).workers[v].id != Run(stuckAfter, workers, steps).workers[w].id
  {
    ContinueKeepsExclusive(stuckAfter, Start(workers), steps);
  }

  /** Under the same condition a row, once inserted, stays until a dispatch that
      returned after the insert answered it. */
  lemma {:induction false} RowStaysUntilAnswered(stuckAfter: nat, workers: nat, steps: seq<Step>)
    requires Prompt(stuckAfter, Start(workers), steps)
    ensures Run(stuckAfter, workers, steps).owed <= Run(stuckAfter, workers, steps).table.Keys
  {
    ContinueKeepsExclusive(stuckAfter, Start(workers), steps);
  }

  // ------------------------------------------------------- late workers

  /** The exact condition is the sweep's own guard: a sweep keeps exclusion if and
      only if no busy worker's claim is older than StuckAfter. */
  lemma {:induction false} SweepIsExclusiveIff(stuckAfter: nat, s: State)
    requires Exclusive(s)
    ensures Exclusive(Do(stuckAfter, s, Sweep)) <==> InTime(stuckAfter, s)
  {
    if Exclusive(Do(stuckAfter, s, Sweep)) {
      forall w | 0 <= w < |s.workers| && s.workers[w].Busy() ensures s.now <= s.workers[w].since + stuckAfter {
        assert Do(stuckAfter, s, Sweep).workers[w] == s.workers[w];
      }
    }
  }

  /** Over whole runs: exclusion holds at every point exactly in the prompt runs. */
  lemma {:induction false} ExclusiveIffPrompt(stuckAfter: nat, s: State, steps: seq<Step>)
    requires Exclusive(s)
    ensures Prompt(stuckAfter, s, steps) <==>
              forall k :: 0 <= k <= |steps| ==> Exclusive(Continue(stuckAfter, s, steps[..k]))
    decreases |steps|
  {
    hide Exclusive, InTime, Do;
    if steps == [] {
      assert forall k :: 0 <= k <= |steps| ==> steps[..k] == [];
    } else {
      var t, rest := Do(stuckAfter, s, steps[0]), steps[1..];
      assert forall k :: 0 < k <= |steps| ==> steps[..k][1..] == rest[..k - 1];
      assert forall k :: 0 <= k <= |rest| ==> steps[..k + 1][1..] == rest[..k];
      assert steps[..0] == [] && steps[..1] == [steps[0]];
      One(Next(stuckAfter), s, steps[0]);
      assert Continue(stuckAfter, s, steps[..1]) == t;
      if steps[0].Sweep? { SweepIsExclusiveIff(stuckAfter, s); }
      if steps[0].Sweep? ==> InTime(stuckAfter, s) { StepKeepsExclusive(stuckAfter, s, steps[0]); }
      if Exclusive(t) { ExclusiveIffPrompt(stuckAfter, t, rest); }
      assert forall k :: 0 <= k <= |rest| ==>
        Continue(stuckAfter, s, steps[..k + 1]) == Continue(stuckAfter, t, rest[..k]);
      assert forall k :: 0 < k <= |steps| ==>
        Continue(stuckAfter, s, steps[..k]) == Continue(stuckAfter, t, rest[..k - 1]);
    }
  }

  /** Busy on a claim that the sweep takes back. */
  predicate Late(stuckAfter: nat, s: State, w: nat) {
    w < |s.workers| && s.workers[w].Busy() && s.workers[w].since + stuckAfter < s.now
  }

  /** From every exclusive state with a late worker, a sweep and the next claim, by
      another worker that crashes and starts over, leave two workers busy on one
      event. */
  lemma {:induction false} LateSweepRunsTwice(stuckAfter: nat, s: State, v: nat, w: nat) returns (steps: seq<Step>)
    requires Exclusive(s) && v < |s.workers| && v != w && Late(stuckAfter, s, w)
    ensures var t, id := Continue(stuckAfter, s, steps), s.workers[w].id;
            && |t.workers| == |s.workers| && t.workers[w] == s.workers[w] && t.workers[v] == Running(id, s.now)
            && id in t.table && t.now == s.now
  {
    var id := s.workers[w].id;
    steps := [Sweep, Crash(v), Dequeue(v, id, Answered)];
    Three(Next(stuckAfter), s, steps[0], steps[1], steps[2]);
    var t := Do(stuckAfter, s, Sweep);
    assert t.table[id] == Queued;
  }

  /** The release of a late worker hands the row out once more: then both workers,
      each of them in time, run it at once. */
  lemma {:induction false} LateReleaseRunsTwice(stuckAfter: nat, s: State, v: nat, w: nat) returns (steps: seq<Step>)
    requires Exclusive(s) && v < |s.workers| && v != w && Late(stuckAfter, s, w)
    requires s.workers[w].Returned? ==> !Final(s.workers[w].outcome)
    ensures var t, id := Continue(stuckAfter, s, steps), s.workers[w].id;
            && |t.workers| == |s.workers| && t.workers[v] == Running(id, t.now) && t.workers[w] == Running(id, t.now)
  {
    var first := LateSweepRunsTwice(stuckAfter, s, v, w);
    var t, id := Continue(stuckAfter, s, first), s.workers[w].id;
    var rest := [Return(w, RetryableError), ReleaseFailed(w, Answered), Dequeue(w, id, Answered)];
    Three(Next(stuckAfter), t, rest[0], rest[1], rest[2]);
    steps := first + rest;
    Concat(Next(stuckAfter), s, first, rest);
  }

  /** Two workers on one event: the delete of the second removes a row inserted
      after its dispatch returned. */
  lemma {:induction false} SecondDeleteDropsRow(stuckAfter: nat, s: State, v: nat, w: nat, id: EventId)
    returns (steps: seq<Step>)
    requires v < |s.workers| && w < |s.workers| && v != w && s.workers[v].Running? && s.workers[v].id == id
    requires s.workers[w].Busy() && s.workers[w].id == id
    requires s.workers[w].Returned? ==> Final(s.workers[w].outcome)
    ensures var t := Continue(stuckAfter, s, steps);
            id in t.accepted && id in t.owed && id !in t.table && t.workers == s.workers[v := Idle][w := Idle]
  {
    var first := [Return(w, Ok), Return(v, Ok), Complete(v, Answered)];
    Three(Next(stuckAfter), s, first[0], first[1], first[2]);
    var t := Continue(stuckAfter, s, first);
    assert id !in t.table && t.workers[w].Returned? && t.workers[w].id == id && Final(t.workers[w].outcome);
    assert t.workers == s.workers[v := Idle][w := t.workers[w]];
    var rest := [Enqueue(id, Answered), Complete(w, Answered)];
    Two(Next(stuckAfter), t, rest[0], rest[1]);
    steps := first + rest;
    Concat(Next(stuckAfter), s, first, rest);
  }

  /** So from every exclusive state with a late worker an accepted row can be lost
      without having been dispatched since it was inserted. */
  lemma {:induction false} LateCompleteDropsNewRow(stuckAfter: nat, s: State, v: nat, w: nat) returns (steps: seq<Step>)
    requires Exclusive(s) && v < |s.workers| && v != w && Late(stuckAfter, s, w)
    ensures var t, id := Continue(stuckAfter, s, steps), s.workers[w].id;
            && id in t.accepted && id in t.owed && id !in t.table
            && forall u :: 0 <= u < |t.workers| && (u == v || u == w) ==> t.workers[u].Idle?
  {
    var first;
    if s.workers[w].Returned? && !Final(s.workers[w].outcome) {
      first := LateReleaseRunsTwice(stuckAfter, s, v, w);
    } else {
      first := LateSweepRunsTwice(stuckAfter, s, v, w);
    }
    var rest := SecondDeleteDropsRow(stuckAfter, Continue(stuckAfter, s, first), v, w, s.workers[w].id);
    steps := first + rest;
    Concat(Next(stuckAfter), s, first, rest);
  }

  // ------------------------------------------------------------------- drain

  ghost predicate AllQueued(s: State) {
    forall id :: id in s.table ==> s.table[id].Queued?
  }

  /** One row worked off by worker 0. */
  lemma {:induction false} WorkOff(stuckAfter: nat, s: State, id: EventId) returns (steps: seq<Step>)
    requires |s.workers| > 0 && s.workers[0].Idle? && id in s.table && AllQueued(s)
    ensures var t := Continue(stuckAfter, s, steps);
            t.table == s.table - {id} && t.workers == s.workers && AllQueued(t)
  {
    steps := [Dequeue(0, id, Answered), Return(0, Ok), Complete(0, Answered)];
    Three(Next(stuckAfter), s, steps[0], steps[1], steps[2]);
    var t := Do(stuckAfter, s, steps[0]);
    assert t == SetWorker(s, 0, Running(id, s.now)).(table := s.table[id := Processing(s.now)]);
    var u := Do(stuckAfter, t, steps[1]);
    assert u.workers == s.workers[0 := Returned(id, s.now, Ok)] && u.table == t.table;
    var v := Do(stuckAfter, u, steps[2]);
    assert v.table == s.table - {id};
    assert v.workers == s.workers;
  }

  lemma {:induction false} WorkOffAll(stuckAfter: nat, s: State) returns (steps: seq<Step>)
    requires |s.workers| > 0 && s.workers[0].Idle? && AllQueued(s)
    ensures Continue(stuckAfter, s, steps).table == map[]
    decreases |s.table|
  {
    if s.table == map[] {
      steps := [];
    } else {
      var id :| id in s.table;
      var first := WorkOff(stuckAfter, s, id);
      var t := Continue(stuckAfter, s, first);
      assert t.table.Keys == s.table.Keys - {id};
      assert |t.table| == |t.table.Keys| && |s.table| == |s.table.Keys|;
      var rest := WorkOffAll(stuckAfter, t);
      steps := first + rest;
      Concat(Next(stuckAfter), s, first, rest);
    }
  }

  /** The queue never wedges: from whatever state crashes and failures led to,
      waiting for the sweeper lets one worker empty the table. */
  lemma {:induction false} AlwaysDrainable(stuckAfter: nat, s: State) returns (steps: seq<Step>)
    requires |s.workers| > 0
    requires forall id :: id in s.table && s.table[id].Processing? ==> s.table[id].lockedAt <= s.now
    ensures Continue(stuckAfter, s, steps).table == map[]
  {
    var first := [Crash(0), Tick(stuckAfter + 1), Sweep];
    Three(Next(stuckAfter), s, Crash(0), Tick(stuckAfter + 1), Sweep);
    var t := Continue(stuckAfter, s, first);
    assert AllQueued(t);
    var rest := WorkOffAll(stuckAfter, t);
    steps := first + rest;
    Concat(Next(stuckAfter), s, first, rest);
  }

  /** The side condition of AlwaysDrainable holds in every run. */
  lemma {:induction false} LocksAreOld(stuckAfter: nat, s: State, steps: seq<Step>)
    requires forall id :: id in s.table && s.table[id].Processing? ==> s.table[id].lockedAt <= s.now
    ensures var t := Continue(stuckAfter, s, steps);
            && |t.workers| == |s.workers|
            && forall id :: id in t.table && t.table[id].Processing? ==> t.table[id].lockedAt <= t.now
    decreases |steps|
  {
    if steps != [] { LocksAreOld(stuckAfter, Do(stuckAfter, s, steps[0]), steps[1..]); }
  }

  lemma {:induction false} RunIsDrainable(stuckAfter: nat, workers: nat, steps: seq<Step>) returns (more: seq<Step>)
    requires workers > 0
    ensures Run(stuckAfter, workers, steps + more).table == map[]
  {
    LocksAreOld(stuckAfter, Start(workers), steps);
    more := AlwaysDrainable(stuckAfter, Run(stuckAfter, workers, steps));
    Concat(Next(stuckAfter), Start(workers), steps, more);
  }
}
