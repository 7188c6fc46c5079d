/** The in-memory webhook queue: enqueuers, workers and Shutdown calls racing
    over a buffered channel, a `closed` flag and a read-write mutex. */
module WebhookMemoryQueue {
  import opened Options
  import opened Runs

  type Item = string

  /** An Enqueue call: waiting for the read lock, holding it before and after the
      look at `closed`, about to unlock, and gone.  A call that returns nil knows
      the place of its item in the order of sends. */
  datatype Enqueuer =
    | AskRead(item: Item) | HasRead(item: Item) | Looked(item: Item)
    | Unread(item: Item, place: Option<nat>) | Gone(item: Item, place: Option<nat>)
  {
    predicate Inside() { HasRead? || Looked? || Unread? }

    predicate Sent() { (Unread? || Gone?) && place.Some? }
  }

  /** A Shutdown call.  The call that closes the channel passes FlagClosed,
      ChannelClosed and Waiting, a later one leaves through TooLate; `first` tells
      them apart once they are back. */
  datatype Shutdown =
    | AskWrite | HasWrite | FlagClosed | ChannelClosed | TooLate | Waiting | Back(first: bool, ok: bool)
  {
    predicate Inside() { HasWrite? || FlagClosed? || ChannelClosed? || TooLate? }
  }

  /** `pos` is the item's place in the order of sends. */
  datatype Worker = Receiving | Dispatching(pos: nat, item: Item) | Exited

  /** `sent`, `received` and `finished` record what happened: all items sent, how
      many were received, and the places of those whose dispatch returned. */
  datatype State = State(
    ch: seq<Item>, chClosed: bool, closed: bool,
    enqueuers: seq<Enqueuer>, shutdowns: seq<Shutdown>, workers: seq<Worker>,
    sent: seq<Item>, received: nat, finished: set<nat>, panicked: bool)

  function Start(workers: nat): State {
    State([], false, false, [], [], seq(workers, _ => Receiving), [], 0, {}, false)
  }

  datatype Step =
    | CallEnqueue(item: Item)
    | RLock(e: nat) | Look(e: nat) | Send(e: nat) | Cancel(e: nat) | SeeClosed(e: nat) | RUnlock(e: nat)
    | CallShutdown
    | Lock(k: nat) | CloseFlag(k: nat) | CloseChannel(k: nat) | Release(k: nat) | Done(k: nat) | Expire(k: nat)
    | Receive(w: nat) | Finish(w: nat)

  predicate Writing(s: State) {
    exists k :: 0 <= k < |s.shutdowns| && s.shutdowns[k].Inside()
  }

  predicate Reading(s: State) {
    exists e :: 0 <= e < |s.enqueuers| && s.enqueuers[e].Inside()
  }

  predicate AllExited(s: State) {
    forall w :: 0 <= w < |s.workers| ==> s.workers[w].Exited?
  }

  function PutE(s: State, e: nat, x: Enqueuer): State
    requires e < |s.enqueuers|
  {
    s.(enqueuers := s.enqueuers[e := x])
  }

  function PutS(s: State, k: nat, x: Shutdown): State
    requires k < |s.shutdowns|
  {
    s.(shutdowns := s.shutdowns[k := x])
  }

  function PutW(s: State, w: nat, x: Worker): State
    requires w < |s.workers|
  {
    s.(workers := s.workers[w := x])
  }

  /** Steps of an Enqueue call.  The mutex admits readers only while no writer is
      inside; sending on a closed channel panics. */
  function DoEnqueue(capacity: nat, s: State, step: Step): State {
    match step
    case CallEnqueue(item) => s.(enqueuers := s.enqueuers + [AskRead(item)])
    case RLock(e) =>
      if e < |s.enqueuers| && s.enqueuers[e].AskRead? && !Writing(s)
      then PutE(s, e, HasRead(s.enqueuers[e].item)) else s
    case Look(e) =>
      if e < |s.enqueuers| && s.enqueuers[e].HasRead? then
        var item := s.enqueuers[e].item;
        PutE(s, e, if s.closed then Unread(item, None) else Looked(item))
      else s
    case Send(e) =>
      if !(e < |s.enqueuers| && s.enqueuers[e].Looked?) then s
      else if s.chClosed then s.(panicked := true)
      else if |s.ch| < capacity then
        var item := s.enqueuers[e].item;
        PutE(s, e, Unread(item, Some(|s.sent|))).(ch := s.ch + [item], sent := s.sent + [item])
      else s
    case Cancel(e) =>
      if e < |s.enqueuers| && s.enqueuers[e].Looked? then PutE(s, e, Unread(s.enqueuers[e].item, None)) else s
    case SeeClosed(e) =>
      if e < |s.enqueuers| && s.enqueuers[e].Looked? && s.closed
      then PutE(s, e, Unread(s.enqueuers[e].item, None)) else s
    case RUnlock(e) =>
      if e < |s.enqueuers| && s.enqueuers[e].Unread?
      then PutE(s, e, Gone(s.enqueuers[e].item, s.enqueuers[e].place)) else s
    case _ => s
  }

  /** Steps of a Shutdown call.  The mutex admits a writer only alone; closing a
      closed channel panics. */
  function DoShutdown(s: State, step: Step): State {
    match step
    case CallShutdown => s.(shutdowns := s.shutdowns + [AskWrite])
    case Lock(k) =>
      if k < |s.shutdowns| && s.shutdowns[k].AskWrite? && !Writing(s) && !Reading(s) then PutS(s, k, HasWrite) else s
    case CloseFlag(k) =>
      if !(k < |s.shutdowns| && s.shutdowns[k].HasWrite?) then s
      else if s.closed then PutS(s, k, TooLate)
      else PutS(s, k, FlagClosed).(closed := true)
    case CloseChannel(k) =>
      if !(k < |s.shutdowns| && s.shutdowns[k].FlagClosed?) then s
      else if s.chClosed then s.(panicked := true)
      else PutS(s, k, ChannelClosed).(chClosed := true)
    case Release(k) =>
      if k < |s.shutdowns| && s.shutdowns[k].ChannelClosed? then PutS(s, k, Waiting)
      else if k < |s.shutdowns| && s.shutdowns[k].TooLate? then PutS(s, k, Back(false, true))
      else s
    case Done(k) =>
      if k < |s.shutdowns| && s.shutdowns[k].Waiting? && AllExited(s) then PutS(s, k, Back(true, true)) else s
    case Expire(k) => if k < |s.shutdowns| && s.shutdowns[k].Waiting? then PutS(s, k, Back(true, false)) else s
    case _ => s
  }

  /** Steps of a worker; a failed dispatch is logged and counts as returned. */
  function DoWorker(s: State, step: Step): State {
    match step
    case Receive(w) =>
      if !(w < |s.workers| && s.workers[w].Receiving?) then s
      else if s.ch != [] then
        PutW(s, w, Dispatching(s.received, s.ch[0])).(ch := s.ch[1..], received := s.received + 1)
      else if s.chClosed then PutW(s, w, Exited)
      else s
    case Finish(w) =>
      if w < |s.workers| && s.workers[w].Dispatching? then
        PutW(s, w, Receiving).(finished := s.finished + {s.workers[w].pos})
      else s
    case _ => s
  }

  /** One step; a step that is not possible, or blocks, changes nothing. */
  function Do(capacity: nat, s: State, step: Step): State {
    if step.CallEnqueue? || step.RLock? || step.Look? || step.Send? || step.Cancel? || step.SeeClosed? || step.RUnlock?
    then DoEnqueue(capacity, s, step)
    else if step.Receive? || step.Finish? then DoWorker(s, step)
    else DoShutdown(s, step)
  }

  function Next(capacity: nat): (State, Step) -> State {
    (s: State, step: Step) => Do(capacity, s, step)
  }

  /** The state after further steps. */
  function Continue(capacity: nat, s: State, steps: seq<Step>): State {
    Play(Next(capacity), s, steps)
  }

  function Run(capacity: nat, workers: nat, steps: seq<Step>): State {
    Continue(capacity, Start(workers), steps)
  }

  // --------------------------------------------------------------- invariant

  /** The mutex: one writer, or readers. */
  ghost predicate MutexInv(es: seq<Enqueuer>, ss: seq<Shutdown>) {
    && (forall e, k :: 0 <= e < |es| && 0 <= k < |ss| ==> !(es[e].Inside() && ss[k].Inside()))
    && (forall j, k :: 0 <= j < k < |ss| ==> !(ss[j].Inside() && ss[k].Inside()))
  }

  /** The flag and the channel close together, under the write lock. */
  ghost predicate CloseInv(s: State) {
    && !s.panicked
    && (s.chClosed ==> s.closed)
    && (forall k :: 0 <= k < |s.shutdowns| && s.shutdowns[k].FlagClosed? ==> s.closed && !s.chClosed)
    && (forall k :: 0 <= k < |s.shutdowns| && (s.shutdowns[k].ChannelClosed? || s.shutdowns[k].Waiting?) ==> s.chClosed)
    && (forall e :: 0 <= e < |s.enqueuers| && s.enqueuers[e].Looked? ==> !s.closed)
  }

  /** The received item at place p is with a worker. */
  ghost predicate InHand(ws: seq<Worker>, p: nat) {
    exists w :: 0 <= w < |ws| && ws[w].Dispatching? && ws[w].pos == p
  }

  /** Items flow in order: the channel holds what was sent and not received, and
      each received item is with exactly one worker or finished. */
  ghost predicate FlowInv(s: State) {
    && s.received <= |s.sent| && s.ch == s.sent[s.received..]
    && (forall w :: 0 <= w < |s.workers| && s.workers[w].Dispatching? ==>
          && s.workers[w].pos < s.received && s.workers[w].item == s.sent[s.workers[w].pos]
          && s.workers[w].pos !in s.finished)
    && (forall v, w :: 0 <= v < w < |s.workers| && s.workers[v].Dispatching? && s.workers[w].Dispatching? ==>
          s.workers[v].pos != s.workers[w].pos)
    && (forall p :: p in s.finished ==> p < s.received)
    && (forall p :: 0 <= p < s.received && p !in s.finished ==> InHand(s.workers, p))
  }

  /** Every call that sent an item has a place of its own, with its item there. */
  ghost predicate PlaceInv(s: State) {
    && (forall e :: 0 <= e < |s.enqueuers| && s.enqueuers[e].Sent() ==>
          s.enqueuers[e].place.value < |s.sent| && s.sent[s.enqueuers[e].place.value] == s.enqueuers[e].item)
    && (forall d, e :: 0 <= d < e < |s.enqueuers| && s.enqueuers[d].Sent() && s.enqueuers[e].Sent() ==>
          s.enqueuers[d].place != s.enqueuers[e].place)
  }

  /** A worker, and the first Shutdown, leave only when nothing is left. */
  ghost predicate ExitInv(s: State) {
    && (forall w :: 0 <= w < |s.workers| && s.workers[w].Exited? ==> s.chClosed && s.ch == [])
    && (forall k :: 0 <= k < |s.shutdowns| && s.shutdowns[k] == Back(true, true) ==> AllExited(s))
  }

  ghost predicate Inv(s: State) {
    MutexInv(s.enqueuers, s.shutdowns) && CloseInv(s) && FlowInv(s) && PlaceInv(s) && ExitInv(s)
  }

  // ------------------------------------------------------------ preservation

  lemma {:induction false} EnqueueKeepsMutex(capacity: nat, s: State, step: Step)
    requires MutexInv(s.enqueuers, s.shutdowns)
    ensures MutexInv(DoEnqueue(capacity, s, step).enqueuers, DoEnqueue(capacity, s, step).shutdowns)
  {
  }

  lemma {:induction false} EnqueueKeepsClose(capacity: nat, s: State, step: Step)
    requires CloseInv(s) && ExitInv(s)
    ensures CloseInv(DoEnqueue(capacity, s, step)) && ExitInv(DoEnqueue(capacity, s, step))
  {
  }

  lemma {:induction false} EnqueueKeepsFlow(capacity: nat, s: State, step: Step)
    requires FlowInv(s)
    ensures FlowInv(DoEnqueue(capacity, s, step))
  {
    hide InHand;
  }

  lemma {:induction false} EnqueueKeepsPlaces(capacity: nat, s: State, step: Step)
    requires PlaceInv(s)
    ensures PlaceInv(DoEnqueue(capacity, s, step))
  {
    hide PlaceInv, Writing;
    var t := DoEnqueue(capacity, s, step);
    if t.sent != s.sent {
      SendKeepsPlaces(s, step.e);
    } else if t.enqueuers != s.enqueuers {
      if step.CallEnqueue? {
        ArrivalKeepsPlaces(s, t, step.item);
      } else {
        PutKeepsPlaces(s, t, step.e, t.enqueuers[step.e]);
      }
    } else {
      SamePlaces(s, t);
    }
  }

  lemma {:induction false} SamePlaces(s: State, t: State)
    requires PlaceInv(s) && t.enqueuers == s.enqueuers && t.sent == s.sent
    ensures PlaceInv(t)
  {
  }

  lemma {:induction false} ArrivalKeepsPlaces(s: State, t: State, item: Item)
    requires PlaceInv(s) && t.enqueuers == s.enqueuers + [AskRead(item)] && t.sent == s.sent
    ensures PlaceInv(t)
  {
  }

  /** Steps after the send keep the place; steps before it have none. */
  lemma {:induction false} PutKeepsPlaces(s: State, t: State, e: nat, x: Enqueuer)
    requires PlaceInv(s) && e < |s.enqueuers| && t.enqueuers == s.enqueuers[e := x] && t.sent == s.sent
    requires x.Sent() ==> s.enqueuers[e].Sent() && x.place == s.enqueuers[e].place && x.item == s.enqueuers[e].item
    ensures PlaceInv(t)
  {
  }

  lemma {:induction false} SendKeepsPlaces(s: State, e: nat)
    requires PlaceInv(s) && e < |s.enqueuers|
    ensures var item := s.enqueuers[e].item;
            PlaceInv(PutE(s, e, Unread(item, Some(|s.sent|))).(ch := s.ch + [item], sent := s.sent + [item]))
  {
  }

  lemma {:induction false} PutKeepsMutex(es: seq<Enqueuer>, ss: seq<Shutdown>, k: nat, x: Shutdown)
    requires MutexInv(es, ss) && k < |ss|
    requires x.Inside() ==>
               || ss[k].Inside()
               || ((forall e :: 0 <= e < |es| ==> !es[e].Inside()) && (forall j :: 0 <= j < |ss| ==> !ss[j].Inside()))
    ensures MutexInv(es, ss[k := x])
  {
  }

  lemma {:induction false} ShutdownKeepsMutex(s: State, step: Step)
    requires MutexInv(s.enqueuers, s.shutdowns)
    ensures MutexInv(DoShutdown(s, step).enqueuers, DoShutdown(s, step).shutdowns)
  {
    var t := DoShutdown(s, step);
    if !step.CallShutdown? && t.shutdowns != s.shutdowns {
      hide MutexInv;
      PutKeepsMutex(s.enqueuers, s.shutdowns, step.k, t.shutdowns[step.k]);
    }
  }

  lemma {:induction false} ShutdownKeepsClose(s: State, step: Step)
    requires MutexInv(s.enqueuers, s.shutdowns) && CloseInv(s)
    ensures CloseInv(DoShutdown(s, step))
  {
    hide Writing, Reading, AllExited;
  }

  lemma {:induction false} ShutdownKeepsExit(s: State, step: Step)
    requires ExitInv(s)
    ensures ExitInv(DoShutdown(s, step))
  {
    hide Writing, Reading;
  }

  lemma {:induction false} WorkerKeepsClose(s: State, step: Step)
    requires CloseInv(s) && ExitInv(s)
    ensures CloseInv(DoWorker(s, step)) && ExitInv(DoWorker(s, step))
  {
  }

  lemma {:induction false} ReceiveKeepsFlow(s: State, w: nat)
    requires FlowInv(s) && w < |s.workers| && s.workers[w].Receiving?
    ensures FlowInv(DoWorker(s, Receive(w)))
  {
    var t := DoWorker(s, Receive(w));
    if s.ch != [] {
      assert t.ch == s.sent[t.received..];
      assert s.ch[0] == s.sent[s.received];
    }
    forall p | 0 <= p < t.received && p !in t.finished ensures InHand(t.workers, p) {
      if p < s.received {
        var v :| 0 <= v < |s.workers| && s.workers[v].Dispatching? && s.workers[v].pos == p;
        assert t.workers[v] == s.workers[v];
      } else {
        assert t.workers[w].pos == p;
      }
    }
  }

  lemma {:induction false} FinishKeepsFlow(s: State, w: nat)
    requires FlowInv(s) && w < |s.workers| && s.workers[w].Dispatching?
    ensures FlowInv(DoWorker(s, Finish(w)))
  {
    var t := DoWorker(s, Finish(w));
    forall p | 0 <= p < t.received && p !in t.finished ensures InHand(t.workers, p) {
      var v :| 0 <= v < |s.workers| && s.workers[v].Dispatching? && s.workers[v].pos == p;
      assert t.workers[v] == s.workers[v];
    }
  }

  lemma {:induction false} WorkerKeepsFlow(s: State, step: Step)
    requires FlowInv(s)
    ensures FlowInv(DoWorker(s, step))
  {
    hide FlowInv;
    if step.Receive? && step.w < |s.workers| && s.workers[step.w].Receiving? {
      ReceiveKeepsFlow(s, step.w);
    } else if step.Finish? && step.w < |s.workers| && s.workers[step.w].Dispatching? {
      FinishKeepsFlow(s, step.w);
    }
  }

  lemma {:induction false} StepKeepsInv(capacity: nat, s: State, step: Step)
    requires Inv(s)
    ensures Inv(Do(capacity, s, step))
  {
    hide MutexInv, CloseInv, FlowInv, ExitInv, DoEnqueue, DoWorker, DoShutdown;
    EnqueueKeepsPlaces(capacity, s, step);
    OthersKeepPlaces(s, step);
    EnqueueKeepsMutex(capacity, s, step);
    EnqueueKeepsClose(capacity, s, step);
    EnqueueKeepsFlow(capacity, s, step);
    ShutdownKeepsMutex(s, step);
    ShutdownKeepsClose(s, step);
    ShutdownKeepsExit(s, step);
    ShutdownKeepsFlow(s, step);
    WorkerKeepsMutex(s, step);
    WorkerKeepsClose(s, step);
    WorkerKeepsFlow(s, step);
  }

  lemma {:induction false} ShutdownKeepsFlow(s: State, step: Step)
    requires FlowInv(s)
    ensures FlowInv(DoShutdown(s, step))
  {
    hide InHand;
  }

  lemma {:induction false} OthersKeepPlaces(s: State, step: Step)
    requires PlaceInv(s)
    ensures PlaceInv(DoShutdown(s, step)) && PlaceInv(DoWorker(s, step))
  {
    assert DoShutdown(s, step).enqueuers == s.enqueuers && DoShutdown(s, step).sent == s.sent;
    assert DoWorker(s, step).enqueuers == s.enqueuers && DoWorker(s, step).sent == s.sent;
  }

  lemma {:induction false} WorkerKeepsMutex(s: State, step: Step)
    requires MutexInv(s.enqueuers, s.shutdowns)
    ensures MutexInv(DoWorker(s, step).enqueuers, DoWorker(s, step).shutdowns)
  {
    hide MutexInv;
  }

  lemma {:induction false} ContinueKeepsInv(capacity: nat, s: State, steps: seq<Step>)
    requires Inv(s)
    ensures Inv(Continue(capacity, s, steps)) && |Continue(capacity, s, steps).workers| == |s.workers|
    decreases |steps|
  {
    hide Inv;
    if steps != [] {
      StepKeepsInv(capacity, s, steps[0]);
      ContinueKeepsInv(capacity, Do(capacity, s, steps[0]), steps[1..]);
    }
  }

  lemma {:induction false} RunKeepsInv(capacity: nat, workers: nat, steps: seq<Step>)
    ensures Inv(Run(capacity, workers, steps)) && |Run(capacity, workers, steps).workers| == workers
  {
    ContinueKeepsInv(capacity, Start(workers), steps);
  }

  // ----------------------------------------------------------- what it gives

  /** No interleaving sends on the closed channel or closes it twice. */
  lemma {:induction false} NeverPanics(capacity: nat, workers: nat, steps: seq<Step>)
    ensures !Run(capacity, workers, steps).panicked
  {
    RunKeepsInv(capacity, workers, steps);
  }

  /** An Enqueue call that returned nil has its item at a place of its own, and
      that place is still in the channel, or with one worker, or finished, and
      only one of these. */
  lemma {:induction false} ExactlyOnce(capacity: nat, workers: nat, steps: seq<Step>, e: nat)
    requires e < |Run(capacity, workers, steps).enqueuers| && Run(capacity, workers, steps).enqueuers[e].Gone?
    requires Run(capacity, workers, steps).enqueuers[e].place.Some?
    ensures var s := Run(capacity, workers, steps);
            var p := s.enqueuers[e].place.value;
            && p < |s.sent| && s.sent[p] == s.enqueuers[e].item
            && (forall d :: 0 <= d < |s.enqueuers| && d != e && s.enqueuers[d].Sent() ==>
                  s.enqueuers[d].place != Some(p))
            && OnePlace(s, p)
  {
    RunKeepsInv(capacity, workers, steps);
    var s := Run(capacity, workers, steps);
    var p := s.enqueuers[e].place.value;
    forall d | 0 <= d < |s.enqueuers| && d != e && s.enqueuers[d].Sent() ensures s.enqueuers[d].place != Some(p) {
      assert s.enqueuers[e].Sent();
    }
  }

  /** Waiting, in the hands of one worker, or finished. */
  ghost predicate OnePlace(s: State, p: nat)
    requires p < |s.sent|
  {
    if p >= s.received then
      |s.ch| == |s.sent| - s.received && s.ch[p - s.received] == s.sent[p] && !InHand(s.workers, p) && p !in s.finished
    else
      && (p in s.finished <==> !InHand(s.workers, p))
      && forall v, w :: 0 <= v < w < |s.workers| && s.workers[v].Dispatching? && s.workers[w].Dispatching? ==>
           s.workers[v].pos != p || s.workers[w].pos != p
  }

  /** When the first Shutdown returns nil, every item ever sent has been
      dispatched. */
  lemma {:induction false} FirstShutdownDrains(capacity: nat, workers: nat, steps: seq<Step>, k: nat)
    requires workers > 0 && k < |Run(capacity, workers, steps).shutdowns|
    requires Run(capacity, workers, steps).shutdowns[k] == Back(true, true)
    ensures var s := Run(capacity, workers, steps);
            s.ch == [] && forall p :: p in s.finished <==> 0 <= p < |s.sent|
  {
    RunKeepsInv(capacity, workers, steps);
    var s := Run(capacity, workers, steps);
    assert s.workers[0].Exited?;
    assert forall p :: 0 <= p < s.received ==> !InHand(s.workers, p);
  }

  // ---------------------------------------------------------------- shutdown

  function Weight(w: Worker): nat {
    match w
    case Exited => 0
    case Receiving => 1
    case Dispatching(_, _) => 2
  }

  function TotalWeight(ws: seq<Worker>): nat {
    if ws == [] then 0 else Weight(ws[0]) + TotalWeight(ws[1..])
  }

  lemma {:induction false} WeightAfter(ws: seq<Worker>, w: nat, x: Worker)
    requires w < |ws|
    ensures TotalWeight(ws[w := x]) + Weight(ws[w]) == TotalWeight(ws) + Weight(x)
  {
    if w == 0 {
      assert ws[0 := x][1..] == ws[1..];
    } else {
      WeightAfter(ws[1..], w - 1, x);
      assert ws[w := x][1..] == ws[1..][w - 1 := x];
    }
  }

  /** The work left until all workers have exited. */
  function WorkLeft(s: State): nat {
    2 * |s.ch| + TotalWeight(s.workers)
  }

  /** The next step of a worker. */
  function Move(s: State, w: nat): Step
    requires w < |s.workers|
  {
    if s.workers[w].Dispatching? then Finish(w) else Receive(w)
  }

  /** Once the channel is closed, every worker that has not exited can move, and
      every move leaves less work. */
  lemma {:induction false} MovesAreProgress(capacity: nat, s: State, w: nat)
    requires s.chClosed && w < |s.workers| && !s.workers[w].Exited?
    ensures WorkLeft(Do(capacity, s, Move(s, w))) < WorkLeft(s)
    ensures Do(capacity, s, Move(s, w)).chClosed
  {
    var t := Do(capacity, s, Move(s, w));
    assert t.workers == s.workers[w := t.workers[w]];
    WeightAfter(s.workers, w, t.workers[w]);
  }

  /** So from any state with the channel closed the workers reach their end, by
      their own moves alone. */
  lemma {:induction false} WorkersExit(capacity: nat, s: State) returns (steps: seq<Step>)
    requires s.chClosed
    ensures AllExited(Continue(capacity, s, steps))
    ensures Continue(capacity, s, steps).shutdowns == s.shutdowns
    decreases WorkLeft(s)
  {
    if AllExited(s) {
      steps := [];
    } else {
      var w :| 0 <= w < |s.workers| && !s.workers[w].Exited?;
      MovesAreProgress(capacity, s, w);
      var rest := WorkersExit(capacity, Do(capacity, s, Move(s, w)));
      steps := [Move(s, w)] + rest;
    }
  }

  /** And with them the Shutdown that waits returns nil. */
  lemma {:induction false} ShutdownReturns(capacity: nat, workers: nat, steps: seq<Step>, k: nat)
    returns (more: seq<Step>)
    requires k < |Run(capacity, workers, steps).shutdowns| && Run(capacity, workers, steps).shutdowns[k].Waiting?
    ensures var t := Run(capacity, workers, steps + more);
            k < |t.shutdowns| && t.shutdowns[k] == Back(true, true)
  {
    hide Play;
    var s := Run(capacity, workers, steps);
    RunKeepsInv(capacity, workers, steps);
    var rest := WorkersExit(capacity, s);
    var t := Continue(capacity, s, rest);
    more := rest + [Done(k)];
    Concat(Next(capacity), s, rest, [Done(k)]);
    One(Next(capacity), t, Done(k));
    Concat(Next(capacity), Start(workers), steps, more);
  }

  // ------------------------------------------------------------ single calls

  lemma {:induction false} RunMore(capacity: nat, workers: nat, steps: seq<Step>, step: Step)
    ensures Run(capacity, workers, steps + [step]) == Do(capacity, Run(capacity, workers, steps), step)
  {
    Concat(Next(capacity), Start(workers), steps, [step]);
    One(Next(capacity), Run(capacity, workers, steps), step);
  }

  lemma {:induction false} RunNothing(capacity: nat, workers: nat)
    ensures Run(capacity, workers, []) == Start(workers)
  {
  }

  /** How Enqueue call e got where it is: in the order lock, look, send, unlock, and
      without a place only because the queue is closed or its context ended. */
  ghost predicate EnqueueExplained(x: Enqueuer, e: nat, closed: bool, steps: seq<Step>) {
    && CallEnqueue(x.item) in steps
    && (!x.AskRead? ==> RLock(e) in steps)
    && (x.Looked? || x.Unread? || x.Gone? ==> Look(e) in steps)
    && (x.Unread? || x.Gone? ==> if x.place.Some? then Send(e) in steps else closed || Cancel(e) in steps)
    && (x.Gone? ==> RUnlock(e) in steps)
  }

  /** How Shutdown call k got where it is; the first one back with an error has
      waited too long, a later one never returns an error. */
  ghost predicate ShutdownExplained(x: Shutdown, k: nat, steps: seq<Step>) {
    && (!x.AskWrite? ==> Lock(k) in steps)
    && (!x.AskWrite? && !x.HasWrite? ==> CloseFlag(k) in steps)
    && (x.ChannelClosed? || x.Waiting? || (x.Back? && x.first) ==> CloseChannel(k) in steps)
    && (x.Waiting? || x.Back? ==> Release(k) in steps)
    && (x.Back? && x.first ==> if x.ok then Done(k) in steps else Expire(k) in steps)
    && (x.Back? && !x.first ==> x.ok)
  }

  ghost predicate Explained(s: State, steps: seq<Step>) {
    && (forall e :: 0 <= e < |s.enqueuers| ==> EnqueueExplained(s.enqueuers[e], e, s.closed, steps))
    && (forall k :: 0 <= k < |s.shutdowns| ==> ShutdownExplained(s.shutdowns[k], k, steps))
    && (s.closed ==> exists k :: CloseFlag(k) in steps)
  }

  /** Every call runs its program, in every run: no lock without a Lock step, no item
      sent without a look at the flag, no return without an unlock. */
  lemma {:induction false} CallsAreExplained(capacity: nat, workers: nat, steps: seq<Step>)
    ensures Explained(Run(capacity, workers, steps), steps)
  {
    hide Run;
    if steps == [] {
      RunNothing(capacity, workers);
    } else {
      var n := |steps| - 1;
      var init := steps[..n];
      assert steps == init + [steps[n]];
      RunMore(capacity, workers, init, steps[n]);
      CallsAreExplained(capacity, workers, init);
      StepIsExplained(capacity, Run(capacity, workers, init), init, steps[n]);
    }
  }

  lemma {:induction false} StepIsExplained(capacity: nat, s: State, steps: seq<Step>, step: Step)
    requires Explained(s, steps)
    ensures Explained(Do(capacity, s, step), steps + [step])
  {
    hide EnqueueExplained, ShutdownExplained;
    var t, all := Do(capacity, s, step), steps + [step];
    assert forall x :: x in steps ==> x in all;
    assert step in all;
    forall e | 0 <= e < |t.enqueuers| ensures EnqueueExplained(t.enqueuers[e], e, t.closed, all) {
      EnqueuerIsExplained(capacity, s, steps, step, e);
    }
    forall k | 0 <= k < |t.shutdowns| ensures ShutdownExplained(t.shutdowns[k], k, all) {
      ShutdownIsExplained(capacity, s, steps, step, k);
    }
    if s.closed {
      var k :| CloseFlag(k) in steps;
      assert CloseFlag(k) in all;
    } else if t.closed {
      assert CloseFlag(step.k) in all;
    }
  }

  lemma {:induction false} EnqueuerIsExplained(capacity: nat, s: State, steps: seq<Step>, step: Step, e: nat)
    requires e < |s.enqueuers| ==> EnqueueExplained(s.enqueuers[e], e, s.closed, steps)
    requires e < |Do(capacity, s, step).enqueuers|
    ensures EnqueueExplained(Do(capacity, s, step).enqueuers[e], e, Do(capacity, s, step).closed, steps + [step])
  {
    hide Reading, Writing, AllExited;
    assert forall x :: x in steps ==> x in steps + [step];
    assert step in steps + [step];
  }

  lemma {:induction false} ShutdownIsExplained(capacity: nat, s: State, steps: seq<Step>, step: Step, k: nat)
    requires k < |s.shutdowns| ==> ShutdownExplained(s.shutdowns[k], k, steps)
    requires k < |Do(capacity, s, step).shutdowns|
    ensures ShutdownExplained(Do(capacity, s, step).shutdowns[k], k, steps + [step])
  {
    hide Reading, Writing, AllExited;
    assert forall x :: x in steps ==> x in steps + [step];
    assert step in steps + [step];
  }

  /** The mutex, said about the places of the calls: while a Shutdown is anywhere
      between its lock and its release, no Enqueue is between its own, and no other
      Shutdown. */
  lemma {:induction false} WriterIsAlone(capacity: nat, workers: nat, steps: seq<Step>, k: nat)
    requires k < |Run(capacity, workers, steps).shutdowns|
    requires Run(capacity, workers, steps).shutdowns[k] in {HasWrite, FlagClosed, ChannelClosed, TooLate}
    ensures var s := Run(capacity, workers, steps);
            && (forall e :: 0 <= e < |s.enqueuers| ==> s.enqueuers[e].AskRead? || s.enqueuers[e].Gone?)
            && forall j :: 0 <= j < |s.shutdowns| && j != k ==>
                 s.shutdowns[j].AskWrite? || s.shutdowns[j].Waiting? || s.shutdowns[j].Back?
  {
    RunKeepsInv(capacity, workers, steps);
  }

  /** The channel never holds more than its capacity. */
  lemma {:induction false} NeverOverfull(capacity: nat, workers: nat, steps: seq<Step>)
    ensures |Run(capacity, workers, steps).ch| <= capacity
  {
    hide Run;
    if steps == [] {
      RunNothing(capacity, workers);
    } else {
      var n := |steps| - 1;
      assert steps == steps[..n] + [steps[n]];
      RunMore(capacity, workers, steps[..n], steps[n]);
      NeverOverfull(capacity, workers, steps[..n]);
    }
  }

  /** Once the flag is closed nothing more is sent, ever. */
  lemma {:induction false} NothingSentAfterClose(capacity: nat, s: State, steps: seq<Step>)
    requires Inv(s) && s.closed
    ensures Continue(capacity, s, steps).closed && Continue(capacity, s, steps).sent == s.sent
    decreases |steps|
  {
    hide MutexInv, FlowInv, PlaceInv, ExitInv;
    if steps != [] {
      StepKeepsInv(capacity, s, steps[0]);
      NothingSentAfterClose(capacity, Do(capacity, s, steps[0]), steps[1..]);
    }
  }

  /** An open queue with room takes an item: the call returns nil with the item last
      in the channel. */
  lemma {:induction false} OpenQueueAccepts(capacity: nat, s: State, item: Item)
    requires !s.closed && !s.chClosed && !Writing(s) && |s.ch| < capacity
    ensures var e := |s.enqueuers|;
            var t := Continue(capacity, s, [CallEnqueue(item), RLock(e)] + [Look(e), Send(e), RUnlock(e)]);
            && t.enqueuers == s.enqueuers + [Gone(item, Some(|s.sent|))]
            && t.ch == s.ch + [item] && t.sent == s.sent + [item] && t.panicked == s.panicked
  {
    hide Play, DoShutdown, DoWorker, Writing;
    var e := |s.enqueuers|;
    Concat(Next(capacity), s, [CallEnqueue(item), RLock(e)], [Look(e), Send(e), RUnlock(e)]);
    ReadsWhenFree(capacity, s, item);
    var u := s.(enqueuers := s.enqueuers + [HasRead(item)]);
    Three(Next(capacity), u, Look(e), Send(e), RUnlock(e));
  }

  lemma {:induction false} ReadsWhenFree(capacity: nat, s: State, item: Item)
    requires !Writing(s)
    ensures Continue(capacity, s, [CallEnqueue(item), RLock(|s.enqueuers|)])
         == s.(enqueuers := s.enqueuers + [HasRead(item)])
  {
    hide Play;
    var e := |s.enqueuers|;
    Two(Next(capacity), s, CallEnqueue(item), RLock(e));
    var t := Do(capacity, s, CallEnqueue(item));
    assert !Writing(t);
  }

  /** A full one makes the call wait, until its context ends. */
  lemma {:induction false} FullQueueWaits(capacity: nat, s: State, e: nat)
    requires e < |s.enqueuers| && s.enqueuers[e].Looked? && !s.chClosed && |s.ch| >= capacity
    ensures Do(capacity, s, Send(e)) == s
    ensures Do(capacity, s, Cancel(e)) == s.(enqueuers := s.enqueuers[e := Unread(s.enqueuers[e].item, None)])
    ensures !s.closed ==> Do(capacity, s, SeeClosed(e)) == s
  {
  }

  /** A closed one turns it away. */
  lemma {:induction false} ClosedQueueRefuses(capacity: nat, s: State, item: Item)
    requires s.closed && !Writing(s)
    ensures var e := |s.enqueuers|;
            var t := Continue(capacity, s, [CallEnqueue(item), RLock(e)] + [Look(e), RUnlock(e)]);
            t == s.(enqueuers := s.enqueuers + [Gone(item, None)])
  {
    hide Play, DoShutdown, DoWorker, Writing;
    var e := |s.enqueuers|;
    Concat(Next(capacity), s, [CallEnqueue(item), RLock(e)], [Look(e), RUnlock(e)]);
    ReadsWhenFree(capacity, s, item);
    var u := s.(enqueuers := s.enqueuers + [HasRead(item)]);
    Two(Next(capacity), u, Look(e), RUnlock(e));
  }

  /** A Shutdown whose context ends while workers are busy returns an error and
      leaves them to it. */
  lemma {:induction false} ShutdownGivesUp(capacity: nat, s: State, k: nat)
    requires k < |s.shutdowns| && s.shutdowns[k].Waiting?
    ensures Do(capacity, s, Expire(k)) == s.(shutdowns := s.shutdowns[k := Back(true, false)])
    ensures Do(capacity, s, Done(k)) != s <==> forall w :: 0 <= w < |s.workers| ==> s.workers[w].Exited?
  {
  }

  /** What NeverPanics excludes: a send on the closed channel, and a second close. */
  lemma {:induction false} WouldPanic(capacity: nat, s: State, e: nat, k: nat)
    requires s.chClosed
    ensures e < |s.enqueuers| && s.enqueuers[e].Looked? ==> Do(capacity, s, Send(e)).panicked
    ensures k < |s.shutdowns| && s.shutdowns[k].FlagClosed? ==> Do(capacity, s, CloseChannel(k)).panicked
  {
  }

  // ---------------------------------------------------------- later Shutdowns

  /** What a later Shutdown does not wait for. */
  predicate SameWork(s: State, t: State) {
    t.ch == s.ch && t.workers == s.workers && t.sent == s.sent && t.received == s.received && t.finished == s.finished
  }

  /** Once the flag is closed a reader that is inside leaves without sending. */
  lemma {:induction false} ReaderLeaves(capacity: nat, s: State, e: nat)
    requires Inv(s) && s.closed && e < |s.enqueuers|
    ensures var t := Continue(capacity, s, [Look(e), RUnlock(e)]);
            && Inv(t) && t.closed && SameWork(s, t) && t.shutdowns == s.shutdowns
            && |t.enqueuers| == |s.enqueuers| && !t.enqueuers[e].Inside()
            && forall d :: 0 <= d < |s.enqueuers| && d != e ==> t.enqueuers[d] == s.enqueuers[d]
  {
    hide Play, MutexInv, FlowInv, PlaceInv, ExitInv;
    var u := Do(capacity, s, Look(e));
    StepKeepsInv(capacity, s, Look(e));
    StepKeepsInv(capacity, u, RUnlock(e));
    Two(Next(capacity), s, Look(e), RUnlock(e));
  }

  lemma {:induction false} ReadersLeave(capacity: nat, s: State, e: nat) returns (steps: seq<Step>)
    requires Inv(s) && s.closed && e <= |s.enqueuers|
    requires forall d :: 0 <= d < e ==> !s.enqueuers[d].Inside()
    ensures var t := Continue(capacity, s, steps);
            Inv(t) && t.closed && SameWork(s, t) && t.shutdowns == s.shutdowns && !Reading(t)
    decreases |s.enqueuers| - e
  {
    hide Play, Inv;
    if e == |s.enqueuers| {
      steps := [];
      assert Continue(capacity, s, []) == s by { Nothing(Next(capacity), s); }
    } else {
      ReaderLeaves(capacity, s, e);
      var first := [Look(e), RUnlock(e)];
      var rest := ReadersLeave(capacity, Continue(capacity, s, first), e + 1);
      steps := first + rest;
      Concat(Next(capacity), s, first, rest);
    }
  }

  /** And so does a writer, having closed the channel if that was its part. */
  lemma {:induction false} WriterLeaves(capacity: nat, s: State, k: nat)
    requires Inv(s) && s.closed && k < |s.shutdowns|
    ensures var t := Continue(capacity, s, [CloseFlag(k), CloseChannel(k), Release(k)]);
            && Inv(t) && t.closed && SameWork(s, t) && t.enqueuers == s.enqueuers
            && |t.shutdowns| == |s.shutdowns| && !t.shutdowns[k].Inside()
            && forall j :: 0 <= j < |s.shutdowns| && j != k ==> t.shutdowns[j] == s.shutdowns[j]
  {
    hide Play, MutexInv, FlowInv, PlaceInv, ExitInv, AllExited;
    var u := Do(capacity, s, CloseFlag(k));
    var v := Do(capacity, u, CloseChannel(k));
    StepKeepsInv(capacity, s, CloseFlag(k));
    StepKeepsInv(capacity, u, CloseChannel(k));
    StepKeepsInv(capacity, v, Release(k));
    Three(Next(capacity), s, CloseFlag(k), CloseChannel(k), Release(k));
  }

  lemma {:induction false} WritersLeave(capacity: nat, s: State, k: nat) returns (steps: seq<Step>)
    requires Inv(s) && s.closed && k <= |s.shutdowns| && !Reading(s)
    requires forall j :: 0 <= j < k ==> !s.shutdowns[j].Inside()
    ensures var t := Continue(capacity, s, steps);
            Inv(t) && t.closed && SameWork(s, t) && |t.shutdowns| == |s.shutdowns| && !Reading(t) && !Writing(t)
    decreases |s.shutdowns| - k
  {
    hide Play, Inv;
    if k == |s.shutdowns| {
      steps := [];
      assert Continue(capacity, s, []) == s by { Nothing(Next(capacity), s); }
    } else {
      WriterLeaves(capacity, s, k);
      var first := [CloseFlag(k), CloseChannel(k), Release(k)];
      var rest := WritersLeave(capacity, Continue(capacity, s, first), k + 1);
      steps := first + rest;
      Concat(Next(capacity), s, first, rest);
    }
  }

  lemma {:induction false} LocksWhenFree(capacity: nat, s: State)
    requires !Reading(s) && !Writing(s)
    ensures Continue(capacity, s, [CallShutdown, Lock(|s.shutdowns|)]) == s.(shutdowns := s.shutdowns + [HasWrite])
  {
    hide Play;
    var k := |s.shutdowns|;
    Two(Next(capacity), s, CallShutdown, Lock(k));
    var t := Do(capacity, s, CallShutdown);
    assert !Writing(t) && !Reading(t);
  }

  lemma {:induction false} ShutdownPassesThrough(capacity: nat, s: State)
    requires s.closed && !Reading(s) && !Writing(s)
    ensures var k := |s.shutdowns|;
            var t := Continue(capacity, s, [CallShutdown, Lock(k)] + [CloseFlag(k), Release(k)]);
            SameWork(s, t) && t.shutdowns == s.shutdowns + [Back(false, true)]
  {
    hide Play, DoEnqueue, DoWorker, Reading, Writing;
    var k := |s.shutdowns|;
    Concat(Next(capacity), s, [CallShutdown, Lock(k)], [CloseFlag(k), Release(k)]);
    LocksWhenFree(capacity, s);
    var u := s.(shutdowns := s.shutdowns + [HasWrite]);
    Two(Next(capacity), u, CloseFlag(k), Release(k));
  }

  /** The first Shutdown closes queue and flag with all work still there, so the
      items a later one leaves behind may be any. */
  lemma {:induction false} FirstShutdownCloses(capacity: nat, s: State)
    requires !s.closed && !s.chClosed && !Reading(s) && !Writing(s)
    ensures var k := |s.shutdowns|;
            var t := Continue(capacity, s, [CallShutdown, Lock(k)] + [CloseFlag(k), CloseChannel(k), Release(k)]);
            SameWork(s, t) && t.closed && t.shutdowns == s.shutdowns + [Waiting]
  {
    hide Play, DoEnqueue, DoWorker, Reading, Writing;
    var k := |s.shutdowns|;
    Concat(Next(capacity), s, [CallShutdown, Lock(k)], [CloseFlag(k), CloseChannel(k), Release(k)]);
    LocksWhenFree(capacity, s);
    var u := s.(shutdowns := s.shutdowns + [HasWrite]);
    Three(Next(capacity), u, CloseFlag(k), CloseChannel(k), Release(k));
  }

  /** Later Shutdown calls promise less, in every run: once the flag is closed, a
      further call can return nil with the channel, the workers and the dispatched
      items exactly as they are, however much is left to do. */
  lemma {:induction false} LaterShutdownReturnsAtOnce(capacity: nat, workers: nat, steps: seq<Step>)
    returns (more: seq<Step>)
    requires Run(capacity, workers, steps).closed
    ensures var s, t := Run(capacity, workers, steps), Run(capacity, workers, steps + more);
            && SameWork(s, t) && |t.shutdowns| == |s.shutdowns| + 1
            && t.shutdowns[|s.shutdowns|] == Back(false, true)
  {
    hide Play;
    var s := Run(capacity, workers, steps);
    RunKeepsInv(capacity, workers, steps);
    var a := ReadersLeave(capacity, s, 0);
    var t := Continue(capacity, s, a);
    var b := WritersLeave(capacity, t, 0);
    var u := Continue(capacity, t, b);
    var k := |u.shutdowns|;
    var c := [CallShutdown, Lock(k)] + [CloseFlag(k), Release(k)];
    ShutdownPassesThrough(capacity, u);
    more := a + b + c;
    Concat(Next(capacity), s, a, b);
    Concat(Next(capacity), s, a + b, c);
    Concat(Next(capacity), Start(workers), steps, more);
  }
}
