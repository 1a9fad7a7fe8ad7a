/** Event delivery (process_event and publish_event in wfe/src/host.rs) as a system of atomic steps. One consumer
    works through the event queue; publishers, subscribers and the holders of workflow locks run beside it.
    Every call to a store, a queue or the lock provider is one step, and may fail. */
module EventDelivery {
  import opened Prelude

  type EventId = string
  type SubId = string
  type WorkflowId = string

  datatype Event = Event(name: string, key: string, data: string, time: nat)

  /** A subscription; its rows never change, except that it may be terminated. */
  datatype Subscription = Subscription(workflow: WorkflowId, pointer: string, name: string, key: string, asOf: nat)

  datatype Pointer = Pointer(
    id: string, waiting: bool, data: Option<string>, published: bool, active: bool, rest: string)

  datatype Instance = Instance(pointers: seq<Pointer>, next: Option<int>, rest: string)

  datatype Holder = Consumer | Other(n: nat)

  /** What the consumer does next for one subscription. */
  datatype Stage = Acquire | Load | Persist(copy: Instance) | Wake | Terminate | Release(failed: bool)

  datatype Worker =
    | Idle
    | Taken(e: EventId)
    | Delivering(e: EventId, subs: seq<SubId>, i: nat, stage: Stage)
    | Requeueing(e: EventId)

  datatype Delivery = Delivery(sub: SubId, e: EventId)

  /** The last four fields are history: what was persisted for which subscription, whose workflow was queued
      again, which events a failed call left behind, and which subscriptions a failed call left delivered but open. */
  datatype State = State(
    events: map<EventId, Event>,
    processed: set<EventId>,
    queue: seq<EventId>,
    publishing: set<EventId>,
    subs: map<SubId, Subscription>,
    terminated: set<SubId>,
    instances: map<WorkflowId, Instance>,
    locks: map<WorkflowId, Holder>,
    worker: Worker,
    log: seq<Delivery>,
    woken: set<SubId>,
    dropped: set<EventId>,
    exposed: set<SubId>)

  datatype Action =
    | Create(e: EventId, event: Event)            // publisher stores a new event
    | Enqueue(e: EventId)                         // publisher queues it
    | EnqueueFails(e: EventId)
    | Subscribe(id: SubId, sub: Subscription)
    | Start(w: WorkflowId, instance: Instance)
    | OtherLock(n: nat, w: WorkflowId)
    | OtherPersist(n: nat, w: WorkflowId, instance: Instance)
    | OtherUnlock(n: nat, w: WorkflowId)
    | Dequeue
    | List(found: seq<SubId>)                     // get_event, get_subscriptions; rows come in any order
    | Lock
    | LockRefused
    | Requeue
    | Read
    | Write
    | QueueWorkflow
    | Retire
    | Unlock
    | Mark
    | Fail                                        // the consumer's next call fails, without effect

  /** The rows get_subscriptions selects. */
  function Open(s: State, event: Event): set<SubId> {
    set id | id in s.subs && id !in s.terminated && Matches(s.subs[id], event)
  }

  predicate Matches(sub: Subscription, event: Event) {
    sub.name == event.name && sub.key == event.key && sub.asOf <= event.time
  }

  /** The loop over the execution pointers. */
  function Signalled(p: Pointer, id: string, data: string): Pointer {
    if p.id == id && p.waiting then p.(data := Some(data), published := true, active := true) else p
  }

  /** Only waiting pointers of that id change, all of them do, and none changes its identity or its waiting. */
  function SignalAll(ps: seq<Pointer>, id: string, data: string): (r: seq<Pointer>)
    ensures |r| == |ps|
    ensures forall i :: 0 <= i < |ps| && r[i] != ps[i] ==> ps[i].id == id && ps[i].waiting
    ensures forall i :: 0 <= i < |ps| && ps[i].id == id && ps[i].waiting ==>
              r[i].data == Some(data) && r[i].published && r[i].active
    ensures forall i :: 0 <= i < |ps| ==>
              r[i].id == ps[i].id && r[i].waiting == ps[i].waiting && r[i].rest == ps[i].rest
  {
    seq(|ps|, i requires 0 <= i < |ps| => Signalled(ps[i], id, data))
  }

  function Delivered(inst: Instance, id: string, data: string): Instance {
    inst.(pointers := SignalAll(inst.pointers, id, data), next := Some(0))
  }

  /** The worker stands at a stage of a subscription that exists. */
  predicate At(s: State) {
    s.worker.Delivering? && s.worker.i < |s.worker.subs| && s.worker.subs[s.worker.i] in s.subs
  }

  function Current(s: State): SubId
    requires At(s)
  {
    s.worker.subs[s.worker.i]
  }

  function Target(s: State): WorkflowId
    requires At(s)
  {
    s.subs[Current(s)].workflow
  }

  predicate AtStage(s: State, stage: Stage) { At(s) && s.worker.stage == stage }

  predicate HeldBy(s: State, w: WorkflowId, h: Holder) { w in s.locks && s.locks[w] == h }

  ghost predicate Enabled(s: State, a: Action) {
    match a
    case Create(e, _) => e !in s.events
    case Enqueue(e) => e in s.publishing
    case EnqueueFails(e) => e in s.publishing
    case Subscribe(id, _) => id !in s.subs
    case Start(w, _) => w !in s.instances
    case OtherLock(_, w) => w !in s.locks
    case OtherPersist(n, w, _) => HeldBy(s, w, Other(n))
    case OtherUnlock(n, w) => HeldBy(s, w, Other(n))
    case Dequeue => s.worker.Idle? && s.queue != []
    case List(found) =>
      s.worker.Taken? && s.worker.e in s.events && NoDup(found) && Elems(found) == Open(s, s.events[s.worker.e])
    case Lock => AtStage(s, Acquire) && Target(s) !in s.locks
    case LockRefused => AtStage(s, Acquire) && Target(s) in s.locks
    case Requeue => s.worker.Requeueing?
    case Read => AtStage(s, Load) && Target(s) in s.instances
    case Write => At(s) && s.worker.stage.Persist? && s.worker.e in s.events
    case QueueWorkflow => AtStage(s, Wake)
    case Retire => AtStage(s, Terminate)
    case Unlock => At(s) && s.worker.stage.Release?
    case Mark => s.worker.Delivering? && s.worker.i == |s.worker.subs|
    case Fail => !s.worker.Idle?
  }

  function Advance(w: Worker, stage: Stage): Worker
    requires w.Delivering?
  {
    w.(stage := stage)
  }

  /** After a failed call: the lock, once taken, is still released; the event is not queued again. */
  function AfterFailure(w: Worker): Worker {
    if w.Delivering? && w.i < |w.subs| && !w.stage.Acquire? && !w.stage.Release?
    then Advance(w, Release(true)) else Idle
  }

  function WorkerAfter(s: State, a: Action): Worker
    requires Enabled(s, a)
  {
    match a
    case Dequeue => Taken(s.queue[0])
    case List(found) => Delivering(s.worker.e, found, 0, Acquire)
    case Lock => Advance(s.worker, Load)
    case LockRefused => Requeueing(s.worker.e)
    case Requeue => Idle
    case Read => Advance(s.worker, Persist(s.instances[Target(s)]))
    case Write => Advance(s.worker, Wake)
    case QueueWorkflow => Advance(s.worker, Terminate)
    case Retire => Advance(s.worker, Release(false))
    case Unlock =>
      if s.worker.stage.failed then Idle
      else Delivering(s.worker.e, s.worker.subs, s.worker.i + 1, Acquire)
    case Mark => Idle
    case Fail => AfterFailure(s.worker)
    case _ => s.worker
  }

  function QueueAfter(s: State, a: Action): seq<EventId>
    requires Enabled(s, a)
  {
    match a
    case Enqueue(e) => s.queue + [e]
    case Dequeue => s.queue[1..]
    case Requeue => s.queue + [s.worker.e]
    case _ => s.queue
  }

  function PublishingAfter(s: State, a: Action): set<EventId> {
    match a
    case Create(e, _) => s.publishing + {e}
    case Enqueue(e) => s.publishing - {e}
    case EnqueueFails(e) => s.publishing - {e}
    case _ => s.publishing
  }

  function InstancesAfter(s: State, a: Action): map<WorkflowId, Instance>
    requires Enabled(s, a)
  {
    match a
    case Start(w, instance) => s.instances[w := instance]
    case OtherPersist(_, w, instance) => s.instances[w := instance]
    case Write =>
      var data := s.events[s.worker.e].data;
      s.instances[Target(s) := Delivered(s.worker.stage.copy, s.subs[Current(s)].pointer, data)]
    case _ => s.instances
  }

  function LocksAfter(s: State, a: Action): map<WorkflowId, Holder>
    requires Enabled(s, a)
  {
    match a
    case OtherLock(n, w) => s.locks[w := Other(n)]
    case OtherUnlock(_, w) => s.locks - {w}
    case Lock => s.locks[Target(s) := Consumer]
    case Unlock => s.locks - {Target(s)}
    case _ => s.locks
  }

  function LogAfter(s: State, a: Action): seq<Delivery>
    requires Enabled(s, a)
  {
    if a.Write? then s.log + [Delivery(Current(s), s.worker.e)] else s.log
  }

  /** An event whose pass or whose publication ends in an error. */
  function DroppedAfter(s: State, a: Action): set<EventId>
    requires Enabled(s, a)
  {
    match a
    case EnqueueFails(e) => s.dropped + {e}
    case Fail => if AfterFailure(s.worker).Idle? then s.dropped + {s.worker.e} else s.dropped
    case Unlock => if s.worker.stage.failed then s.dropped + {s.worker.e} else s.dropped
    case _ => s.dropped
  }

  function ExposedAfter(s: State, a: Action): set<SubId>
    requires Enabled(s, a)
  {
    if a.Fail? && (AtStage(s, Wake) || AtStage(s, Terminate)) then s.exposed + {Current(s)} else s.exposed
  }

  function Effect(s: State, a: Action): State
    requires Enabled(s, a)
  {
    State(
      if a.Create? then s.events[a.e := a.event] else s.events,
      if a.Mark? then s.processed + {s.worker.e} else s.processed,
      QueueAfter(s, a),
      PublishingAfter(s, a),
      if a.Subscribe? then s.subs[a.id := a.sub] else s.subs,
      if a.Retire? then s.terminated + {Current(s)} else s.terminated,
      InstancesAfter(s, a),
      LocksAfter(s, a),
      WorkerAfter(s, a),
      LogAfter(s, a),
      if a.QueueWorkflow? then s.woken + {Current(s)} else s.woken,
      DroppedAfter(s, a),
      ExposedAfter(s, a))
  }

  ghost predicate Step(s: State, a: Action, t: State) { Enabled(s, a) && t == Effect(s, a) }

  predicate Failing(a: Action) { a.Fail? || a.EnqueueFails? }

  // ---- Conservation of events ----

  function One(b: bool): nat { if b then 1 else 0 }

  /** How often an event occurs among all the places an event can be. */
  function Places(s: State, e: EventId): nat {
    One(e in s.processed) + multiset(s.queue)[e] + One(e in s.publishing)
    + One(InHand(s.worker, e)) + One(e in s.dropped)
  }

  predicate InHand(w: Worker, e: EventId) { !w.Idle? && w.e == e }

  /** Every stored event is in exactly one place, exactly once. */
  ghost predicate Conserved(s: State) { forall e :: Places(s, e) == One(e in s.events) }

  lemma {:induction false} QueueCounts(s: State, a: Action, e: EventId)
    requires Enabled(s, a)
    ensures multiset(QueueAfter(s, a))[e] + One(a.Dequeue? && s.queue[0] == e)
         == multiset(s.queue)[e] + One(a == Enqueue(e)) + One(a.Requeue? && s.worker.e == e)
  {
    if a.Dequeue? { assert s.queue == [s.queue[0]] + s.queue[1..]; }
  }

  lemma {:induction false} StepConserves(s: State, a: Action, t: State)
    requires Step(s, a, t) && Conserved(s)
    ensures Conserved(t)
  {
    forall e ensures Places(t, e) == One(e in t.events) {
      assert Places(s, e) == One(e in s.events);
      QueueCounts(s, a, e);
    }
  }

  // ---- The pass over the subscriptions ----

  predicate Holding(w: Worker) { w.Delivering? && !w.stage.Acquire? }

  /** The consumer has the lock of the workflow it works on, and what it loaded is still what is stored. */
  predicate Protected(s: State) {
    && (Holding(s.worker) ==> At(s) && HeldBy(s, Target(s), Consumer))
    && (Holding(s.worker) && s.worker.stage.Persist? ==>
          Target(s) in s.instances && s.instances[Target(s)] == s.worker.stage.copy)
  }

  ghost predicate GoodList(s: State) {
    s.worker.Delivering? ==>
      && s.worker.i <= |s.worker.subs|
      && NoDup(s.worker.subs)
      && (forall id :: id in s.worker.subs ==> id in s.subs)
  }

  predicate Used(log: seq<Delivery>, id: SubId) { exists k :: 0 <= k < |log| && log[k].sub == id }

  /** The subscription persisted for but not yet terminated. */
  predicate InWindow(s: State, id: SubId) {
    At(s) && (s.worker.stage.Wake? || s.worker.stage.Terminate?) && Current(s) == id
  }

  /** The first position of the list whose subscription the pass has not used. */
  function FirstUnused(w: Worker): nat
    requires w.Delivering?
  {
    if w.stage.Acquire? || w.stage.Load? || w.stage.Persist? then w.i else w.i + 1
  }

  /** A used subscription is terminated, unless a failed call left it open or the consumer is about to do it. */
  predicate Settled(s: State, id: SubId) {
    Used(s.log, id) ==> id in s.terminated || id in s.exposed || InWindow(s, id)
  }

  /** A terminated subscription was used, and its workflow queued again before that. */
  predicate Honest(s: State, id: SubId) {
    && (id in s.terminated ==> id in s.subs && Used(s.log, id) && id in s.woken)
    && (AtStage(s, Terminate) && Current(s) == id ==> id in s.woken)
    && (InWindow(s, id) ==> Delivery(id, s.worker.e) in s.log)
  }

  ghost predicate AllSettled(s: State) { forall id :: Settled(s, id) && Honest(s, id) }

  predicate Unused(s: State, k: nat)
    requires s.worker.Delivering? && k < |s.worker.subs|
  {
    var id := s.worker.subs[k];
    id !in s.terminated && (Used(s.log, id) ==> id in s.exposed)
  }

  predicate Completed(s: State, k: nat)
    requires s.worker.Delivering? && k < |s.worker.subs|
  {
    var id := s.worker.subs[k];
    id in s.terminated && Delivery(id, s.worker.e) in s.log
  }

  /** How many subscriptions of the list the pass has terminated. */
  function Done(w: Worker): nat
    requires w.Delivering?
  {
    if w.stage == Release(false) then w.i + 1 else w.i
  }

  /** The list splits into subscriptions the pass has terminated and subscriptions nobody has used yet. */
  ghost predicate OnCourse(s: State) {
    s.worker.Delivering? ==>
      && (forall k :: 0 <= k < |s.worker.subs| && k < Done(s.worker) ==> Completed(s, k))
      && (forall k :: FirstUnused(s.worker) <= k < |s.worker.subs| ==> Unused(s, k))
      && (s.worker.i < |s.worker.subs| && (s.worker.stage.Wake? || s.worker.stage.Terminate?) ==>
            s.worker.subs[s.worker.i] !in s.terminated)
  }

  /** No subscription is used twice, except one that a failed call left open. */
  ghost predicate AtMostOnce(s: State) {
    forall k, l :: 0 <= k < l < |s.log| && s.log[k].sub == s.log[l].sub ==> s.log[k].sub in s.exposed
  }

  ghost predicate Safe(s: State) {
    Conserved(s) && Protected(s) && GoodList(s) && AllSettled(s) && OnCourse(s) && AtMostOnce(s)
  }

  lemma {:induction false} StepProtects(s: State, a: Action, t: State)
    requires Step(s, a, t) && Protected(s)
    ensures Protected(t)
  {
  }

  lemma {:induction false} StepKeepsList(s: State, a: Action, t: State)
    requires Step(s, a, t) && GoodList(s)
    ensures GoodList(t)
  {
    if a.List? {
      forall id | id in t.worker.subs ensures id in t.subs {
        assert id in Elems(a.found);
      }
    }
  }

  lemma {:induction false} UsedAfter(s: State, a: Action, id: SubId)
    requires Enabled(s, a)
    ensures Used(LogAfter(s, a), id) <==> Used(s.log, id) || (a.Write? && Current(s) == id)
  {
    if a.Write? {
      var log := LogAfter(s, a);
      assert log[|s.log|].sub == Current(s);
      if Used(s.log, id) {
        var k :| 0 <= k < |s.log| && s.log[k].sub == id;
        assert log[k].sub == id;
      }
    }
  }

  lemma {:induction false} StepSettles(s: State, a: Action, t: State, id: SubId)
    requires Step(s, a, t) && GoodList(s) && Settled(s, id)
    ensures Settled(t, id)
  {
    UsedAfter(s, a, id);
  }

  lemma {:induction false} StepKeepsHonest(s: State, a: Action, t: State, id: SubId)
    requires Step(s, a, t) && GoodList(s) && Honest(s, id)
    ensures Honest(t, id)
  {
    UsedAfter(s, a, id);
    if InWindow(s, id) && a.Retire? {
      var k :| 0 <= k < |s.log| && s.log[k] == Delivery(id, s.worker.e);
      assert s.log[k].sub == id;
    }
  }

  lemma {:induction false} ListIsUnused(s: State, a: Action, t: State, k: nat)
    requires Step(s, a, t) && AllSettled(s) && a.List? && k < |t.worker.subs|
    ensures Unused(t, k)
  {
    assert a.found[k] in Elems(a.found);
    assert Settled(s, a.found[k]);
  }

  lemma {:induction false} StepKeepsCompleted(s: State, a: Action, t: State, k: nat)
    requires Step(s, a, t) && GoodList(s) && AllSettled(s) && OnCourse(s)
    requires s.worker.Delivering? && t.worker.Delivering? && k < |t.worker.subs| && k < Done(t.worker)
    ensures Completed(t, k)
  {
    assert t.worker.subs == s.worker.subs && t.worker.e == s.worker.e;
    if k < Done(s.worker) {
      assert Completed(s, k);
    } else {
      assert Honest(s, Current(s));
    }
  }

  lemma {:induction false} StepKeepsUnused(s: State, a: Action, t: State, k: nat)
    requires Step(s, a, t) && GoodList(s) && OnCourse(s)
    requires s.worker.Delivering? && t.worker.Delivering? && FirstUnused(t.worker) <= k < |t.worker.subs|
    ensures Unused(t, k)
  {
    assert t.worker.subs == s.worker.subs;
    assert Unused(s, k);
    UsedAfter(s, a, s.worker.subs[k]);
  }

  lemma {:induction false} StepKeepsCourse(s: State, a: Action, t: State)
    requires Step(s, a, t) && GoodList(s) && AllSettled(s) && OnCourse(s)
    ensures OnCourse(t)
  {
    if t.worker.Delivering? {
      forall k | 0 <= k < |t.worker.subs| && k < Done(t.worker) ensures Completed(t, k) {
        StepKeepsCompleted(s, a, t, k);
      }
      forall k | FirstUnused(t.worker) <= k < |t.worker.subs| ensures Unused(t, k) {
        if a.List? { ListIsUnused(s, a, t, k); } else { StepKeepsUnused(s, a, t, k); }
      }
      if a.Write? { assert Unused(s, s.worker.i); }
    }
  }

  lemma {:induction false} StepUsesOnce(s: State, a: Action, t: State)
    requires Step(s, a, t) && OnCourse(s) && AtMostOnce(s)
    ensures AtMostOnce(t)
  {
    forall k, l | 0 <= k < l < |t.log| && t.log[k].sub == t.log[l].sub ensures t.log[k].sub in t.exposed {
      if l < |s.log| {
        assert s.log[k].sub == s.log[l].sub;
      } else {
        assert Unused(s, s.worker.i);
        assert s.log[k].sub == Current(s);
      }
    }
  }

  lemma {:induction false} StepKeepsSafe(s: State, a: Action, t: State)
    requires Step(s, a, t) && Safe(s)
    ensures Safe(t)
  {
    StepConserves(s, a, t);
    StepProtects(s, a, t);
    StepKeepsList(s, a, t);
    forall id ensures Settled(t, id) && Honest(t, id) {
      assert Settled(s, id) && Honest(s, id);
      StepSettles(s, a, t, id);
      StepKeepsHonest(s, a, t, id);
    }
    StepKeepsCourse(s, a, t);
    StepUsesOnce(s, a, t);
  }

  // ---- Whole runs ----

  const INITIAL := State(map[], {}, [], {}, map[], {}, map[], map[], Idle, [], {}, {}, {})

  ghost predicate IsRun(states: seq<State>, actions: seq<Action>) {
    && |states| == |actions| + 1 && states[0] == INITIAL
    && forall k :: 0 <= k < |actions| ==> Step(states[k], actions[k], states[k + 1])
  }

  /** Over every run, failures included: each stored event is in exactly one place, the consumer's copy is the
      stored instance, and a subscription is used twice only if a failed call left it open. */
  lemma {:induction false} SafeOverRuns(states: seq<State>, actions: seq<Action>, n: nat)
    requires IsRun(states, actions) && n < |states|
    ensures Safe(states[n])
  {
    if n > 0 {
      SafeOverRuns(states, actions, n - 1);
      StepKeepsSafe(states[n - 1], actions[n - 1], states[n]);
    }
  }

  ghost predicate ErrorFree(actions: seq<Action>) { forall k :: 0 <= k < |actions| ==> !Failing(actions[k]) }

  lemma {:induction false} NothingLost(states: seq<State>, actions: seq<Action>, n: nat)
    requires IsRun(states, actions) && ErrorFree(actions) && n < |states|
    ensures states[n].dropped == {} && states[n].exposed == {}
    ensures states[n].worker.Delivering? ==> states[n].worker.stage != Release(true)
  {
    if n > 0 {
      NothingLost(states, actions, n - 1);
      assert Step(states[n - 1], actions[n - 1], states[n]);
    }
  }

  /** Without errors: an event is processed, queued once, with its publisher or with the consumer, and in only one
      of these; and no subscription is used by two events, or twice by one. */
  lemma {:induction false} ErrorFreeRuns(states: seq<State>, actions: seq<Action>, n: nat)
    requires IsRun(states, actions) && ErrorFree(actions) && n < |states|
    ensures var s := states[n];
            && (forall e :: e in s.events ==>
                  One(e in s.processed) + multiset(s.queue)[e] + One(e in s.publishing) + One(InHand(s.worker, e)) == 1)
            && forall k, l :: 0 <= k < l < |s.log| ==> s.log[k].sub != s.log[l].sub
  {
    SafeOverRuns(states, actions, n);
    NothingLost(states, actions, n);
    forall e | e in states[n].events
      ensures One(e in states[n].processed) + multiset(states[n].queue)[e] + One(e in states[n].publishing)
            + One(InHand(states[n].worker, e)) == 1
    {
      assert Places(states[n], e) == 1;
    }
  }

  /** No update is lost: what the consumer writes is what is stored at that moment, with the event's data on the
      waiting pointer and the workflow due at once; nobody else's instance changes. */
  lemma {:induction false} WriteAppliesToStored(s: State, t: State)
    requires Safe(s) && Step(s, Write, t)
    ensures Target(s) in s.instances && t.instances.Keys == s.instances.Keys
    ensures forall w :: w in s.instances && w != Target(s) ==> t.instances[w] == s.instances[w]
    ensures var before, after := s.instances[Target(s)], t.instances[Target(s)];
            && after.next == Some(0) && after.rest == before.rest
            && after.pointers == SignalAll(before.pointers, s.subs[Current(s)].pointer, s.events[s.worker.e].data)
    ensures Current(s) !in s.terminated && HeldBy(s, Target(s), Consumer)
  {
    assert Unused(s, s.worker.i);
  }

  predicate SamePass(v: Worker, w: Worker) { v.Delivering? && w.Delivering? && v.e == w.e && v.subs == w.subs }

  /** Action `m` is the listing of the pass that the worker is in at `n`. */
  ghost predicate IsListing(states: seq<State>, actions: seq<Action>, m: nat, n: nat)
    requires |states| == |actions| + 1 && n < |states|
  {
    && m < n && states[n].worker.Delivering?
    && actions[m] == List(states[n].worker.subs) && states[m].worker == Taken(states[n].worker.e)
    && forall j :: m < j <= n ==> SamePass(states[j].worker, states[n].worker)
  }

  lemma {:induction false} ListingGoesOn(states: seq<State>, actions: seq<Action>, m: nat, n: nat)
    requires |states| == |actions| + 1 && 0 < n < |states|
    requires IsListing(states, actions, m, n - 1) && SamePass(states[n - 1].worker, states[n].worker)
    ensures IsListing(states, actions, m, n)
  {
    forall j | m < j <= n ensures SamePass(states[j].worker, states[n].worker) {
      if j < n { assert SamePass(states[j].worker, states[n - 1].worker); }
    }
  }

  /** The pass a worker is in began with a listing; since then subscriptions were only added, and only those
      of the list were terminated. */
  lemma {:induction false} PassOf(states: seq<State>, actions: seq<Action>, n: nat) returns (m: nat)
    requires IsRun(states, actions) && n < |states| && states[n].worker.Delivering?
    ensures IsListing(states, actions, m, n)
    ensures states[m].worker.e in states[m].events && states[n].worker.e in states[n].events
    ensures states[m].events[states[n].worker.e] == states[n].events[states[n].worker.e]
    ensures forall id :: id in states[m].subs ==> id in states[n].subs && states[n].subs[id] == states[m].subs[id]
    ensures forall id :: id in states[n].terminated ==> id in states[m].terminated || id in states[n].worker.subs
    ensures states[m].terminated <= states[n].terminated
  {
    var s, a, t := states[n - 1], actions[n - 1], states[n];
    assert Step(s, a, t);
    if a.List? {
      m := n - 1;
    } else {
      m := PassOf(states, actions, n - 1);
      ListingGoesOn(states, actions, m, n);
    }
  }

  /** When an event is marked processed, every subscription open for it at the pass's listing has received it, had
      its workflow queued and been terminated; the subscriptions still open for it are exactly the later ones. */
  lemma {:induction false} MarkedExactly(states: seq<State>, actions: seq<Action>, n: nat) returns (m: nat)
    requires IsRun(states, actions) && n < |actions| && actions[n] == Mark
    ensures IsListing(states, actions, m, n) && states[m].worker.e in states[m].events
    ensures var e, s, t := states[m].worker.e, states[m], states[n]; var event := s.events[e];
            && (forall id :: (id in s.subs && id !in s.terminated && s.subs[id].name == event.name
                              && s.subs[id].key == event.key && s.subs[id].asOf <= event.time) ==>
                  Delivery(id, e) in t.log && id in t.woken && id in t.terminated)
            && (forall id :: (id in t.subs && t.subs[id].name == event.name && t.subs[id].key == event.key
                              && t.subs[id].asOf <= event.time) ==>
                  (id !in t.terminated <==> id !in s.subs))
  {
    assert Step(states[n], Mark, states[n + 1]);
    m := PassOf(states, actions, n);
    SafeOverRuns(states, actions, n);
    SafeOverRuns(states, actions, m);
    assert Step(states[m], actions[m], states[m + 1]);
    var e := states[m].worker.e;
    var event := states[m].events[e];
    forall id | id in Open(states[m], event)
      ensures Delivery(id, e) in states[n].log && id in states[n].woken && id in states[n].terminated
    {
      ListedIsCompleted(states[n], id);
    }
    assert forall id :: id in states[m].subs && id !in states[m].terminated && Matches(states[m].subs[id], event) ==>
             id in Open(states[m], event);
    LeftOpen(states[m], states[n], event);
  }

  lemma {:induction false} ListedIsCompleted(s: State, id: SubId)
    requires Safe(s) && s.worker.Delivering? && s.worker.i == |s.worker.subs| && id in Elems(s.worker.subs)
    ensures Delivery(id, s.worker.e) in s.log && id in s.woken && id in s.terminated
  {
    var k :| 0 <= k < |s.worker.subs| && s.worker.subs[k] == id;
    assert Completed(s, k);
    assert Honest(s, id);
  }

  lemma {:induction false} LeftOpen(s: State, t: State, event: Event)
    requires Safe(s) && Safe(t) && t.worker.Delivering? && t.worker.i == |t.worker.subs|
    requires Elems(t.worker.subs) == Open(s, event)
    requires forall id :: id in s.subs ==> id in t.subs && t.subs[id] == s.subs[id]
    requires forall id :: id in t.terminated ==> id in s.terminated || id in t.worker.subs
    requires s.terminated <= t.terminated
    ensures forall id :: id in t.subs && Matches(t.subs[id], event) ==> (id !in t.terminated <==> id !in s.subs)
  {
    assert forall id :: id in t.worker.subs <==> id in Open(s, event);
    forall id | id in t.subs && Matches(t.subs[id], event) ensures id in t.terminated <==> id in s.subs {
      if id in s.subs {
        if id !in s.terminated {
          assert id in Open(s, event);
          ListedIsCompleted(t, id);
        }
      } else {
        assert Honest(s, id);
      }
    }
  }

  /** A processed event never reaches the consumer again, so a subscription that came after the listing misses it. */
  lemma {:induction false} ProcessedIsFinal(states: seq<State>, actions: seq<Action>, m: nat, n: nat, e: EventId)
    requires IsRun(states, actions) && m <= n < |states| && e in states[m].processed
    ensures e in states[n].processed && !InHand(states[n].worker, e) && e !in states[n].queue
  {
    SafeOverRuns(states, actions, n);
    if m < n {
      ProcessedIsFinal(states, actions, m, n - 1, e);
      assert Step(states[n - 1], actions[n - 1], states[n]);
    }
    assert Places(states[n], e) <= 1;
  }

  // ---- Which subscriptions an event uses ----

  /** Over every run: an event uses only subscriptions of its own name and key, made no later than the event. */
  lemma {:induction false} UsesMatch(states: seq<State>, actions: seq<Action>, n: nat, k: nat)
    requires IsRun(states, actions) && n < |states| && k < |states[n].log|
    ensures var s, id, e := states[n], states[n].log[k].sub, states[n].log[k].e;
            && id in s.subs && e in s.events
            && s.subs[id].name == s.events[e].name && s.subs[id].key == s.events[e].key
            && s.subs[id].asOf <= s.events[e].time
    decreases n
  {
    var s, a, t := states[n - 1], actions[n - 1], states[n];
    assert Step(s, a, t);
    if k < |s.log| {
      UsesMatch(states, actions, n - 1, k);
    } else {
      var m := PassOf(states, actions, n - 1);
      assert Step(states[m], actions[m], states[m + 1]);
      assert Current(s) in Elems(s.worker.subs);
      assert Current(s) in Open(states[m], states[m].events[states[m].worker.e]);
    }
  }

  // ---- Subscriptions that come too late ----

  /** Uses are of subscriptions that exist. */
  lemma {:induction false} UsesAreKnown(states: seq<State>, actions: seq<Action>, n: nat, k: nat)
    requires IsRun(states, actions) && n < |states| && k < |states[n].log|
    ensures states[n].log[k].sub in states[n].subs
    decreases n
  {
    var s, a, t := states[n - 1], actions[n - 1], states[n];
    assert Step(s, a, t);
    if k < |s.log| { UsesAreKnown(states, actions, n - 1, k); }
  }

  /** The step adds no use of the subscription by the event. */
  predicate Spares(s: State, a: Action, d: Delivery) {
    !(a.Write? && At(s) && Current(s) == d.sub && s.worker.e == d.e)
  }

  lemma {:induction false} SparedStaysUnused(s: State, a: Action, t: State, d: Delivery)
    requires Step(s, a, t) && d !in s.log && Spares(s, a, d)
    ensures d !in t.log
  {
    assert t.log == LogAfter(s, a);
  }

  /** During the pass only subscriptions of its list are used, and after it the event is never in hand. */
  lemma {:induction false} LaterIsSpared(states: seq<State>, actions: seq<Action>, m: nat, n: nat, j: nat, id: SubId)
    requires IsRun(states, actions) && n < |actions| && actions[n] == Mark && IsListing(states, actions, m, n)
    requires m <= j < |actions| && id !in states[m].subs
    ensures Spares(states[j], actions[j], Delivery(id, states[n].worker.e))
  {
    if n < j {
      assert Step(states[n], Mark, states[n + 1]);
      ProcessedIsFinal(states, actions, n + 1, j, states[n].worker.e);
    } else if m < j {
      assert SamePass(states[j].worker, states[n].worker);
      assert Step(states[m], actions[m], states[m + 1]);
      var found := states[n].worker.subs;
      assert Elems(found) == Open(states[m], states[m].events[states[m].worker.e]);
      assert At(states[j]) ==> Current(states[j]) in Elems(found);
    }
  }

  /** A subscription that is not yet there at the listing of the pass that marks an event processed never gets it. */
  lemma {:induction false} LateSubscriptionMisses(
      states: seq<State>, actions: seq<Action>, m: nat, n: nat, k: nat, id: SubId)
    requires IsRun(states, actions) && n < |actions| && actions[n] == Mark && IsListing(states, actions, m, n)
    requires id !in states[m].subs && m <= k < |states|
    ensures Delivery(id, states[n].worker.e) !in states[k].log
    decreases k
  {
    var d := Delivery(id, states[n].worker.e);
    if k == m {
      forall l | 0 <= l < |states[m].log| ensures states[m].log[l] != d { UsesAreKnown(states, actions, m, l); }
    } else {
      LateSubscriptionMisses(states, actions, m, n, k - 1, id);
      LaterIsSpared(states, actions, m, n, k - 1, id);
      SparedStaysUnused(states[k - 1], actions[k - 1], states[k], d);
    }
  }
}
