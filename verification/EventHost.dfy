/** One uninterrupted call of process_event (wfe/src/host.rs:656-716), proved to be a path of the step system of
    EventDelivery and to do what that function is for. */
module EventHost {
  import opened Prelude
  import opened EventDelivery

  datatype Failure = EventNotFound(e: EventId) | WorkflowNotFound(w: WorkflowId)

  /** Where a sequence of actions leads. */
  ghost function Reach(s: State, path: seq<Action>): Option<State> {
    if path == [] then Some(s)
    else
      var a := path[|path| - 1];
      match Reach(s, path[..|path| - 1])
      case None => None
      case Some(m) => if Enabled(m, a) then Some(Effect(m, a)) else None
  }

  ghost predicate Leads(s: State, path: seq<Action>, t: State) { Reach(s, path) == Some(t) }

  lemma {:induction false} Extend(s: State, path: seq<Action>, m: State, a: Action, t: State)
    requires Leads(s, path, m) && Step(m, a, t)
    ensures Leads(s, path + [a], t)
  {
    assert (path + [a])[..|path|] == path;
  }

  /** Every such path keeps the invariant of the step system. */
  lemma {:induction false} PathKeepsSafe(s: State, path: seq<Action>, t: State)
    requires Safe(s) && Leads(s, path, t)
    ensures Safe(t)
    decreases |path|
  {
    if path != [] {
      var front := path[..|path| - 1];
      PathKeepsSafe(s, front, Reach(s, front).value);
      StepKeepsSafe(Reach(s, front).value, path[|path| - 1], t);
    }
  }

  ghost predicate NoFailure(path: seq<Action>) { Fail !in path }

  /** The worker is about to ask for the lock of a workflow that nobody holds. */
  predicate Ready(s: State) { AtStage(s, Acquire) && s.worker.e in s.events && Target(s) !in s.locks }

  function Locked(s: State, stage: Stage): State
    requires At(s)
  {
    s.(locks := s.locks[Target(s) := Consumer], worker := Advance(s.worker, stage))
  }

  /** The state after the whole treatment of the current subscription: the instance signalled, the subscription
      terminated, the lock free again. */
  function Served(s: State): State
    requires Ready(s) && Target(s) in s.instances
  {
    var signalled := Delivered(s.instances[Target(s)], s.subs[Current(s)].pointer, s.events[s.worker.e].data);
    s.(instances := s.instances[Target(s) := signalled],
       terminated := s.terminated + {Current(s)},
       worker := Delivering(s.worker.e, s.worker.subs, s.worker.i + 1, Acquire),
       log := s.log + [Delivery(Current(s), s.worker.e)],
       woken := s.woken + {Current(s)})
  }

  function Abandoned(s: State): State
    requires !s.worker.Idle?
  {
    s.(worker := Idle, dropped := s.dropped + {s.worker.e})
  }

  function Written(s: State): State
    requires At(s) && s.worker.stage.Persist? && s.worker.e in s.events
  {
    s.(instances := s.instances[Target(s) :=
         Delivered(s.worker.stage.copy, s.subs[Current(s)].pointer, s.events[s.worker.e].data)],
       log := s.log + [Delivery(Current(s), s.worker.e)], worker := Advance(s.worker, Wake))
  }

  function Woken(s: State): State
    requires At(s)
  {
    s.(woken := s.woken + {Current(s)}, worker := Advance(s.worker, Terminate))
  }

  function Retired(s: State): State
    requires At(s)
  {
    s.(terminated := s.terminated + {Current(s)}, worker := Advance(s.worker, Release(false)))
  }

  function Unlocked(s: State): State
    requires At(s)
  {
    s.(locks := s.locks - {Target(s)}, worker := Delivering(s.worker.e, s.worker.subs, s.worker.i + 1, Acquire))
  }

  lemma {:induction false} FirstSteps(s: State)
    requires Ready(s)
    ensures Step(s, Lock, Locked(s, Load))
    ensures Target(s) in s.instances ==> Step(Locked(s, Load), Read, Locked(s, Persist(s.instances[Target(s)])))
  {
  }

  lemma {:induction false} FailingSteps(s: State)
    requires Ready(s)
    ensures Step(Locked(s, Load), Fail, Locked(s, Release(true)))
    ensures Step(Locked(s, Release(true)), Unlock, Abandoned(s))
  {
    assert s.locks[Target(s) := Consumer] - {Target(s)} == s.locks;
  }

  lemma {:induction false} MiddleSteps(s: State)
    requires At(s) && s.worker.e in s.events
    ensures s.worker.stage.Persist? ==> Step(s, Write, Written(s))
    ensures s.worker.stage.Wake? ==> Step(s, QueueWorkflow, Woken(s))
  {
  }

  lemma {:induction false} LastSteps(s: State)
    requires At(s)
    ensures s.worker.stage.Terminate? ==> Step(s, Retire, Retired(s))
    ensures s.worker.stage == Release(false) ==> Step(s, Unlock, Unlocked(s))
  {
  }

  const SERVE := [Lock, Read, Write, QueueWorkflow, Retire, Unlock]

  const ABANDON := [Lock, Fail, Unlock]

  lemma {:induction false} ServeFirstHalf(start: State, path: seq<Action>, s: State)
    requires Leads(start, path, s) && Ready(s) && Target(s) in s.instances
    ensures Leads(start, path + [Lock] + [Read] + [Write], Written(Locked(s, Persist(s.instances[Target(s)]))))
  {
    FirstSteps(s);
    var s1, s2 := Locked(s, Load), Locked(s, Persist(s.instances[Target(s)]));
    Extend(start, path, s, Lock, s1);
    Extend(start, path + [Lock], s1, Read, s2);
    MiddleSteps(s2);
    Extend(start, path + [Lock] + [Read], s2, Write, Written(s2));
  }

  lemma {:induction false} ServeSecondHalf(start: State, path: seq<Action>, s: State)
    requires Leads(start, path, s) && At(s) && s.worker.e in s.events && s.worker.stage.Wake?
    ensures Leads(start, path + [QueueWorkflow] + [Retire] + [Unlock], Unlocked(Retired(Woken(s))))
  {
    MiddleSteps(s);
    Extend(start, path, s, QueueWorkflow, Woken(s));
    LastSteps(Woken(s));
    Extend(start, path + [QueueWorkflow], Woken(s), Retire, Retired(Woken(s)));
    LastSteps(Retired(Woken(s)));
    Extend(start, path + [QueueWorkflow] + [Retire], Retired(Woken(s)), Unlock, Unlocked(Retired(Woken(s))));
  }

  lemma {:induction false} HalvesMeet(s: State)
    requires Ready(s) && Target(s) in s.instances
    ensures Unlocked(Retired(Woken(Written(Locked(s, Persist(s.instances[Target(s)])))))) == Served(s)
  {
    assert s.locks[Target(s) := Consumer] - {Target(s)} == s.locks;
  }

  lemma {:induction false} Serve(start: State, path: seq<Action>, s: State)
    requires Leads(start, path, s) && Ready(s) && Target(s) in s.instances
    ensures Leads(start, path + SERVE, Served(s))
  {
    var half := Written(Locked(s, Persist(s.instances[Target(s)])));
    ServeFirstHalf(start, path, s);
    ServeSecondHalf(start, path + [Lock] + [Read] + [Write], half);
    assert path + [Lock] + [Read] + [Write] + [QueueWorkflow] + [Retire] + [Unlock] == path + SERVE;
    HalvesMeet(s);
  }

  lemma {:induction false} Abandon(start: State, path: seq<Action>, s: State)
    requires Leads(start, path, s) && Ready(s)
    ensures Leads(start, path + ABANDON, Abandoned(s))
  {
    FirstSteps(s);
    FailingSteps(s);
    Extend(start, path, s, Lock, Locked(s, Load));
    Extend(start, path + [Lock], Locked(s, Load), Fail, Locked(s, Release(true)));
    Extend(start, path + [Lock] + [Fail], Locked(s, Release(true)), Unlock, Abandoned(s));
    assert path + [Lock] + [Fail] + [Unlock] == path + ABANDON;
  }

  /** Contention: the event goes to the back of the queue and the pass ends. */
  lemma {:induction false} Contend(start: State, path: seq<Action>, s: State)
    requires Leads(start, path, s) && AtStage(s, Acquire) && Target(s) in s.locks
    ensures Leads(start, path + [LockRefused] + [Requeue], s.(worker := Idle, queue := s.queue + [s.worker.e]))
  {
    var t := s.(worker := Requeueing(s.worker.e));
    assert Step(s, LockRefused, t);
    Extend(start, path, s, LockRefused, t);
    Extend(start, path + [LockRefused], t, Requeue, t.(worker := Idle, queue := s.queue + [s.worker.e]));
  }

  lemma {:induction false} Begin(s: State, found: seq<SubId>)
    requires s.worker.Taken? && s.worker.e in s.events
    requires NoDup(found) && Elems(found) == Open(s, s.events[s.worker.e])
    ensures Leads(s, [List(found)], s.(worker := Delivering(s.worker.e, found, 0, Acquire)))
  {
    Extend(s, [], s, List(found), s.(worker := Delivering(s.worker.e, found, 0, Acquire)));
    assert [] + [List(found)] == [List(found)];
  }

  lemma {:induction false} Finish(start: State, path: seq<Action>, s: State)
    requires Leads(start, path, s) && s.worker.Delivering? && s.worker.i == |s.worker.subs|
    ensures Leads(start, path + [Mark], s.(worker := Idle, processed := s.processed + {s.worker.e}))
  {
    Extend(start, path, s, Mark, s.(worker := Idle, processed := s.processed + {s.worker.e}));
  }

  lemma {:induction false} GiveUp(s: State)
    requires s.worker.Taken?
    ensures Leads(s, [Fail], s.(worker := Idle, dropped := s.dropped + {s.worker.e}))
  {
    Extend(s, [], s, Fail, s.(worker := Idle, dropped := s.dropped + {s.worker.e}));
    assert [] + [Fail] == [Fail];
  }

  /** The workflow of a subscription is stored and nobody holds its lock. */
  predicate Deliverable(s: State, id: SubId) {
    id in s.subs && s.subs[id].workflow !in s.locks && s.subs[id].workflow in s.instances
  }

  /** An open subscription of the event's name and key, made no later than the event. */
  predicate Awaits(s: State, id: SubId, event: Event) {
    && id in s.subs && id !in s.terminated
    && s.subs[id].name == event.name && s.subs[id].key == event.key && s.subs[id].asOf <= event.time
  }

  ghost predicate AllDeliverable(s: State, e: EventId) {
    e in s.events && forall id :: Awaits(s, id, s.events[e]) ==> Deliverable(s, id)
  }

  /** What stays the same from one subscription of the list to the next, and what has been done. */
  ghost predicate Between(start: State, s: State, found: seq<SubId>, k: nat)
    requires k <= |found|
  {
    && s.events == start.events && s.subs == start.subs && s.locks == start.locks
    && s.instances.Keys == start.instances.Keys && s.processed == start.processed && s.queue == start.queue
    && s.terminated == start.terminated + Elems(found[..k])
    && forall j :: 0 <= j < k ==> Deliverable(start, found[j])
  }

  /** The loop has dealt with the first `k` subscriptions. */
  ghost predicate Progress(start: State, path: seq<Action>, s: State, found: seq<SubId>, k: nat)
    requires k <= |found|
  {
    Leads(start, path, s) && NoFailure(path) && Between(start, s, found, k)
  }

  /** The loop has returned early: with success only after queueing the event again. */
  ghost predicate Stopped(start: State, path: seq<Action>, s: State, e: EventId, r: Result<(), Failure>) {
    && Leads(start, path, s) && !AllDeliverable(start, e) && s.processed == start.processed
    && (r.Ok? ==> NoFailure(path) && s.queue == start.queue + [e])
    && (r.Err? ==> r.error.WorkflowNotFound?)
  }

  lemma {:induction false} OneFurther(start: State, path: seq<Action>, s: State, found: seq<SubId>, k: nat)
    requires Ready(s) && Target(s) in s.instances && s.worker.subs == found && s.worker.i == k
    requires Progress(start, path, s, found, k)
    ensures Progress(start, path + SERVE, Served(s), found, k + 1)
  {
    Serve(start, path, s);
    assert found[..k + 1] == found[..k] + [found[k]];
  }

  lemma {:induction false} StopsHere(start: State, path: seq<Action>, s: State, found: seq<SubId>, k: nat, e: EventId)
    requires AtStage(s, Acquire) && e in s.events && s.worker == Delivering(e, found, k, Acquire)
    requires Progress(start, path, s, found, k) && Elems(found) == Open(start, s.events[e])
    ensures Target(s) in s.locks ==>
              Stopped(start, path + [LockRefused] + [Requeue], s.(worker := Idle, queue := s.queue + [e]), e, Ok(()))
    ensures Target(s) !in s.locks && Target(s) !in s.instances ==>
              Stopped(start, path + ABANDON, Abandoned(s), e, Err(WorkflowNotFound(Target(s))))
  {
    assert found[k] in Open(start, start.events[e]);
    if Target(s) in s.locks {
      assert !Deliverable(start, found[k]);
      Contend(start, path, s);
    } else if Target(s) !in s.instances {
      assert !Deliverable(start, found[k]);
      Abandon(start, path, s);
    }
  }

  class Host {
    var events: map<EventId, Event>
    var processed: set<EventId>
    var queue: seq<EventId>
    var subs: map<SubId, Subscription>
    var terminated: set<SubId>
    var instances: map<WorkflowId, Instance>
    var locks: map<WorkflowId, Holder>
    var workflowQueue: seq<WorkflowId>
    ghost var publishing: set<EventId>
    ghost var log: seq<Delivery>
    ghost var woken: set<SubId>
    ghost var dropped: set<EventId>
    ghost var exposed: set<SubId>

    ghost function View(worker: Worker): State
      reads this
    {
      State(events, processed, queue, publishing, subs, terminated, instances, locks, worker,
            log, woken, dropped, exposed)
    }

    constructor ()
      ensures View(Idle) == INITIAL && workflowQueue == []
    {
      events, processed, queue, subs, terminated := map[], {}, [], map[], {};
      instances, locks, workflowQueue := map[], map[], [];
      publishing, log, woken, dropped, exposed := {}, [], {}, {}, {};
    }

    /** publish_event: the event is stored, unless its id is taken, and then queued at the back. */
    method PublishEvent(e: EventId, event: Event) returns (ok: bool, ghost path: seq<Action>)
      requires publishing <= events.Keys
      modifies this`events, this`queue
      ensures ok <==> e !in old(events)
      ensures Leads(old(View(Idle)), path, View(Idle))
      ensures events == (if ok then old(events)[e := event] else old(events))
      ensures queue == if ok then old(queue) + [e] else old(queue)
    {
      ghost var start := View(Idle);
      if e in events {
        return false, [];
      }
      events := events[e := event];
      ghost var stored := start.(events := events, publishing := publishing + {e});
      Extend(start, [], start, Create(e, event), stored);
      assert [] + [Create(e, event)] == [Create(e, event)];
      queue := queue + [e];
      assert publishing + {e} - {e} == publishing;
      Extend(start, [Create(e, event)], stored, Enqueue(e), View(Idle));
      return true, [Create(e, event)] + [Enqueue(e)];
    }

    /** The open subscriptions for an event, in any order. */
    method GetSubscriptions(event: Event) returns (found: seq<SubId>)
      ensures NoDup(found)
      ensures forall id :: id in found <==>
                id in subs && id !in terminated && subs[id].name == event.name && subs[id].key == event.key
                && subs[id].asOf <= event.time
    {
      var left := set id | id in subs && id !in terminated && Matches(subs[id], event);
      ghost var all := left;
      found := [];
      while left != {}
        invariant left <= all && NoDup(found)
        invariant forall id :: id in found <==> id in all && id !in left
        decreases left
      {
        var id :| id in left;
        found, left := found + [id], left - {id};
      }
    }

    /** The loop over the pointers of a loaded instance. */
    method SignalPointers(pointers: seq<Pointer>, id: string, data: string) returns (r: seq<Pointer>)
      ensures r == SignalAll(pointers, id, data)
    {
      r := pointers;
      for i := 0 to |pointers|
        invariant |r| == |pointers|
        invariant forall j :: 0 <= j < |r| ==> r[j] == if j < i then Signalled(pointers[j], id, data) else pointers[j]
      {
        if r[i].id == id && r[i].waiting {
          r := r[i := r[i].(data := Some(data), published := true, active := true)];
        }
      }
    }

    /** The body of the loop over the subscriptions, once the lock was free: everything from taking the lock to
        releasing it. */
    method DeliverOne(e: EventId, id: SubId) returns (r: Result<(), Failure>)
      requires e in events && id in subs && subs[id].workflow !in locks
      modifies this`locks, this`instances, this`workflowQueue, this`terminated, this`log, this`woken, this`dropped
      ensures r == if old(subs[id].workflow in instances) then Ok(()) else Err(WorkflowNotFound(subs[id].workflow))
      ensures locks == old(locks)
      ensures r.Ok? ==>
                && (var w := subs[id].workflow;
                    instances == old(instances)[w := old(instances)[w].(
                      pointers := SignalAll(old(instances)[w].pointers, subs[id].pointer, events[e].data),
                      next := Some(0))])
                && terminated == old(terminated) + {id}
                && workflowQueue == old(workflowQueue) + [subs[id].workflow]
                && log == old(log) + [Delivery(id, e)] && woken == old(woken) + {id} && dropped == old(dropped)
      ensures r.Err? ==>
                && instances == old(instances) && terminated == old(terminated) && workflowQueue == old(workflowQueue)
                && log == old(log) && woken == old(woken) && dropped == old(dropped) + {e}
    {
      var w := subs[id].workflow;
      locks := locks[w := Consumer];
      if w in instances {
        var instance := instances[w];
        var pointers := SignalPointers(instance.pointers, subs[id].pointer, events[e].data);
        instances := instances[w := instance.(pointers := pointers, next := Some(0))];
        log := log + [Delivery(id, e)];
        workflowQueue := workflowQueue + [w];
        woken := woken + {id};
        terminated := terminated + {id};
        r := Ok(());
      } else {
        dropped := dropped + {e};
        r := Err(WorkflowNotFound(w));
      }
      locks := locks - {w};
      assert locks == old(locks);
    }

    /** One turn of the loop over the subscriptions; `stop` is its early return, if it has one. */
    method Turn(e: EventId, found: seq<SubId>, k: nat, ghost start: State, ghost path: seq<Action>)
      returns (stop: Option<Result<(), Failure>>, ghost path': seq<Action>)
      requires e in events && k < |found| && Elems(found) == Open(start, events[e])
      requires Progress(start, path, View(Delivering(e, found, k, Acquire)), found, k)
      modifies this
      ensures stop.None? ==> Progress(start, path', View(Delivering(e, found, k + 1, Acquire)), found, k + 1)
      ensures stop.Some? ==> Stopped(start, path', View(Idle), e, stop.value)
      ensures locks == old(locks) && events == old(events) && subs == old(subs)
    {
      var id := found[k];
      ghost var here := View(Delivering(e, found, k, Acquire));
      assert id in Open(start, start.events[e]);
      StopsHere(start, path, here, found, k, e);
      if subs[id].workflow in locks {
        queue := queue + [e];
        return Some(Ok(())), path + [LockRefused] + [Requeue];
      }
      var r := DeliverOne(e, id);
      if r.Err? {
        assert View(Idle) == Abandoned(here);
        return Some(r), path + ABANDON;
      }
      assert View(Delivering(e, found, k + 1, Acquire)) == Served(here);
      OneFurther(start, path, here, found, k);
      return None, path + SERVE;
    }

    /** The loop over the subscriptions. */
    method DeliverAll(e: EventId, found: seq<SubId>, ghost start: State)
      returns (stop: Option<Result<(), Failure>>, ghost path: seq<Action>)
      requires start == View(Taken(e)) && e in events && NoDup(found) && Elems(found) == Open(start, events[e])
      modifies this
      ensures stop.None? ==> Progress(start, path, View(Delivering(e, found, |found|, Acquire)), found, |found|)
      ensures stop.Some? ==> Stopped(start, path, View(Idle), e, stop.value)
      ensures locks == old(locks) && events == old(events) && subs == old(subs)
    {
      Begin(start, found);
      path := [List(found)];
      for k := 0 to |found|
        invariant Progress(start, path, View(Delivering(e, found, k, Acquire)), found, k)
        invariant locks == old(locks) && events == old(events) && subs == old(subs)
      {
        stop, path := Turn(e, found, k, start, path);
        if stop.Some? { return; }
      }
      stop := None;
    }

    /** The call follows the step system from the dequeued event to the idle consumer. It succeeds and marks the
        event exactly when every subscription open for it has a free, existing workflow, and then exactly those
        subscriptions have been terminated; otherwise a success means that the event is queued again. */
    method ProcessEvent(e: EventId) returns (r: Result<(), Failure>, ghost path: seq<Action>)
      modifies this
      ensures Leads(old(View(Taken(e))), path, View(Idle)) && (r.Ok? ==> NoFailure(path))
      ensures e !in old(events) <==> r == Err(EventNotFound(e))
      ensures locks == old(locks) && events == old(events) && subs == old(subs)
      ensures processed == if AllDeliverable(old(View(Taken(e))), e) then old(processed) + {e} else old(processed)
      ensures AllDeliverable(old(View(Taken(e))), e) ==>
                && r.Ok? && queue == old(queue)
                && forall id :: id in terminated <==>
                     id in old(terminated) || Awaits(old(View(Taken(e))), id, events[e])
      ensures r.Ok? && !AllDeliverable(old(View(Taken(e))), e) ==> queue == old(queue) + [e]
    {
      ghost var start := View(Taken(e));
      if e !in events {
        dropped := dropped + {e};
        GiveUp(start);
        return Err(EventNotFound(e)), [Fail];
      }
      var found := GetSubscriptions(events[e]);
      assert Elems(found) == Open(start, events[e]);
      var stop;
      stop, path := DeliverAll(e, found, start);
      if stop.Some? { return stop.value, path; }
      assert found[..|found|] == found;
      assert AllDeliverable(start, e);
      Finish(start, path, View(Delivering(e, found, |found|, Acquire)));
      path := path + [Mark];
      processed := processed + {e};
      r := Ok(());
    }
  }
}
