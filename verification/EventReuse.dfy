/** When a subscription can be used, and used again (wfe/src/host.rs:656-716): the exact extent to which failing calls
    break at-most-once delivery. */
module EventReuse {
  import opened Prelude
  import opened EventDelivery
  import opened EventHost

  /** The consumer's lock on a workflow it is not working on: a release that failed. Nobody will release it. */
  predicate Leaked(s: State, w: WorkflowId) {
    HeldBy(s, w, Consumer) && !(Holding(s.worker) && At(s) && Target(s) == w)
  }

  predicate Usable(s: State, id: SubId) {
    id in s.subs && id !in s.terminated && !Leaked(s, s.subs[id].workflow)
  }

  /** The log has a use of the subscription that it did not have before. */
  ghost predicate UsedSince(s: State, t: State, id: SubId) {
    exists k :: |s.log| <= k < |t.log| && t.log[k].sub == id
  }

  ghost predicate CanBeUsed(s: State, id: SubId) {
    exists path, t :: Leads(s, path, t) && UsedSince(s, t, id)
  }

  lemma {:induction false} LeadsConcat(s: State, p: seq<Action>, m: State, q: seq<Action>, t: State)
    requires Leads(s, p, m) && Leads(m, q, t)
    ensures Leads(s, p + q, t)
    decreases |q|
  {
    if q == [] {
      assert p + q == p;
    } else {
      var front := q[..|q| - 1];
      assert (p + q)[..|p + q| - 1] == p + front;
      LeadsConcat(s, p, m, front, Reach(m, front).value);
    }
  }

  // ---- Not usable: never used ----

  /** A leaked lock stays leaked. */
  lemma {:induction false} StepKeepsLeak(s: State, a: Action, t: State, w: WorkflowId)
    requires Step(s, a, t) && Protected(s) && Leaked(s, w)
    ensures Leaked(t, w)
  {
  }

  lemma {:induction false} StepKeepsUnusable(s: State, a: Action, t: State, id: SubId)
    requires Step(s, a, t) && Safe(s) && id in s.subs && !Usable(s, id)
    ensures id in t.subs && !Usable(t, id)
    ensures a.Write? ==> Current(s) != id
  {
    assert id in t.subs && t.subs[id] == s.subs[id] && s.terminated <= t.terminated;
    if Leaked(s, s.subs[id].workflow) { StepKeepsLeak(s, a, t, s.subs[id].workflow); }
    if a.Write? { assert Unused(s, s.worker.i); }
  }

  lemma {:induction false} PathKeepsUnusable(s: State, path: seq<Action>, t: State, id: SubId)
    requires Leads(s, path, t) && Safe(s) && id in s.subs && !Usable(s, id)
    ensures Safe(t) && id in t.subs && !Usable(t, id)
    ensures |s.log| <= |t.log| && forall k :: |s.log| <= k < |t.log| ==> t.log[k].sub != id
    decreases |path|
  {
    if path != [] {
      var front, a := path[..|path| - 1], path[|path| - 1];
      var m := Reach(s, front).value;
      PathKeepsUnusable(s, front, m, id);
      StepKeepsSafe(m, a, t);
      StepKeepsUnusable(m, a, t, id);
      assert t.log == LogAfter(m, a);
    }
  }

  // ---- Usable: a way to use it ----

  /** What all preparations leave alone. */
  predicate SameSubs(s: State, t: State) { t.subs == s.subs && t.terminated == s.terminated && t.log == s.log }

  lemma {:induction false} One(s: State, a: Action, t: State)
    requires Step(s, a, t)
    ensures Leads(s, [a], t)
  {
    Extend(s, [], s, a, t);
    assert [] + [a] == [a];
  }

  lemma {:induction false} Two(s: State, a: Action, m: State, b: Action, t: State)
    requires Step(s, a, m) && Step(m, b, t)
    ensures Leads(s, [a, b], t)
  {
    One(s, a, m);
    One(m, b, t);
    LeadsConcat(s, [a], m, [b], t);
    assert [a] + [b] == [a, b];
  }

  /** The consumer fails and releases what it holds. */
  lemma {:induction false} StopHolding(s: State) returns (path: seq<Action>, t: State)
    requires Safe(s) && Holding(s.worker)
    ensures Leads(s, path, t) && SameSubs(s, t) && t.worker.Idle?
    ensures t.locks == s.locks - {Target(s)} && t.events == s.events
  {
    var m;
    if s.worker.stage.Release? {
      m := Effect(s, Unlock);
      if s.worker.stage.failed {
        path, t := [Unlock], m;
        One(s, Unlock, m);
      } else {
        path, t := [Unlock, Fail], Effect(m, Fail);
        Two(s, Unlock, m, Fail, t);
      }
    } else {
      m := Effect(s, Fail);
      path, t := [Fail, Unlock], Effect(m, Unlock);
      Two(s, Fail, m, Unlock, t);
    }
  }

  lemma {:induction false} StopIdle(s: State, w: WorkflowId) returns (path: seq<Action>, t: State)
    requires Safe(s) && !Leaked(s, w)
    ensures Leads(s, path, t) && SameSubs(s, t) && t.worker.Idle? && !HeldBy(t, w, Consumer)
    ensures t.events == s.events
  {
    if s.worker.Idle? {
      path, t := [], s;
    } else if Holding(s.worker) {
      path, t := StopHolding(s);
    } else {
      path, t := [Fail], Effect(s, Fail);
      One(s, Fail, t);
    }
  }

  /** Whoever else has the lock gives it up. */
  lemma {:induction false} FreeLock(s: State, w: WorkflowId) returns (path: seq<Action>, t: State)
    requires s.worker.Idle? && !HeldBy(s, w, Consumer)
    ensures Leads(s, path, t) && SameSubs(s, t) && t.worker.Idle? && w !in t.locks
    ensures t.events == s.events
  {
    if w in s.locks {
      var a := OtherUnlock(s.locks[w].n, w);
      path, t := [a], Effect(s, a);
      One(s, a, t);
    } else {
      path, t := [], s;
    }
  }

  lemma {:induction false} HaveInstance(s: State, w: WorkflowId) returns (path: seq<Action>, t: State)
    requires s.worker.Idle? && w !in s.locks
    ensures Leads(s, path, t) && SameSubs(s, t) && t.worker.Idle? && w !in t.locks && w in t.instances
    ensures t.events == s.events && t.queue == s.queue && NoFailure(path)
  {
    if w in s.instances {
      path, t := [], s;
    } else {
      var a := Start(w, Instance([], None, ""));
      path, t := [a], Effect(s, a);
      One(s, a, t);
    }
  }

  /** The queue is emptied by passes that fail at once. */
  lemma {:induction false} Drain(s: State) returns (path: seq<Action>, t: State)
    requires s.worker.Idle?
    ensures Leads(s, path, t) && SameSubs(s, t) && t.worker.Idle? && t.queue == []
    ensures t.locks == s.locks && t.instances == s.instances && t.events == s.events
    decreases |s.queue|
  {
    if s.queue == [] {
      path, t := [], s;
    } else {
      var taken := Effect(s, Dequeue);
      var m := Effect(taken, Fail);
      Two(s, Dequeue, taken, Fail, m);
      var rest;
      rest, t := Drain(m);
      path := [Dequeue, Fail] + rest;
      LeadsConcat(s, [Dequeue, Fail], m, rest, t);
    }
  }

  lemma {:induction false} Enumerate(xs: set<SubId>) returns (s: seq<SubId>)
    ensures NoDup(s) && Elems(s) == xs
    decreases xs
  {
    if xs == {} {
      s := [];
    } else {
      var x :| x in xs;
      var rest := Enumerate(xs - {x});
      s := rest + [x];
      assert x !in Elems(rest);
      assert Elems(s) == Elems(rest) + {x};
    }
  }

  /** The rows may come with any of them first. */
  lemma {:induction false} EnumerateFrom(xs: set<SubId>, x: SubId) returns (s: seq<SubId>)
    requires x in xs
    ensures s != [] && s[0] == x && NoDup(s) && Elems(s) == xs
  {
    var rest := Enumerate(xs - {x});
    s := [x] + rest;
    assert x !in Elems(rest);
    assert Elems(s) == {x} + Elems(rest);
  }

  /** A new event is stored, queued and taken. */
  lemma {:induction false} Announce(s: State, e: EventId, event: Event) returns (path: seq<Action>, t: State)
    requires s.worker.Idle? && s.queue == [] && e !in s.events
    ensures Leads(s, path, t) && SameSubs(s, t) && t.locks == s.locks && t.instances == s.instances
    ensures t.worker == Taken(e) && e in t.events && t.events[e] == event && NoFailure(path)
  {
    var s1 := Effect(s, Create(e, event));
    var s2 := Effect(s1, Enqueue(e));
    Two(s, Create(e, event), s1, Enqueue(e), s2);
    t := Effect(s2, Dequeue);
    One(s2, Dequeue, t);
    LeadsConcat(s, [Create(e, event), Enqueue(e)], s2, [Dequeue], t);
    path := [Create(e, event), Enqueue(e)] + [Dequeue];
  }

  /** The event reaches the subscription. */
  lemma {:induction false} Use(s: State, id: SubId) returns (path: seq<Action>, t: State)
    requires s.worker.Taken? && s.worker.e in s.events && id in Open(s, s.events[s.worker.e])
    requires s.subs[id].workflow !in s.locks && s.subs[id].workflow in s.instances
    ensures Leads(s, path, t) && t.log == s.log + [Delivery(id, s.worker.e)]
    ensures AtStage(t, Wake) && Current(t) == id && t.worker.e == s.worker.e
    ensures t.subs == s.subs && t.terminated == s.terminated && t.events == s.events && NoFailure(path)
  {
    var found := EnumerateFrom(Open(s, s.events[s.worker.e]), id);
    Begin(s, found);
    var m := s.(worker := Delivering(s.worker.e, found, 0, Acquire));
    ServeFirstHalf(s, [List(found)], m);
    path := [List(found)] + [Lock] + [Read] + [Write];
    t := Written(Locked(m, Persist(m.instances[Target(m)])));
  }

  /** The consumer is idle, nothing is queued, and the workflow is stored and free. */
  lemma {:induction false} Prepare(s: State, w: WorkflowId) returns (path: seq<Action>, t: State)
    requires Safe(s) && !Leaked(s, w)
    ensures Leads(s, path, t) && SameSubs(s, t) && t.worker.Idle? && t.queue == []
    ensures w !in t.locks && w in t.instances && t.events == s.events
  {
    var p1, s1 := StopIdle(s, w);
    var p2, s2 := FreeLock(s1, w);
    LeadsConcat(s, p1, s1, p2, s2);
    var p3, s3 := HaveInstance(s2, w);
    LeadsConcat(s, p1 + p2, s2, p3, s3);
    var p4;
    p4, t := Drain(s3);
    path := (p1 + p2 + p3) + p4;
    LeadsConcat(s, p1 + p2 + p3, s3, p4, t);
  }

  /** An open subscription whose workflow's lock is not leaked can be used, by a new event, from any safe state. */
  lemma {:induction false} UsableIsUsed(s: State, id: SubId) returns (path: seq<Action>, t: State, e: EventId)
    requires Safe(s) && Usable(s, id)
    ensures Leads(s, path, t) && t.log == s.log + [Delivery(id, e)] && AtStage(t, Wake) && Current(t) == id
    ensures t.subs == s.subs && t.terminated == s.terminated && e !in s.events
  {
    var sub := s.subs[id];
    var p1, s1 := Prepare(s, sub.workflow);
    e := NewString(s1.events.Keys);
    var p2, s2 := Announce(s1, e, Event(sub.name, sub.key, "", sub.asOf));
    LeadsConcat(s, p1, s1, p2, s2);
    var p3;
    p3, t := Use(s2, id);
    LeadsConcat(s, p1 + p2, s2, p3, t);
    path := p1 + p2 + p3;
  }

  // ---- Exactly ----

  /** From every safe state: a subscription can still be used if and only if it is open and the consumer has not
      leaked the lock of its workflow. */
  lemma {:induction false} UsableExactly(s: State, id: SubId)
    requires Safe(s) && id in s.subs
    ensures CanBeUsed(s, id) <==> id !in s.terminated && !Leaked(s, s.subs[id].workflow)
  {
    if Usable(s, id) {
      var path, t, e := UsableIsUsed(s, id);
      assert t.log[|s.log|].sub == id;
      assert UsedSince(s, t, id);
    } else {
      forall path, t | Leads(s, path, t) ensures !UsedSince(s, t, id) {
        PathKeepsUnusable(s, path, t, id);
      }
    }
  }

  /** So a subscription that has been used can be used again if and only if it is open, its workflow's lock is not
      leaked, and it is open because a call failed after the persist or because its pass has yet to terminate it. */
  lemma {:induction false} UsedAgainExactly(s: State, id: SubId)
    requires Safe(s) && id in s.subs && Used(s.log, id)
    ensures CanBeUsed(s, id) <==>
              (id in s.exposed || InWindow(s, id)) && id !in s.terminated && !Leaked(s, s.subs[id].workflow)
  {
    UsableExactly(s, id);
    assert Settled(s, id);
  }

  // ---- Failed calls ----

  /** If queueing the workflow or terminating the subscription fails, the subscription has been used and can be used
      again by every event that matches it, while the event of the failed pass is neither processed nor queued. */
  lemma {:induction false} FailedCallReopens(s: State, event: Event)
    requires Safe(s) && (AtStage(s, Wake) || AtStage(s, Terminate))
    requires var sub := s.subs[Current(s)]; sub.name == event.name && sub.key == event.key && sub.asOf <= event.time
    ensures Enabled(s, Fail) && Enabled(Effect(s, Fail), Unlock)
    ensures var t := Effect(Effect(s, Fail), Unlock);
            && Used(t.log, Current(s)) && Awaits(t, Current(s), event) && CanBeUsed(t, Current(s))
            && t.worker.Idle? && s.worker.e in t.dropped && s.worker.e !in t.processed && s.worker.e !in t.queue
  {
    var id, u := Current(s), Effect(s, Fail);
    var t := Effect(u, Unlock);
    WindowIsUsed(s, id);
    assert Places(s, s.worker.e) <= 1;
    assert t.log == s.log && t.locks == s.locks - {Target(s)};
    StepKeepsSafe(s, Fail, u);
    StepKeepsSafe(u, Unlock, t);
    UsableExactly(t, id);
  }

  lemma {:induction false} WindowIsUsed(s: State, id: SubId)
    requires Safe(s) && InWindow(s, id)
    ensures Used(s.log, id)
  {
    assert Honest(s, id);
    var k :| 0 <= k < |s.log| && s.log[k] == Delivery(id, s.worker.e);
    assert s.log[k].sub == id;
  }

  /** If the release fails as well, the lock is leaked, and no subscription of that workflow is ever used again. */
  lemma {:induction false} LeakedLockPreventsUse(s: State, id: SubId)
    requires Safe(s) && Holding(s.worker) && s.worker.stage.Release?
    requires id in s.subs && s.subs[id].workflow == Target(s)
    ensures Enabled(s, Fail) && !CanBeUsed(Effect(s, Fail), id)
  {
    var t := Effect(s, Fail);
    StepKeepsSafe(s, Fail, t);
    UsableExactly(t, id);
  }

  lemma {:induction false} InitialIsSafe()
    ensures Safe(INITIAL)
  {
    assert IsRun([INITIAL], []);
    SafeOverRuns([INITIAL], [], 0);
  }

  /** From the beginning, without any failure, to the moment at which the subscription has been used but the call that
      queues its workflow is outstanding. */
  lemma {:induction false} FirstUse(id: SubId, sub: Subscription) returns (path: seq<Action>, s: State)
    ensures Leads(INITIAL, path, s) && NoFailure(path) && AtStage(s, Wake) && Current(s) == id
    ensures |s.log| == 1 && s.log[0].sub == id && s.log[0].e in s.events && s.subs == map[id := sub]
  {
    var s1 := Effect(INITIAL, Subscribe(id, sub));
    One(INITIAL, Subscribe(id, sub), s1);
    var p2, s2 := HaveInstance(s1, sub.workflow);
    LeadsConcat(INITIAL, [Subscribe(id, sub)], s1, p2, s2);
    var p3, s3 := Announce(s2, "e", Event(sub.name, sub.key, "", sub.asOf));
    LeadsConcat(INITIAL, [Subscribe(id, sub)] + p2, s2, p3, s3);
    var p4;
    p4, s := Use(s3, id);
    LeadsConcat(INITIAL, [Subscribe(id, sub)] + p2 + p3, s3, p4, s);
    path := [Subscribe(id, sub)] + p2 + p3 + p4;
  }

  /** Further, to the outstanding call that terminates it. */
  lemma {:induction false} FirstUseAt(id: SubId, sub: Subscription, stage: Stage) returns (path: seq<Action>, s: State)
    requires stage == Wake || stage == Terminate
    ensures Leads(INITIAL, path, s) && NoFailure(path) && AtStage(s, stage) && Current(s) == id
    ensures |s.log| == 1 && s.log[0].sub == id && s.log[0].e in s.events && s.subs == map[id := sub]
  {
    path, s := FirstUse(id, sub);
    if stage == Terminate {
      var t := Effect(s, QueueWorkflow);
      Extend(INITIAL, path, s, QueueWorkflow, t);
      path, s := path + [QueueWorkflow], t;
    }
  }

  /** The call fails, the lock is released, and the subscription is ready for its next use. */
  lemma {:induction false} FailAndRelease(s: State, id: SubId) returns (t: State)
    requires Safe(s) && InWindow(s, id)
    ensures Leads(s, [Fail, Unlock], t) && Safe(t) && Usable(t, id) && t.log == s.log && t.events == s.events
  {
    var failed := Effect(s, Fail);
    t := Effect(failed, Unlock);
    Two(s, Fail, failed, Unlock, t);
    PathKeepsSafe(s, [Fail, Unlock], t);
    assert s.worker.subs[s.worker.i] !in s.terminated;
  }

  lemma {:induction false} SecondUse(s: State, id: SubId) returns (after: seq<Action>, t: State, e: EventId)
    requires Safe(s) && InWindow(s, id)
    ensures Leads(s, [Fail, Unlock] + after, t) && t.log == s.log + [Delivery(id, e)] && e !in s.events
  {
    var m := FailAndRelease(s, id);
    after, t, e := UsableIsUsed(m, id);
    LeadsConcat(s, [Fail, Unlock], m, after, t);
  }

  /** For every subscription there are runs, from the beginning and with one failing call, at either stage, in which two
      events use it. */
  lemma {:induction false} UsedTwice(id: SubId, sub: Subscription, stage: Stage)
    returns (before: seq<Action>, s: State, after: seq<Action>, t: State)
    requires stage == Wake || stage == Terminate
    ensures Leads(INITIAL, before, s) && NoFailure(before) && AtStage(s, stage) && Current(s) == id
    ensures Leads(s, [Fail, Unlock] + after, t)
    ensures |t.log| == 2 && t.log[0].sub == id && t.log[1].sub == id && t.log[0].e != t.log[1].e
  {
    before, s := FirstUseAt(id, sub, stage);
    InitialIsSafe();
    PathKeepsSafe(INITIAL, before, s);
    var e;
    after, t, e := SecondUse(s, id);
  }

  // ---- Subscriptions that come too late ----

  /** Such a subscription exists for every event that matches it: it arrives between the listing and the mark, and stays
      open for an event that is processed. */
  lemma {:induction false} LateSubscription(id: SubId, sub: Subscription, e: EventId, event: Event)
    returns (path: seq<Action>, t: State)
    requires sub.name == event.name && sub.key == event.key && sub.asOf <= event.time
    ensures Leads(INITIAL, path + [List([])] + [Subscribe(id, sub)] + [Mark], t) && NoFailure(path)
    ensures e in t.processed && id in t.subs && t.subs[id] == sub && id !in t.terminated && t.log == []
  {
    var s;
    path, s := Announce(INITIAL, e, event);
    var listed := s.(worker := Delivering(e, [], 0, Acquire));
    assert Open(s, event) == {} && Elems<SubId>([]) == {};
    Extend(INITIAL, path, s, List([]), listed);
    var joined := Effect(listed, Subscribe(id, sub));
    Extend(INITIAL, path + [List([])], listed, Subscribe(id, sub), joined);
    t := Effect(joined, Mark);
    Extend(INITIAL, path + [List([])] + [Subscribe(id, sub)], joined, Mark, t);
  }
}
