/** The NATS key-value lock (wfe-nats/src/lock.rs) as a system of atomic steps: each request to the bucket and
    each change of an instance's held set is one step, and the steps of all instances interleave freely. */
module NatsLock {

  type Instance = string
  type Resource = string

  /** Where the one task of an instance that uses a resource stands.
      Created: the key was created, the resource is not yet in the held set. Held: acquire returned true.
      Deleting: release has read its own id and will delete. Removing: only the held set is left to update. */
  datatype Phase = Idle | Created | Held | Deleting | Removing

  /** The heartbeat task: between rounds, or working through what is left of a snapshot. */
  datatype Beat = Asleep | Putting(left: set<Resource>)

  datatype State = State(
    bucket: map<Resource, Instance>,
    phases: map<(Instance, Resource), Phase>,
    held: map<Instance, set<Resource>>,
    beats: map<Instance, Beat>)

  datatype Event =
    | Create(i: Instance, r: Resource)          // key absent: created, and the instance is told so
    | CreateRefused(i: Instance, r: Resource)   // key present
    | CreateUnheard(i: Instance, r: Resource)   // key created, but the instance sees an error
    | Insert(i: Instance, r: Resource)          // into the held set
    | ReadOwn(i: Instance, r: Resource)         // release reads its own id
    | ReadOther(i: Instance, r: Resource)       // release reads another id, no entry, or an error
    | Delete(i: Instance, r: Resource)
    | DeleteFailed(i: Instance, r: Resource)
    | Remove(i: Instance, r: Resource)          // from the held set
    | Snapshot(i: Instance)                     // heartbeat copies the held set
    | Put(i: Instance, r: Resource)             // heartbeat writes the instance's id, whatever is stored
    | PutFailed(i: Instance, r: Resource)
    | RoundDone(i: Instance)
    | Expire(r: Resource)                       // the server drops an old entry
    | Crash(i: Instance)                        // the instance dies, its tasks with it

  function PhaseOf(s: State, i: Instance, r: Resource): Phase {
    if (i, r) in s.phases then s.phases[(i, r)] else Idle
  }

  function HeldBy(s: State, i: Instance): set<Resource> { if i in s.held then s.held[i] else {} }

  function BeatOf(s: State, i: Instance): Beat { if i in s.beats then s.beats[i] else Asleep }

  predicate Enabled(s: State, e: Event) {
    match e
    case Create(i, r) => PhaseOf(s, i, r) == Idle && r !in s.bucket
    case CreateRefused(i, r) => PhaseOf(s, i, r) == Idle && r in s.bucket
    case CreateUnheard(i, r) => PhaseOf(s, i, r) == Idle && r !in s.bucket
    case Insert(i, r) => PhaseOf(s, i, r) == Created
    case ReadOwn(i, r) => PhaseOf(s, i, r) == Held && r in s.bucket && s.bucket[r] == i
    case ReadOther(i, r) => PhaseOf(s, i, r) == Held
    case Delete(i, r) => PhaseOf(s, i, r) == Deleting
    case DeleteFailed(i, r) => PhaseOf(s, i, r) == Deleting
    case Remove(i, r) => PhaseOf(s, i, r) == Removing
    case Snapshot(i) => BeatOf(s, i) == Asleep
    case Put(i, r) => BeatOf(s, i).Putting? && r in BeatOf(s, i).left
    case PutFailed(i, r) => BeatOf(s, i).Putting? && r in BeatOf(s, i).left
    case RoundDone(i) => BeatOf(s, i) == Putting({})
    case Expire(r) => r in s.bucket
    case Crash(i) => true
  }

  /** The bucket after a step: creates and puts store the instance's id, deletes and expiry drop the key. */
  function BucketAfter(s: State, e: Event): map<Resource, Instance> {
    match e
    case Create(i, r) => s.bucket[r := i]
    case CreateUnheard(i, r) => s.bucket[r := i]
    case Put(i, r) => s.bucket[r := i]
    case Delete(_, r) => s.bucket - {r}
    case Expire(r) => s.bucket - {r}
    case _ => s.bucket
  }

  function PhasesAfter(s: State, e: Event): map<(Instance, Resource), Phase> {
    match e
    case Create(i, r) => s.phases[(i, r) := Created]
    case Insert(i, r) => s.phases[(i, r) := Held]
    case ReadOwn(i, r) => s.phases[(i, r) := Deleting]
    case ReadOther(i, r) => s.phases[(i, r) := Removing]
    case Delete(i, r) => s.phases[(i, r) := Removing]
    case DeleteFailed(i, r) => s.phases[(i, r) := Removing]
    case Remove(i, r) => s.phases[(i, r) := Idle]
    case Crash(i) => map p | p in s.phases && p.0 != i :: s.phases[p]
    case _ => s.phases
  }

  function HeldAfter(s: State, e: Event): map<Instance, set<Resource>> {
    match e
    case Insert(i, r) => s.held[i := HeldBy(s, i) + {r}]
    case Remove(i, r) => s.held[i := HeldBy(s, i) - {r}]
    case Crash(i) => s.held - {i}
    case _ => s.held
  }

  function BeatsAfter(s: State, e: Event): map<Instance, Beat>
    requires Enabled(s, e)
  {
    match e
    case Snapshot(i) => s.beats[i := Putting(HeldBy(s, i))]
    case Put(i, r) => s.beats[i := Putting(BeatOf(s, i).left - {r})]
    case PutFailed(i, r) => s.beats[i := Putting(BeatOf(s, i).left - {r})]
    case RoundDone(i) => s.beats[i := Asleep]
    case Crash(i) => s.beats - {i}
    case _ => s.beats
  }

  function Effect(s: State, e: Event): State
    requires Enabled(s, e)
  {
    State(BucketAfter(s, e), PhasesAfter(s, e), HeldAfter(s, e), BeatsAfter(s, e))
  }

  ghost predicate Step(s: State, e: Event, t: State) { Enabled(s, e) && t == Effect(s, e) }

  /** From the moment the key is created until the release has deleted it or decided not to. */
  predicate Owns(s: State, i: Instance, r: Resource) {
    PhaseOf(s, i, r) in {Created, Held, Deleting}
  }

  ghost predicate Owned(s: State, r: Resource) { exists i :: Owns(s, i, r) }

  /** Two instances are never both between a successful acquire and the end of its release. */
  ghost predicate MutualExclusion(s: State) {
    forall i, j, r :: Owns(s, i, r) && Owns(s, j, r) ==> i == j
  }

  /** The invariant. Nothing is said about the stored id: only that an owned key exists. */
  ghost predicate Safe(s: State) {
    && MutualExclusion(s)
    && forall i, r :: Owns(s, i, r) ==> r in s.bucket
  }

  const INITIAL := State(map[], map[], map[], map[])

  /** The only assumption: an entry is not dropped while an instance owns the resource. */
  ghost predicate NoLiveExpiry(s: State, e: Event) { e.Expire? ==> !Owned(s, e.r) }

  /** Ownership changes only for the instance and resource of the step: it begins with a create of an absent key,
      it ends with a read of another id, a delete, or a crash. */
  lemma {:induction false} OwnershipChanges(s: State, e: Event, t: State, j: Instance, q: Resource)
    requires Step(s, e, t)
    ensures Owns(t, j, q) ==> Owns(s, j, q) || (e == Create(j, q) && q !in s.bucket)
    ensures Owns(s, j, q) && !Owns(t, j, q) ==>
              e in {ReadOther(j, q), Delete(j, q), DeleteFailed(j, q), Crash(j)}
  {
  }

  /** A key disappears only by its owner's delete or by expiry. */
  lemma {:induction false} KeyDisappears(s: State, e: Event, t: State, q: Resource)
    requires Step(s, e, t) && q in s.bucket && q !in t.bucket
    ensures e == Expire(q) || (e.Delete? && e.r == q && PhaseOf(s, e.i, q) == Deleting)
  {
  }

  /** Every step keeps the invariant, stale heartbeat puts included. */
  lemma {:induction false} StepKeepsSafe(s: State, e: Event, t: State)
    requires Safe(s) && Step(s, e, t) && NoLiveExpiry(s, e)
    ensures Safe(t)
  {
    forall i, j, r | Owns(t, i, r) && Owns(t, j, r) ensures i == j {
      OwnershipChanges(s, e, t, i, r);
      OwnershipChanges(s, e, t, j, r);
    }
    forall i, r | Owns(t, i, r) ensures r in t.bucket {
      OwnershipChanges(s, e, t, i, r);
      if r in s.bucket && r !in t.bucket {
        KeyDisappears(s, e, t, r);
        if e.Delete? { OwnershipChanges(s, e, t, e.i, r); }
      }
    }
  }

  // ----- whole runs -----

  ghost predicate IsRun(states: seq<State>, events: seq<Event>) {
    && |states| == |events| + 1 && states[0] == INITIAL
    && forall k :: 0 <= k < |events| ==> Step(states[k], events[k], states[k + 1])
  }

  /** Mutual exclusion over every run in which no owned key expires, however the heartbeats interleave. */
  lemma {:induction false} MutualExclusionOverRuns(states: seq<State>, events: seq<Event>, n: nat)
    requires IsRun(states, events) && n < |states|
    requires forall k :: 0 <= k < |events| ==> NoLiveExpiry(states[k], events[k])
    ensures Safe(states[n])
  {
    if n > 0 {
      MutualExclusionOverRuns(states, events, n - 1);
      StepKeepsSafe(states[n - 1], events[n - 1], states[n]);
    }
  }

  lemma {:induction false} StepKeepsHeld(s: State, e: Event, t: State, i: Instance, r: Resource)
    requires Step(s, e, t)
    requires r in HeldBy(s, i) <==> PhaseOf(s, i, r) in {Held, Deleting, Removing}
    ensures r in HeldBy(t, i) <==> PhaseOf(t, i, r) in {Held, Deleting, Removing}
  {
  }

  /** Over every run, the held set of an instance is exactly what it has acquired and not yet finished releasing: so
      the heartbeat takes up a lock with the insert and drops it, but for a round under way, with the remove. */
  lemma {:induction false} HeldExactly(states: seq<State>, events: seq<Event>, n: nat, i: Instance, r: Resource)
    requires IsRun(states, events) && n < |states|
    ensures r in HeldBy(states[n], i) <==> PhaseOf(states[n], i, r) in {Held, Deleting, Removing}
  {
    if n > 0 {
      HeldExactly(states, events, n - 1, i, r);
      StepKeepsHeld(states[n - 1], events[n - 1], states[n], i, r);
    }
  }

  // ----- why the invariant is what it is -----

  /** One more step on a run. */
  lemma {:induction false} Extend(states: seq<State>, events: seq<Event>, e: Event)
    returns (states': seq<State>, events': seq<Event>)
    requires IsRun(states, events) && Enabled(states[|events|], e) && !e.Expire?
    requires forall k :: 0 <= k < |events| ==> !events[k].Expire?
    ensures IsRun(states', events') && events' == events + [e]
    ensures states'[|events'|] == Effect(states[|events|], e)
    ensures forall k :: 0 <= k < |events'| ==> !events'[k].Expire?
  {
    states', events' := states + [Effect(states[|events|], e)], events + [e];
    forall k | 0 <= k < |events'| ensures Step(states'[k], events'[k], states'[k + 1]) {
      if k < |events| { assert Step(states[k], events[k], states[k + 1]); }
    }
  }

  ghost predicate Quiet(events: seq<Event>) { forall k :: 0 <= k < |events| ==> !events[k].Expire? }

  /** An instance acquires, and its heartbeat takes a snapshot. */
  lemma {:induction false} AcquireAndSnapshot(a: Instance, r: Resource) returns (states: seq<State>, events: seq<Event>)
    ensures IsRun(states, events) && Quiet(events)
    ensures states[|events|] == State(map[r := a], map[(a, r) := Held], map[a := {r}], map[a := Putting({r})])
  {
    states, events := [INITIAL], [];
    states, events := Extend(states, events, Create(a, r));
    states, events := Extend(states, events, Insert(a, r));
    states, events := Extend(states, events, Snapshot(a));
    var s := states[|events|];
    assert HeldBy(INITIAL, a) + {r} == {r};
    assert s == State(map[r := a], map[(a, r) := Held], map[a := {r}], map[a := Putting({r})]);
  }

  /** It then releases, while the heartbeat round is still under way. */
  lemma {:induction false} ReleaseDuringRound(a: Instance, r: Resource) returns (states: seq<State>, events: seq<Event>)
    ensures IsRun(states, events) && Quiet(events)
    ensures states[|events|] == State(map[], map[(a, r) := Idle], map[a := {}], map[a := Putting({r})])
  {
    states, events := AcquireAndSnapshot(a, r);
    states, events := Extend(states, events, ReadOwn(a, r));
    states, events := Extend(states, events, Delete(a, r));
    states, events := Extend(states, events, Remove(a, r));
    var s := states[|events|];
    assert {r} - {r} == {} && s.bucket == map[];
    assert s == State(map[], map[(a, r) := Idle], map[a := {}], map[a := Putting({r})]);
  }

  /** The stored id says nothing about the holder: in a run without any expiry, a heartbeat put from a snapshot
      taken before a release overwrites the id of the next holder. */
  lemma {:induction false} StaleBeatOverwritesOwner(a: Instance, c: Instance, r: Resource)
    returns (states: seq<State>, events: seq<Event>)
    requires a != c
    ensures IsRun(states, events) && Quiet(events)
    ensures var s := states[|events|]; Owns(s, c, r) && r in s.bucket && s.bucket[r] == a
  {
    states, events := ReleaseDuringRound(a, r);
    states, events := Extend(states, events, Create(c, r));
    states, events := Extend(states, events, Put(a, r));
  }

  /** The assumption cannot be dropped: in any state, once an owned key expires, any other instance that is idle
      on the resource can break mutual exclusion with its next request. */
  lemma {:induction false} LiveExpiryBreaksExclusion(s: State, i: Instance, j: Instance, r: Resource)
    requires Owns(s, i, r) && r in s.bucket && i != j && PhaseOf(s, j, r) == Idle
    ensures var t := Effect(s, Expire(r));
            Enabled(t, Create(j, r)) && !MutualExclusion(Effect(t, Create(j, r)))
  {
    var u := Effect(Effect(s, Expire(r)), Create(j, r));
    assert Owns(u, i, r) && Owns(u, j, r);
  }
}
