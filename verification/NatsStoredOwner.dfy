/** When the id stored under a NATS lock key is the holder's (wfe-nats/src/lock.rs). A release deletes the key only if
    it reads its own id, so a wrong id costs the key's remaining TTL. */
module NatsStoredOwner {
  import opened NatsLock

  predicate Stores(s: State, r: Resource, i: Instance) { r in s.bucket && s.bucket[r] == i }

  /** The heartbeat of the instance may still put the resource: it is in the held set or left in the snapshot. */
  predicate Lists(s: State, j: Instance, r: Resource) {
    r in HeldBy(s, j) || (BeatOf(s, j).Putting? && r in BeatOf(s, j).left)
  }

  ghost predicate NobodyElseLists(s: State, i: Instance, r: Resource) {
    forall j :: j != i ==> !Lists(s, j, r)
  }

  /** The owner's id is stored and no other heartbeat can overwrite it. */
  ghost predicate Secure(s: State, i: Instance, r: Resource) {
    Owns(s, i, r) && Stores(s, r, i) && NobodyElseLists(s, i, r)
  }

  // ----- every way the system can go on -----

  ghost predicate Continues(s: State, states: seq<State>, events: seq<Event>) {
    && |states| == |events| + 1 && states[0] == s
    && forall k :: 0 <= k < |events| ==> Step(states[k], events[k], states[k + 1]) && NoLiveExpiry(states[k], events[k])
  }

  ghost predicate OwnedThroughout(states: seq<State>, i: Instance, r: Resource) {
    forall k :: 0 <= k < |states| ==> Owns(states[k], i, r)
  }

  /** Some continuation, during which the owner stays the owner and no owned key expires, ends with another id
      stored. */
  ghost predicate CanBeOverwritten(s: State, i: Instance, r: Resource) {
    exists states, events ::
      Continues(s, states, events) && OwnedThroughout(states, i, r) && !Stores(states[|events|], r, i)
  }

  // ----- sufficient -----

  lemma {:induction false} NewListing(s: State, e: Event, t: State, j: Instance, r: Resource)
    requires Step(s, e, t) && Lists(t, j, r)
    ensures Lists(s, j, r) || e == Insert(j, r)
  {
  }

  lemma {:induction false} StepKeepsSecure(s: State, e: Event, t: State, i: Instance, r: Resource)
    requires Safe(s) && Step(s, e, t) && NoLiveExpiry(s, e) && Secure(s, i, r) && Owns(t, i, r)
    ensures Secure(t, i, r)
  {
    forall j | j != i ensures !Lists(t, j, r) {
      assert !Lists(s, j, r) && !Owns(s, j, r);
      if Lists(t, j, r) { NewListing(s, e, t, j, r); }
    }
    if e.Put? { assert e.r == r ==> Lists(s, e.i, r); }
    if e.Delete? { assert e.r == r ==> Owns(s, e.i, r); }
  }

  lemma {:induction false} RunKeepsSecure(states: seq<State>, events: seq<Event>, n: nat, i: Instance, r: Resource)
    requires n < |states| && Continues(states[0], states, events) && OwnedThroughout(states, i, r)
    requires Safe(states[0]) && Secure(states[0], i, r)
    ensures Safe(states[n]) && Secure(states[n], i, r)
  {
    if n > 0 {
      RunKeepsSecure(states, events, n - 1, i, r);
      StepKeepsSafe(states[n - 1], events[n - 1], states[n]);
      StepKeepsSecure(states[n - 1], events[n - 1], states[n], i, r);
    }
  }

  // ----- necessary -----

  lemma {:induction false} Prepend(s: State, e: Event, states: seq<State>, events: seq<Event>)
    requires Enabled(s, e) && NoLiveExpiry(s, e) && Continues(Effect(s, e), states, events)
    ensures Continues(s, [s] + states, [e] + events) && ([s] + states)[|[e] + events|] == states[|events|]
  {
    var all, es := [s] + states, [e] + events;
    forall k | 0 <= k < |es| ensures Step(all[k], es[k], all[k + 1]) && NoLiveExpiry(all[k], es[k]) {
      if k > 0 { assert Step(states[k - 1], events[k - 1], states[k]); }
    }
  }

  /** How far a listing heartbeat is from its next put of the resource. */
  function Distance(s: State, j: Instance, r: Resource): nat {
    match BeatOf(s, j)
    case Asleep => 1
    case Putting(left) => if r in left then 0 else 2 + |left|
  }

  /** The step that brings a listing heartbeat nearer to that put, or is that put. */
  lemma {:induction false} NextBeat(s: State, j: Instance, r: Resource) returns (e: Event)
    requires Lists(s, j, r)
    ensures Enabled(s, e) && !e.Expire?
    ensures forall i, q :: Owns(Effect(s, e), i, q) <==> Owns(s, i, q)
    ensures if Distance(s, j, r) == 0 then Stores(Effect(s, e), r, j)
            else Lists(Effect(s, e), j, r) && Distance(Effect(s, e), j, r) < Distance(s, j, r)
  {
    var beat := BeatOf(s, j);
    if beat == Asleep {
      e := Snapshot(j);
    } else if r in beat.left {
      e := Put(j, r);
    } else if beat.left == {} {
      e := RoundDone(j);
    } else {
      var x :| x in beat.left;
      e := PutFailed(j, x);
      assert BeatOf(Effect(s, e), j) == Putting(beat.left - {x});
    }
  }

  /** Another instance that still lists the resource can overwrite the owner's id: at most it finishes its round,
      takes a snapshot and puts. */
  lemma {:induction false} ListingOverwrites(s: State, i: Instance, j: Instance, r: Resource)
    requires Owns(s, i, r) && i != j && Lists(s, j, r)
    ensures CanBeOverwritten(s, i, r)
    decreases Distance(s, j, r)
  {
    var e := NextBeat(s, j, r);
    var t := Effect(s, e);
    if Distance(s, j, r) == 0 {
      assert Continues(s, [s, t], [e]) && OwnedThroughout([s, t], i, r);
    } else {
      ListingOverwrites(t, i, j, r);
      var states, events :|
        Continues(t, states, events) && OwnedThroughout(states, i, r) && !Stores(states[|events|], r, i);
      Prepend(s, e, states, events);
      assert OwnedThroughout([s] + states, i, r);
    }
  }

  // ----- exactly -----

  /** The owner's id stays stored for as long as it owns the lock, however the system goes on, if and only if it is
      stored now and no other instance still lists the resource. */
  lemma {:induction false} StoredOwnerExactly(s: State, i: Instance, r: Resource)
    requires Safe(s) && Owns(s, i, r)
    ensures !CanBeOverwritten(s, i, r) <==> Stores(s, r, i) && NobodyElseLists(s, i, r)
  {
    if !Stores(s, r, i) {
      assert Continues(s, [s], []) && OwnedThroughout([s], i, r);
    } else if !NobodyElseLists(s, i, r) {
      var j :| j != i && Lists(s, j, r);
      ListingOverwrites(s, i, j, r);
    } else {
      forall states, events | Continues(s, states, events) && OwnedThroughout(states, i, r)
        ensures Stores(states[|events|], r, i)
      {
        RunKeepsSecure(states, events, |events|, i, r);
      }
    }
  }

  /** So an acquire is safe from being overwritten if and only if nobody else lists the resource when it is made. */
  lemma {:induction false} AcquireStoredExactly(s: State, i: Instance, r: Resource)
    requires Safe(s) && Enabled(s, Create(i, r))
    ensures !CanBeOverwritten(Effect(s, Create(i, r)), i, r) <==> NobodyElseLists(s, i, r)
  {
    var t := Effect(s, Create(i, r));
    StepKeepsSafe(s, Create(i, r), t);
    StoredOwnerExactly(t, i, r);
    assert forall j :: Lists(t, j, r) <==> Lists(s, j, r);
  }

  /** Over every run without a live expiry: an acquire made while nobody else lists the resource stays stored as the
      owner's until the owner gives it up, so its release reads its own id. */
  lemma {:induction false} AcquireStaysStored(
      states: seq<State>, events: seq<Event>, m: nat, n: nat, i: Instance, r: Resource)
    requires IsRun(states, events) && forall k :: 0 <= k < |events| ==> NoLiveExpiry(states[k], events[k])
    requires m < n < |states| && events[m] == Create(i, r) && NobodyElseLists(states[m], i, r)
    requires forall k :: m < k <= n ==> Owns(states[k], i, r)
    ensures Secure(states[n], i, r)
    ensures PhaseOf(states[n], i, r) == Held ==> Enabled(states[n], ReadOwn(i, r))
    decreases n
  {
    assert Step(states[n - 1], events[n - 1], states[n]);
    if n == m + 1 {
      assert forall j :: Lists(states[n], j, r) <==> Lists(states[m], j, r);
    } else {
      AcquireStaysStored(states, events, m, n - 1, i, r);
      MutualExclusionOverRuns(states, events, n - 1);
      StepKeepsSecure(states[n - 1], events[n - 1], states[n], i, r);
    }
  }

  // ----- what a wrong id costs -----

  /** The key is there and nobody owns the lock. */
  ghost predicate Abandoned(s: State, r: Resource) { r in s.bucket && !Owned(s, r) }

  /** An owner whose id is not stored cannot read it, and its release leaves the key behind. */
  lemma {:induction false} MisreadAbandonsKey(s: State, i: Instance, r: Resource)
    requires Safe(s) && PhaseOf(s, i, r) == Held
    ensures Enabled(s, ReadOwn(i, r)) <==> Stores(s, r, i)
    ensures Abandoned(Effect(s, ReadOther(i, r)), r)
  {
    assert Owns(s, i, r);
    var t := Effect(s, ReadOther(i, r));
    forall j ensures !Owns(t, j, r) {
      OwnershipChanges(s, ReadOther(i, r), t, j, r);
    }
  }

  /** An abandoned key stays, and every acquire is refused, until the server drops the key. */
  lemma {:induction false} AbandonedUntilExpiry(states: seq<State>, events: seq<Event>, n: nat, r: Resource)
    requires n < |states| && Continues(states[0], states, events) && Abandoned(states[0], r)
    requires forall k :: 0 <= k < |events| ==> events[k] != Expire(r)
    ensures Abandoned(states[n], r) && forall j :: !Enabled(states[n], Create(j, r))
  {
    if n > 0 {
      AbandonedUntilExpiry(states, events, n - 1, r);
      var s, e, t := states[n - 1], events[n - 1], states[n];
      forall j ensures !Owns(t, j, r) {
        OwnershipChanges(s, e, t, j, r);
        assert !Owns(s, j, r);
      }
      assert e.Delete? ==> !Owns(s, e.i, r);
    }
  }
}
