/** The NATS lock with time (wfe-nats/src/lock.rs): the bucket drops an entry a TTL after its last write, and the
    heartbeat rewrites what an instance holds every third of the TTL. */
module NatsHeartbeat {
  import opened NatsLock

  /** Durations. insertDelay: from a successful create to the insertion into the held set. puts: from a snapshot
      to the last put of its round. oversleep: how much longer than asked a sleep may take. */
  datatype Timing = Timing(ttl: nat, insertDelay: nat, puts: nat, oversleep: nat) {
    function Interval(): nat { ttl / 3 }

    /** A key created and then inserted just after a snapshot is put again within the TTL: the rest of that round, a
        sleep and the next round come first. */
    predicate Fast() { insertDelay + puts + ttl / 3 + oversleep + puts < ttl }
  }

  /** The rule of thumb: create-to-insert delay plus one heartbeat round, oversleep counted, under a third of
      the TTL. */
  lemma {:induction false} ThirdSuffices(c: Timing)
    requires 3 * (c.insertDelay + c.puts + c.oversleep) < c.ttl
    ensures c.Fast()
  {
  }

  /** The heartbeat task of an instance: asleep, or in a round, since when. */
  datatype Timer = Sleeping(since: nat) | Busy(since: nat)

  datatype Timed = Timed(
    core: State,
    now: nat,
    written: map<Resource, nat>,             // last write of each stored key
    created: map<(Instance, Resource), nat>, // successful create of each task
    timers: map<Instance, Timer>)            // instances whose heartbeat runs

  datatype TimedEvent = Start(i: Instance) | Tick(d: nat) | At(e: Event)

  /** The heartbeat of an instance wakes up, and finishes its round, in time. */
  ghost predicate BeatOnTime(c: Timing, s: Timed, i: Instance) {
    i in s.timers ==>
      match s.timers[i]
      case Sleeping(since) => since <= s.now <= since + c.Interval() + c.oversleep
      case Busy(since) => since <= s.now <= since + c.puts
  }

  /** A created lock is inserted in time. */
  ghost predicate InsertOnTime(c: Timing, s: Timed, i: Instance, r: Resource) {
    PhaseOf(s.core, i, r) == Created && (i, r) in s.created ==>
      s.created[(i, r)] <= s.now <= s.created[(i, r)] + c.insertDelay
  }

  /** The deadlines that time may not pass. */
  ghost predicate OnTime(c: Timing, s: Timed) {
    (forall i :: BeatOnTime(c, s, i)) && (forall i, r :: InsertOnTime(c, s, i, r))
  }

  ghost predicate TimedEnabled(c: Timing, s: Timed, e: TimedEvent) {
    match e
    case Start(i) => i !in s.timers && BeatOf(s.core, i) == Asleep
    case Tick(d) => OnTime(c, s.(now := s.now + d))
    case At(x) =>
      && Enabled(s.core, x)
      && (x.Create? ==> x.i in s.timers)
      && (x.Snapshot? ==> x.i in s.timers && s.timers[x.i].Sleeping? && s.now >= s.timers[x.i].since + c.Interval())
      && !x.PutFailed?
      && (x.Expire? ==> x.r in s.written && s.written[x.r] + c.ttl <= s.now)
  }

  function WrittenAfter(s: Timed, e: Event): map<Resource, nat> {
    match e
    case Create(_, r) => s.written[r := s.now]
    case CreateUnheard(_, r) => s.written[r := s.now]
    case Put(_, r) => s.written[r := s.now]
    case Delete(_, r) => s.written - {r}
    case Expire(r) => s.written - {r}
    case _ => s.written
  }

  function TimersAfter(s: Timed, e: Event): map<Instance, Timer> {
    match e
    case Snapshot(i) => s.timers[i := Busy(s.now)]
    case RoundDone(i) => s.timers[i := Sleeping(s.now)]
    case Crash(i) => s.timers - {i}
    case _ => s.timers
  }

  function TimedEffect(s: Timed, e: TimedEvent): Timed
    requires e.At? ==> Enabled(s.core, e.e)
  {
    match e
    case Start(i) => s.(timers := s.timers[i := Sleeping(s.now)])
    case Tick(d) => s.(now := s.now + d)
    case At(x) =>
      Timed(Effect(s.core, x), s.now, WrittenAfter(s, x),
            if x.Create? then s.created[(x.i, x.r) := s.now] else s.created, TimersAfter(s, x))
  }

  ghost predicate TimedStep(c: Timing, s: Timed, e: TimedEvent, t: Timed) {
    TimedEnabled(c, s, e) && t == TimedEffect(s, e)
  }

  /** The latest moment of the next heartbeat put for a held resource. */
  function Due(c: Timing, s: Timed, i: Instance, r: Resource): nat
    requires i in s.timers
  {
    match s.timers[i]
    case Sleeping(since) => since + c.Interval() + c.oversleep + c.puts
    case Busy(since) =>
      if BeatOf(s.core, i).Putting? && r in BeatOf(s.core, i).left then since + c.puts
      else since + c.puts + c.Interval() + c.oversleep + c.puts
  }

  ghost predicate Clocked(s: Timed, i: Instance) {
    && (i in s.timers ==> (s.timers[i].Sleeping? <==> BeatOf(s.core, i) == Asleep))
    && (i !in s.timers ==> BeatOf(s.core, i) == Asleep)
  }

  ghost predicate Stamped(s: Timed, r: Resource) { r in s.written <==> r in s.core.bucket }

  /** An owned key will be rewritten before it can expire. */
  ghost predicate Covered(c: Timing, s: Timed, i: Instance, r: Resource) {
    && i in s.timers && r in s.written && s.written[r] <= s.now
    && (PhaseOf(s.core, i, r) == Created ==> (i, r) in s.created && s.created[(i, r)] <= s.written[r])
    && (PhaseOf(s.core, i, r) in {Held, Deleting} ==>
          r in HeldBy(s.core, i) && Due(c, s, i, r) < s.written[r] + c.ttl)
  }

  ghost predicate TimedSafe(c: Timing, s: Timed) {
    && Safe(s.core)
    && OnTime(c, s)
    && (forall r :: Stamped(s, r))
    && (forall i :: Clocked(s, i))
    && (forall i, r :: Owns(s.core, i, r) ==> Covered(c, s, i, r))
  }

  /** A covered key has not reached the end of its TTL. */
  lemma {:induction false} CoveredIsFresh(c: Timing, s: Timed, i: Instance, r: Resource)
    requires c.Fast() && OnTime(c, s) && Owns(s.core, i, r) && Covered(c, s, i, r)
    ensures s.now < s.written[r] + c.ttl
  {
    assert BeatOnTime(c, s, i) && InsertOnTime(c, s, i, r);
  }

  lemma {:induction false} NoLiveExpiryInTime(c: Timing, s: Timed, e: TimedEvent)
    requires c.Fast() && TimedSafe(c, s) && TimedEnabled(c, s, e) && e.At?
    ensures NoLiveExpiry(s.core, e.e)
  {
    if e.e.Expire? && Owned(s.core, e.e.r) {
      var i :| Owns(s.core, i, e.e.r);
      CoveredIsFresh(c, s, i, e.e.r);
    }
  }

  /** What a step does to the clock data of one instance. */
  lemma {:induction false} StepKeepsClocked(c: Timing, s: Timed, e: TimedEvent, t: Timed, i: Instance)
    requires TimedStep(c, s, e, t) && Clocked(s, i)
    ensures Clocked(t, i)
  {
  }

  lemma {:induction false} StepKeepsStamped(c: Timing, s: Timed, e: TimedEvent, t: Timed, r: Resource)
    requires TimedStep(c, s, e, t) && Stamped(s, r)
    ensures Stamped(t, r)
  {
  }

  lemma {:induction false} StepKeepsBeatOnTime(c: Timing, s: Timed, e: TimedEvent, t: Timed, i: Instance)
    requires TimedStep(c, s, e, t) && BeatOnTime(c, s, i)
    ensures BeatOnTime(c, t, i)
  {
  }

  lemma {:induction false} StepKeepsInsertOnTime(c: Timing, s: Timed, e: TimedEvent, t: Timed, i: Instance, r: Resource)
    requires TimedStep(c, s, e, t) && InsertOnTime(c, s, i, r)
    ensures InsertOnTime(c, t, i, r)
  {
  }

  /** A write time only moves forward while the key stays. */
  lemma {:induction false} WritesMoveForward(c: Timing, s: Timed, e: TimedEvent, t: Timed, r: Resource)
    requires TimedStep(c, s, e, t) && r in s.written && s.written[r] <= s.now && r in t.written
    ensures s.written[r] <= t.written[r] <= t.now
  {
  }

  /** Which steps touch the heartbeat of an instance. */
  ghost predicate Beats(e: TimedEvent, i: Instance) {
    || e == Start(i)
    || (e.At? && e.e in {Snapshot(i), RoundDone(i), Crash(i)})
    || (e.At? && (e.e.Put? || e.e.PutFailed?) && e.e.i == i)
  }

  lemma {:induction false} OtherStepsKeepBeat(c: Timing, s: Timed, e: TimedEvent, t: Timed, i: Instance)
    requires TimedStep(c, s, e, t) && i in s.timers && !Beats(e, i)
    ensures i in t.timers && t.timers[i] == s.timers[i] && BeatOf(t.core, i) == BeatOf(s.core, i)
  {
  }

  lemma {:induction false} OwnedStaysHeld(c: Timing, s: Timed, e: TimedEvent, t: Timed, i: Instance, r: Resource)
    requires TimedStep(c, s, e, t) && r in HeldBy(s.core, i)
    requires PhaseOf(s.core, i, r) in {Held, Deleting} && PhaseOf(t.core, i, r) in {Held, Deleting}
    ensures r in HeldBy(t.core, i)
  {
  }

  /** The next put of a resource that stays held never moves back; its own put renews the entry. */
  lemma {:induction false} DueKept(c: Timing, s: Timed, e: TimedEvent, t: Timed, i: Instance, r: Resource)
    requires c.Fast() && TimedStep(c, s, e, t) && BeatOnTime(c, s, i) && Clocked(s, i)
    requires PhaseOf(s.core, i, r) in {Held, Deleting} && Covered(c, s, i, r)
    requires PhaseOf(t.core, i, r) in {Held, Deleting} && r in t.written
    ensures Covered(c, t, i, r)
  {
    WritesMoveForward(c, s, e, t, r);
    OwnedStaysHeld(c, s, e, t, i, r);
    if !Beats(e, i) {
      OtherStepsKeepBeat(c, s, e, t, i);
    } else {
      BeatKeepsDue(c, s, e.e, t, i, r);
    }
  }

  /** The steps of the heartbeat itself: a snapshot includes what is held, a put renews its entry, and the end of a
      round starts the next sleep. */
  lemma {:induction false} BeatKeepsDue(c: Timing, s: Timed, x: Event, t: Timed, i: Instance, r: Resource)
    requires c.Fast() && TimedStep(c, s, At(x), t) && BeatOnTime(c, s, i) && Clocked(s, i)
    requires x in {Snapshot(i), RoundDone(i)} || (x.Put? && x.i == i)
    requires i in s.timers && r in s.written && r in t.written && s.written[r] <= t.written[r]
    requires r in HeldBy(s.core, i) && Due(c, s, i, r) < s.written[r] + c.ttl
    ensures i in t.timers && Due(c, t, i, r) < t.written[r] + c.ttl
  {
  }

  /** A resource inserted after its create, even right after a snapshot, is put again before its entry expires. */
  lemma {:induction false} InsertIsCovered(c: Timing, s: Timed, t: Timed, i: Instance, r: Resource)
    requires c.Fast() && TimedStep(c, s, At(Insert(i, r)), t) && BeatOnTime(c, s, i) && InsertOnTime(c, s, i, r)
    requires Clocked(s, i) && Covered(c, s, i, r)
    ensures Covered(c, t, i, r)
  {
  }

  lemma {:induction false} CreatedKept(c: Timing, s: Timed, e: TimedEvent, t: Timed, i: Instance, r: Resource)
    requires TimedStep(c, s, e, t) && PhaseOf(s.core, i, r) == Created && Covered(c, s, i, r)
    requires PhaseOf(t.core, i, r) == Created && r in t.written
    ensures Covered(c, t, i, r)
  {
    WritesMoveForward(c, s, e, t, r);
  }

  /** Every timed step keeps the invariant. */
  lemma {:induction false} TimedStepKeepsSafe(c: Timing, s: Timed, e: TimedEvent, t: Timed)
    requires c.Fast() && TimedSafe(c, s) && TimedStep(c, s, e, t)
    ensures TimedSafe(c, t)
  {
    if e.At? {
      NoLiveExpiryInTime(c, s, e);
      StepKeepsSafe(s.core, e.e, t.core);
    }
    forall i ensures BeatOnTime(c, t, i) { StepKeepsBeatOnTime(c, s, e, t, i); }
    forall i, r ensures InsertOnTime(c, t, i, r) { StepKeepsInsertOnTime(c, s, e, t, i, r); }
    forall r ensures Stamped(t, r) { StepKeepsStamped(c, s, e, t, r); }
    forall i ensures Clocked(t, i) { StepKeepsClocked(c, s, e, t, i); }
    forall i, r | Owns(t.core, i, r) ensures Covered(c, t, i, r) {
      assert Stamped(t, r);
      OwnedIsCovered(c, s, e, t, i, r);
    }
  }

  lemma {:induction false} OwnedIsCovered(c: Timing, s: Timed, e: TimedEvent, t: Timed, i: Instance, r: Resource)
    requires c.Fast() && TimedSafe(c, s) && TimedStep(c, s, e, t) && Owns(t.core, i, r) && r in t.written
    ensures Covered(c, t, i, r)
  {
    if e.At? { OwnershipChanges(s.core, e.e, t.core, i, r); }
    if !Owns(s.core, i, r) {
      assert e == At(Create(i, r));
    } else {
      assert Covered(c, s, i, r) && Clocked(s, i) && BeatOnTime(c, s, i) && InsertOnTime(c, s, i, r);
      if PhaseOf(s.core, i, r) == Created {
        if PhaseOf(t.core, i, r) == Created {
          CreatedKept(c, s, e, t, i, r);
        } else {
          assert e == At(Insert(i, r));
          InsertIsCovered(c, s, t, i, r);
        }
      } else {
        DueKept(c, s, e, t, i, r);
      }
    }
  }

  // ----- whole runs -----

  const INITIAL_TIMED := Timed(INITIAL, 0, map[], map[], map[])

  ghost predicate IsTimedRun(c: Timing, states: seq<Timed>, events: seq<TimedEvent>) {
    && |states| == |events| + 1 && states[0] == INITIAL_TIMED
    && forall k :: 0 <= k < |events| ==> TimedStep(c, states[k], events[k], states[k + 1])
  }

  /** Heartbeat bound: over every timed run, no owned key ever reaches the end of its TTL, and so mutual exclusion
      holds with the server's own expiry. */
  lemma {:induction false} HeldLocksNeverExpire(c: Timing, states: seq<Timed>, events: seq<TimedEvent>, n: nat)
    requires c.Fast() && IsTimedRun(c, states, events) && n < |states|
    ensures TimedSafe(c, states[n])
    ensures MutualExclusion(states[n].core)
    ensures forall i, r :: Owns(states[n].core, i, r) ==>
              r in states[n].written && states[n].now < states[n].written[r] + c.ttl
  {
    if n > 0 {
      HeldLocksNeverExpire(c, states, events, n - 1);
      TimedStepKeepsSafe(c, states[n - 1], events[n - 1], states[n]);
    }
    forall i, r | Owns(states[n].core, i, r)
      ensures r in states[n].written && states[n].now < states[n].written[r] + c.ttl
    {
      CoveredIsFresh(c, states[n], i, r);
    }
  }
}
