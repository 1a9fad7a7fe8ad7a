/** The heartbeat bound of the NATS lock is exact (wfe-nats/src/lock.rs): whenever it fails, there is a timed run in
    which a key reaches the end of its TTL while its holder owns it. */
module NatsHeartbeatBound {
  import opened NatsLock
  import opened NatsHeartbeat

  ghost predicate Reaches(c: Timing, s: Timed) {
    exists states, events :: IsTimedRun(c, states, events) && states[|events|] == s
  }

  lemma {:induction false} Extend(c: Timing, s: Timed, e: TimedEvent, t: Timed)
    requires Reaches(c, s) && TimedStep(c, s, e, t)
    ensures Reaches(c, t)
  {
    var states, events :| IsTimedRun(c, states, events) && states[|events|] == s;
    var longer, all := states + [t], events + [e];
    forall k | 0 <= k < |all| ensures TimedStep(c, longer[k], all[k], longer[k + 1]) {
      if k < |events| { assert TimedStep(c, states[k], events[k], states[k + 1]); }
    }
    assert IsTimedRun(c, longer, all) && longer[|all|] == t;
  }

  /** An owned key has reached the end of its TTL, so that the server may drop it. */
  ghost predicate Overdue(c: Timing, s: Timed, i: Instance, r: Resource) {
    Owns(s.core, i, r) && r in s.written && s.written[r] + c.ttl <= s.now
  }

  ghost predicate CanBeOverdue(c: Timing) {
    exists s, i, r :: Reaches(c, s) && Overdue(c, s, i, r)
  }

  /** One instance, one resource, created at time `x`. */
  function One(i: Instance, r: Resource, x: nat, now: nat, phase: Phase, held: map<Instance, set<Resource>>,
               beat: Beat, timer: Timer): Timed
  {
    Timed(State(map[r := i], map[(i, r) := phase], held, map[i := beat]), now,
          map[r := x], map[(i, r) := x], map[i := timer])
  }

  /** Time passes while the one instance is on time. */
  lemma {:induction false} Wait(c: Timing, s: Timed, i: Instance, r: Resource, d: nat)
    requires Reaches(c, s) && s.timers.Keys == {i} && s.created.Keys <= {(i, r)}
    requires BeatOnTime(c, s.(now := s.now + d), i) && InsertOnTime(c, s.(now := s.now + d), i, r)
    ensures Reaches(c, s.(now := s.now + d))
  {
    var t := s.(now := s.now + d);
    assert forall j :: BeatOnTime(c, t, j);
    forall j, q ensures InsertOnTime(c, t, j, q) { assert (j, q) in t.created ==> (j, q) == (i, r); }
    assert TimedStep(c, s, Tick(d), t);
    Extend(c, s, Tick(d), t);
  }

  lemma {:induction false} EndRound(
      c: Timing, i: Instance, r: Resource, x: nat, now: nat, phase: Phase, held: map<Instance, set<Resource>>,
      since: nat)
    requires Reaches(c, One(i, r, x, now, phase, held, Putting({}), Busy(since)))
    ensures Reaches(c, One(i, r, x, now, phase, held, Asleep, Sleeping(now)))
  {
    var s := One(i, r, x, now, phase, held, Putting({}), Busy(since));
    var t := One(i, r, x, now, phase, held, Asleep, Sleeping(now));
    assert s.timers[i := Sleeping(now)] == t.timers && s.core.beats[i := Asleep] == t.core.beats;
    Extend(c, s, At(RoundDone(i)), t);
  }

  lemma {:induction false} BeginRound(
      c: Timing, i: Instance, r: Resource, x: nat, now: nat, phase: Phase, held: map<Instance, set<Resource>>,
      since: nat)
    requires Reaches(c, One(i, r, x, now, phase, held, Asleep, Sleeping(since))) && since + c.Interval() <= now
    ensures var beat := Putting(HeldBy(One(i, r, x, now, phase, held, Asleep, Sleeping(since)).core, i));
            Reaches(c, One(i, r, x, now, phase, held, beat, Busy(now)))
  {
    var s := One(i, r, x, now, phase, held, Asleep, Sleeping(since));
    var beat := Putting(HeldBy(s.core, i));
    var t := One(i, r, x, now, phase, held, beat, Busy(now));
    assert s.timers[i := Busy(now)] == t.timers && s.core.beats[i := beat] == t.core.beats;
    Extend(c, s, At(Snapshot(i)), t);
  }

  lemma {:induction false} InsertOne(c: Timing, i: Instance, r: Resource, x: nat, now: nat, since: nat)
    requires Reaches(c, One(i, r, x, now, Created, map[], Putting({}), Busy(since)))
    ensures Reaches(c, One(i, r, x, now, Held, map[i := {r}], Putting({}), Busy(since)))
  {
    var s := One(i, r, x, now, Created, map[], Putting({}), Busy(since));
    var t := One(i, r, x, now, Held, map[i := {r}], Putting({}), Busy(since));
    assert s.core.phases[(i, r) := Held] == t.core.phases && HeldBy(s.core, i) + {r} == {r};
    Extend(c, s, At(Insert(i, r)), t);
  }

  /** The one instance waits, within its deadlines. */
  lemma {:induction false} WaitOne(
      c: Timing, i: Instance, r: Resource, x: nat, now: nat, phase: Phase, held: map<Instance, set<Resource>>,
      beat: Beat, timer: Timer, d: nat)
    requires Reaches(c, One(i, r, x, now, phase, held, beat, timer))
    requires timer.since <= now && x <= now
    requires now + d <= timer.since + if timer.Sleeping? then c.Interval() + c.oversleep else c.puts
    requires phase == Created ==> now + d <= x + c.insertDelay
    ensures Reaches(c, One(i, r, x, now + d, phase, held, beat, timer))
  {
    Wait(c, One(i, r, x, now, phase, held, beat, timer), i, r, d);
  }

  lemma {:induction false} StartAndWait(c: Timing, i: Instance, r: Resource, x: nat)
    requires x <= c.Interval()
    ensures Reaches(c, Timed(INITIAL, x, map[], map[], map[i := Sleeping(0)]))
  {
    assert IsTimedRun(c, [INITIAL_TIMED], []);
    assert Reaches(c, INITIAL_TIMED);
    var s := INITIAL_TIMED.(timers := map[i := Sleeping(0)]);
    Extend(c, INITIAL_TIMED, Start(i), s);
    Wait(c, s, i, r, x);
  }

  /** The key is created and, `m` later, a snapshot is taken that does not contain it. */
  lemma {:induction false} CreateBeforeSnapshot(c: Timing, i: Instance, r: Resource, m: nat)
    requires m <= c.Interval() && m <= c.insertDelay
    ensures Reaches(c, One(i, r, c.Interval() - m, c.Interval(), Created, map[], Putting({}), Busy(c.Interval())))
  {
    var x := c.Interval() - m;
    StartAndWait(c, i, r, x);
    var s := Timed(INITIAL, x, map[], map[], map[i := Sleeping(0)]);
    var t := s.(core := State(map[r := i], map[(i, r) := Created], map[], map[]),
                written := map[r := x], created := map[(i, r) := x]);
    Extend(c, s, At(Create(i, r)), t);
    Wait(c, t, i, r, m);
    SnapshotFirst(c, i, r, x, x + m);
  }

  lemma {:induction false} SnapshotFirst(c: Timing, i: Instance, r: Resource, x: nat, now: nat)
    requires c.Interval() <= now
    requires Reaches(c, Timed(State(map[r := i], map[(i, r) := Created], map[], map[]), now,
                              map[r := x], map[(i, r) := x], map[i := Sleeping(0)]))
    ensures Reaches(c, One(i, r, x, now, Created, map[], Putting({}), Busy(now)))
  {
    var s := Timed(State(map[r := i], map[(i, r) := Created], map[], map[]), now,
                   map[r := x], map[(i, r) := x], map[i := Sleeping(0)]);
    Extend(c, s, At(Snapshot(i)), One(i, r, x, now, Created, map[], Putting({}), Busy(now)));
  }

  function Times(q: nat, interval: nat): nat { if q == 0 then 0 else interval + Times(q - 1, interval) }

  lemma {:induction false} Divide(d: nat, interval: nat) returns (q: nat, m: nat)
    requires interval > 0
    ensures d == Times(q, interval) + m && m < interval
    decreases d
  {
    if d < interval {
      q, m := 0, d;
    } else {
      q, m := Divide(d - interval, interval);
      q := q + 1;
    }
  }

  /** Empty rounds pass while the key waits to be inserted. */
  lemma {:induction false} EmptyRounds(c: Timing, i: Instance, r: Resource, x: nat, now: nat, q: nat)
    requires x <= now && now + Times(q, c.Interval()) <= x + c.insertDelay
    requires Reaches(c, One(i, r, x, now, Created, map[], Putting({}), Busy(now)))
    ensures var end := now + Times(q, c.Interval());
            Reaches(c, One(i, r, x, end, Created, map[], Putting({}), Busy(end)))
    decreases q
  {
    if q > 0 {
      EndRound(c, i, r, x, now, Created, map[], now);
      WaitOne(c, i, r, x, now, Created, map[], Asleep, Sleeping(now), c.Interval());
      BeginRound(c, i, r, x, now + c.Interval(), Created, map[], now);
      EmptyRounds(c, i, r, x, now + c.Interval(), q - 1);
    }
  }

  /** The key is inserted just after a snapshot: the rest of that round, a sleep and a whole round pass before it is
      put. */
  lemma {:induction false} LongestWait(c: Timing, i: Instance, r: Resource, x: nat, now: nat)
    requires x <= now && Reaches(c, One(i, r, x, now, Created, map[], Putting({}), Busy(now)))
    ensures var end := now + c.puts + c.Interval() + c.oversleep + c.puts;
            Reaches(c, One(i, r, x, end, Held, map[i := {r}], Putting({r}), Busy(end - c.puts)))
  {
    var held := map[i := {r}];
    InsertOne(c, i, r, x, now, now);
    WaitOne(c, i, r, x, now, Held, held, Putting({}), Busy(now), c.puts);
    var t1 := now + c.puts;
    EndRound(c, i, r, x, t1, Held, held, now);
    WaitOne(c, i, r, x, t1, Held, held, Asleep, Sleeping(t1), c.Interval() + c.oversleep);
    var t2 := t1 + c.Interval() + c.oversleep;
    BeginRound(c, i, r, x, t2, Held, held, t1);
    WaitOne(c, i, r, x, t2, Held, held, Putting({r}), Busy(t2), c.puts);
  }

  /** The bound is exact: held locks never reach the end of their TTL if and only if it holds. */
  lemma {:induction false} BoundExactly(c: Timing)
    requires c.Interval() > 0
    ensures c.Fast() <==> !CanBeOverdue(c)
  {
    if c.Fast() {
      forall s, i, r | Reaches(c, s) ensures !Overdue(c, s, i, r) {
        var states, events :| IsTimedRun(c, states, events) && states[|events|] == s;
        HeldLocksNeverExpire(c, states, events, |events|);
      }
    } else {
      var i, r := "host", "workflow";
      var q, m := Divide(c.insertDelay, c.Interval());
      var x := c.Interval() - m;
      CreateBeforeSnapshot(c, i, r, m);
      EmptyRounds(c, i, r, x, c.Interval(), q);
      var now := c.Interval() + Times(q, c.Interval());
      LongestWait(c, i, r, x, now);
      var end := now + c.puts + c.Interval() + c.oversleep + c.puts;
      assert Overdue(c, One(i, r, x, end, Held, map[i := {r}], Putting({r}), Busy(end - c.puts)), i, r);
    }
  }
}
