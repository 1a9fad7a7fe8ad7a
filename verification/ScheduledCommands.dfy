/** The scheduled-command queue of the SQLite store (wfe-sqlite/src/lib.rs:161-171, 1049-1125): a step system in which
    schedulers and any number of concurrent processors interleave statement by statement, and the two repository
    methods run alone. */
module ScheduledCommands {
  import opened Prelude

  type RowId = nat
  type Processor = nat

  datatype Command = Command(name: string, data: string, time: int)

  datatype Entry = Entry(id: RowId, command: Command)

  /** A call of process_commands: what is left of the rows it selected, and whether the handler has succeeded on the
      first of them, so that only its DELETE is outstanding. */
  datatype Call = Call(left: seq<Entry>, handled: bool)

  /** `inserted` and `served` are history: every row there ever was, and the successful handler calls in order. */
  datatype State = State(
    rows: map<RowId, Command>,
    next: RowId,
    calls: map<Processor, Call>,
    inserted: map<RowId, Command>,
    served: seq<Entry>)

  datatype Action =
    | Schedule(command: Command)
    | Select(p: Processor, now: int, found: seq<Entry>)   // rows come in any order
    | Handle(p: Processor)
    | HandleFails(p: Processor)                           // the call returns the error
    | Delete(p: Processor)
    | Abort(p: Processor)                                 // the DELETE fails, or the processor dies
    | Done(p: Processor)

  predicate SameKey(c: Command, d: Command) { c.name == d.name && c.data == d.data }

  predicate Known(rows: map<RowId, Command>, c: Command) { exists id :: id in rows && SameKey(rows[id], c) }

  predicate Working(s: State, p: Processor) { p in s.calls && s.calls[p].left != [] }

  function Current(s: State, p: Processor): Entry
    requires Working(s, p)
  {
    s.calls[p].left[0]
  }

  function Due(rows: map<RowId, Command>, now: int): set<Entry> {
    set id | id in rows && rows[id].time <= now :: Entry(id, rows[id])
  }

  ghost predicate Enabled(s: State, a: Action) {
    match a
    case Schedule(_) => true
    case Select(p, now, found) => p !in s.calls && NoDup(found) && Elems(found) == Due(s.rows, now)
    case Handle(p) => Working(s, p) && !s.calls[p].handled
    case HandleFails(p) => Working(s, p) && !s.calls[p].handled
    case Delete(p) => Working(s, p) && s.calls[p].handled
    case Abort(p) => p in s.calls
    case Done(p) => p in s.calls && s.calls[p].left == []
  }

  /** INSERT OR IGNORE under UNIQUE(command_name, data). */
  function RowsAfter(s: State, a: Action): map<RowId, Command>
    requires Enabled(s, a)
  {
    match a
    case Schedule(c) => if Known(s.rows, c) then s.rows else s.rows[s.next := c]
    case Delete(p) => s.rows - {Current(s, p).id}
    case _ => s.rows
  }

  function CallsAfter(s: State, a: Action): map<Processor, Call>
    requires Enabled(s, a)
  {
    match a
    case Schedule(_) => s.calls
    case Select(p, _, found) => s.calls[p := Call(found, false)]
    case Handle(p) => s.calls[p := Call(s.calls[p].left, true)]
    case Delete(p) => s.calls[p := Call(s.calls[p].left[1..], false)]
    case HandleFails(p) => s.calls - {p}
    case Abort(p) => s.calls - {p}
    case Done(p) => s.calls - {p}
  }

  predicate Inserts(s: State, a: Action) { a.Schedule? && !Known(s.rows, a.command) }

  /** AUTOINCREMENT: an id once given is never given again. */
  function Effect(s: State, a: Action): State
    requires Enabled(s, a)
  {
    State(
      RowsAfter(s, a),
      if Inserts(s, a) then s.next + 1 else s.next,
      CallsAfter(s, a),
      if Inserts(s, a) then s.inserted[s.next := a.command] else s.inserted,
      if a.Handle? then s.served + [Current(s, a.p)] else s.served)
  }

  ghost predicate Step(s: State, a: Action, t: State) { Enabled(s, a) && t == Effect(s, a) }

  // ---- What every step keeps ----

  /** A row is there, unchanged, or the handler has succeeded on exactly its command. */
  predicate Kept(s: State, id: RowId)
    requires id in s.inserted
  {
    (id in s.rows && s.rows[id] == s.inserted[id]) || Entry(id, s.inserted[id]) in s.served
  }

  predicate WasInserted(s: State, x: Entry) { x.id in s.inserted && s.inserted[x.id] == x.command }

  /** What a processor holds was once inserted under that id, however old its selection is. */
  ghost predicate GoodCall(s: State, c: Call) {
    && (forall k :: 0 <= k < |c.left| ==> WasInserted(s, c.left[k]))
    && (c.handled ==> c.left != [] && c.left[0] in s.served)
  }

  ghost predicate GoodRows(s: State) {
    && (forall id :: id in s.inserted ==> id < s.next)
    && (forall id :: id in s.rows ==> id in s.inserted && s.rows[id] == s.inserted[id])
    && (forall i, j :: (i in s.rows && j in s.rows && s.rows[i].name == s.rows[j].name
                        && s.rows[i].data == s.rows[j].data) ==> i == j)
  }

  ghost predicate Safe(s: State) {
    && GoodRows(s)
    && (forall id :: id in s.inserted ==> Kept(s, id))
    && (forall p :: p in s.calls ==> GoodCall(s, s.calls[p]))
    && (forall k :: 0 <= k < |s.served| ==> WasInserted(s, s.served[k]))
  }

  lemma {:induction false} StepKeepsRows(s: State, a: Action, t: State)
    requires Step(s, a, t) && GoodRows(s)
    ensures GoodRows(t)
  {
  }

  lemma {:induction false} StepKeepsEntries(s: State, a: Action, t: State, x: Entry)
    requires Step(s, a, t) && GoodRows(s)
    ensures WasInserted(s, x) ==> WasInserted(t, x)
    ensures x in s.served ==> x in t.served
  {
  }

  lemma {:induction false} StepKeepsCall(s: State, a: Action, t: State, p: Processor)
    requires Step(s, a, t) && GoodRows(s) && p in t.calls
    requires forall q :: q in s.calls ==> GoodCall(s, s.calls[q])
    ensures GoodCall(t, t.calls[p])
  {
    var c := t.calls[p];
    forall k | 0 <= k < |c.left| ensures WasInserted(t, c.left[k]) {
      StepKeepsEntries(s, a, t, c.left[k]);
      if a.Select? && a.p == p {
        assert c.left[k] in Elems(a.found);
      } else {
        assert GoodCall(s, s.calls[p]);
        assert a == Delete(p) ==> c.left[k] == s.calls[p].left[k + 1];
      }
    }
    if c.handled && a != Handle(p) { StepKeepsEntries(s, a, t, c.left[0]); }
  }

  lemma {:induction false} StepKeepsKept(s: State, a: Action, t: State, id: RowId)
    requires Step(s, a, t) && Safe(s) && id in t.inserted
    ensures Kept(t, id)
  {
    if id in s.inserted {
      assert Kept(s, id);
      StepKeepsEntries(s, a, t, Entry(id, s.inserted[id]));
      if a.Delete? && Current(s, a.p).id == id {
        assert GoodCall(s, s.calls[a.p]);
        assert Current(s, a.p) == Entry(id, s.inserted[id]);
      }
    }
  }

  lemma {:induction false} StepKeepsSafe(s: State, a: Action, t: State)
    requires Step(s, a, t) && Safe(s)
    ensures Safe(t)
  {
    StepKeepsRows(s, a, t);
    forall id | id in t.inserted ensures Kept(t, id) { StepKeepsKept(s, a, t, id); }
    forall p | p in t.calls ensures GoodCall(t, t.calls[p]) { StepKeepsCall(s, a, t, p); }
    forall k | 0 <= k < |t.served| ensures WasInserted(t, t.served[k]) {
      if a.Handle? { assert GoodCall(s, s.calls[a.p]); }
      StepKeepsEntries(s, a, t, t.served[k]);
    }
  }

  // ---- Whole runs ----

  const INITIAL := State(map[], 1, map[], map[], [])

  /** Every way the system can go on from a state. */
  ghost predicate Continues(s: State, states: seq<State>, actions: seq<Action>) {
    && |states| == |actions| + 1 && states[0] == s
    && forall k :: 0 <= k < |actions| ==> Step(states[k], actions[k], states[k + 1])
  }

  ghost predicate IsRun(states: seq<State>, actions: seq<Action>) { Continues(INITIAL, states, actions) }

  lemma {:induction false} SafeOverRuns(states: seq<State>, actions: seq<Action>, n: nat)
    requires IsRun(states, actions) && n < |states|
    ensures Safe(states[n])
  {
    if n > 0 {
      SafeOverRuns(states, actions, n - 1);
      StepKeepsSafe(states[n - 1], actions[n - 1], states[n]);
    }
  }

  /** Whatever interleaves, a row that is in the table at some moment is there later, unchanged, or the handler has
      succeeded on exactly its command; no other command ever takes its id. */
  lemma {:induction false} NeverDropped(states: seq<State>, actions: seq<Action>, m: nat, n: nat, id: RowId)
    requires IsRun(states, actions) && m <= n < |states| && id in states[m].rows
    ensures id in states[n].rows || Entry(id, states[m].rows[id]) in states[n].served
    ensures id in states[n].rows ==> states[n].rows[id] == states[m].rows[id]
  {
    SafeOverRuns(states, actions, n);
    SafeOverRuns(states, actions, m);
    InsertedStays(states, actions, m, n, Entry(id, states[m].rows[id]));
    assert Kept(states[n], id);
  }

  lemma {:induction false} InsertedStays(states: seq<State>, actions: seq<Action>, m: nat, n: nat, x: Entry)
    requires IsRun(states, actions) && m <= n < |states| && WasInserted(states[m], x)
    ensures WasInserted(states[n], x)
  {
    if m < n {
      InsertedStays(states, actions, m, n - 1, x);
      SafeOverRuns(states, actions, n - 1);
      StepKeepsEntries(states[n - 1], actions[n - 1], states[n], x);
    }
  }

  /** A processor has yet to delete a row it has handled. */
  ghost predicate Pending(s: State, id: RowId) {
    exists p :: PendingAt(s, p, id)
  }

  predicate PendingAt(s: State, p: Processor, id: RowId) {
    Working(s, p) && s.calls[p].handled && Current(s, p).id == id
  }

  /** A handler call for a row that succeeds. */
  predicate Serves(s: State, a: Action, x: Entry) { a.Handle? && Working(s, a.p) && Current(s, a.p) == x }

  /** The row is there and nobody is about to delete it. */
  ghost predicate Untouched(s: State, x: Entry) { x.id in s.rows && s.rows[x.id] == x.command && !Pending(s, x.id) }

  ghost predicate ServedWithin(states: seq<State>, actions: seq<Action>, n: nat, x: Entry)
    requires n <= |actions| < |states|
  {
    exists k :: 0 <= k < n && Serves(states[k], actions[k], x)
  }

  lemma {:induction false} StaysUnlessServed(s: State, a: Action, t: State, x: Entry)
    requires Step(s, a, t) && Safe(s) && Untouched(s, x)
    ensures Serves(s, a, x) || Untouched(t, x)
  {
    if a.Delete? { assert !PendingAt(s, a.p, x.id); }
    if !Serves(s, a, x) {
      forall p ensures !PendingAt(t, p, x.id) {
        assert !PendingAt(s, p, x.id);
        if a == Handle(p) { assert GoodCall(s, s.calls[p]); }
      }
    }
  }

  /** A request leaves exactly one row with its name and data. The table is unchanged if and only if such a row was
      there before: that row stays as it is, with its own execution time. Otherwise the row is new, with the time of
      the request, and nobody has handled it. */
  lemma {:induction false} ScheduleLeavesOne(s: State, c: Command) returns (id: RowId)
    requires Safe(s)
    ensures var t := Effect(s, Schedule(c));
            && id in t.rows && t.rows[id].name == c.name && t.rows[id].data == c.data
            && (forall j :: j in t.rows && t.rows[j].name == c.name && t.rows[j].data == c.data ==> j == id)
            && (t.rows == s.rows <==> exists j :: j in s.rows && s.rows[j].name == c.name && s.rows[j].data == c.data)
            && (t.rows == s.rows ==> t == s)
            && (t.rows != s.rows ==> id !in s.inserted && t.rows == s.rows[id := c] && !Pending(t, id))
  {
    StepKeepsRows(s, Schedule(c), Effect(s, Schedule(c)));
    if Known(s.rows, c) {
      id :| id in s.rows && SameKey(s.rows[id], c);
    } else {
      id := s.next;
      var t := Effect(s, Schedule(c));
      forall p ensures !PendingAt(t, p, id) {
        if p in s.calls { assert GoodCall(s, s.calls[p]); }
      }
      assert forall j :: j in s.rows ==> !SameKey(s.rows[j], c);
    }
  }

  /** The row of a request can disappear without the handler ever succeeding on it after the request. */
  ghost predicate CanBeLost(s: State, id: RowId) {
    exists states, actions :: Continues(s, states, actions) && Lost(states, actions, id)
  }

  ghost predicate Lost(states: seq<State>, actions: seq<Action>, id: RowId)
    requires |states| == |actions| + 1
  {
    && id in states[0].rows && id !in states[|actions|].rows
    && forall k :: 0 <= k < |actions| ==> !Serves(states[k], actions[k], Entry(id, states[0].rows[id]))
  }

  /** A request is lost in some continuation if and only if, when it is made, a processor has already handled the equal
      row and not yet deleted it. */
  lemma {:induction false} LostExactly(s: State, id: RowId)
    requires Safe(s) && id in s.rows
    ensures CanBeLost(s, id) <==> Pending(s, id)
  {
    if Pending(s, id) {
      var p :| PendingAt(s, p, id);
      var states, actions := [s, Effect(s, Delete(p))], [Delete(p)];
      assert Continues(s, states, actions) && Lost(states, actions, id);
    } else {
      forall states, actions | Continues(s, states, actions) ensures !Lost(states, actions, id) {
        GoneMeansServed(states, actions, |actions|, Entry(id, s.rows[id]));
      }
    }
  }

  /** From a moment at which a row is there and nobody is about to delete it, the row disappears only after the
      handler has succeeded on it, later than that moment, with exactly its command. */
  lemma {:induction false} GoneMeansServed(states: seq<State>, actions: seq<Action>, n: nat, x: Entry)
    requires |states| == |actions| + 1 && n <= |actions| && Continues(states[0], states, actions)
    requires Safe(states[0]) && Untouched(states[0], x)
    ensures Safe(states[n])
    ensures ServedWithin(states, actions, n, x) || Untouched(states[n], x)
  {
    if n > 0 {
      GoneMeansServed(states, actions, n - 1, x);
      StepKeepsSafe(states[n - 1], actions[n - 1], states[n]);
      if Untouched(states[n - 1], x) { StaysUnlessServed(states[n - 1], actions[n - 1], states[n], x); }
    }
  }

  /** Some continuation takes these actions and ends in `t`. */
  ghost predicate Leads(s: State, actions: seq<Action>, t: State) {
    exists states :: Continues(s, states, actions) && states[|actions|] == t
  }

  lemma {:induction false} Extend(s: State, actions: seq<Action>, m: State, a: Action, t: State)
    requires Leads(s, actions, m) && Step(m, a, t)
    ensures Leads(s, actions + [a], t)
  {
    var states :| Continues(s, states, actions) && states[|actions|] == m;
    var longer, all := states + [t], actions + [a];
    forall k | 0 <= k < |all| ensures Step(longer[k], all[k], longer[k + 1]) {
      if k < |actions| { assert Step(states[k], actions[k], states[k + 1]); }
    }
    assert Continues(s, longer, all) && longer[|all|] == t;
  }

  /** Every path keeps the invariant. */
  lemma {:induction false} PathKeepsSafe(s: State, actions: seq<Action>, t: State)
    requires Safe(s) && Leads(s, actions, t)
    ensures Safe(t)
  {
    var states :| Continues(s, states, actions) && states[|actions|] == t;
    for n := 0 to |actions|
      invariant Safe(states[n])
    {
      StepKeepsSafe(states[n], actions[n], states[n + 1]);
    }
  }

  lemma {:induction false} One(s: State, a: Action, t: State)
    requires Step(s, a, t)
    ensures Leads(s, [a], t)
  {
    assert Continues(s, [s, t], [a]);
  }

  /** A command is scheduled, selected when due, and handled; its DELETE is outstanding. */
  lemma {:induction false} HandledNotDeleted(c: Command, p: Processor)
    ensures Leads(INITIAL, [Schedule(c)] + [Select(p, c.time, [Entry(1, c)])] + [Handle(p)],
                  State(map[1 := c], 2, map[p := Call([Entry(1, c)], true)], map[1 := c], [Entry(1, c)]))
  {
    var x := Entry(1, c);
    var s1 := State(map[1 := c], 2, map[], map[1 := c], []);
    var s2 := s1.(calls := map[p := Call([x], false)]);
    One(INITIAL, Schedule(c), s1);
    assert 1 in s1.rows && x in Due(s1.rows, c.time);
    assert Elems([x]) == Due(s1.rows, c.time);
    Extend(INITIAL, [Schedule(c)], s1, Select(p, c.time, [x]), s2);
    assert s2.served + [x] == [x];
    var s3 := s2.(calls := map[p := Call([x], true)], served := [x]);
    Extend(INITIAL, [Schedule(c)] + [Select(p, c.time, [x])], s2, Handle(p), s3);
  }

  /** A lost request exists: asked for twice, handled once, nothing left to handle. */
  lemma {:induction false} SecondRequestIsLost(c: Command, p: Processor)
    ensures var x := Entry(1, c);
            Leads(INITIAL, [Schedule(c)] + [Select(p, c.time, [x])] + [Handle(p)] + [Schedule(c)] + [Delete(p)],
                  State(map[], 2, map[p := Call([], false)], map[1 := c], [x]))
  {
    var x := Entry(1, c);
    var s := State(map[1 := c], 2, map[p := Call([x], true)], map[1 := c], [x]);
    HandledNotDeleted(c, p);
    assert s.rows[1] == c;
    var path := [Schedule(c)] + [Select(p, c.time, [x])] + [Handle(p)];
    Extend(INITIAL, path, s, Schedule(c), s);
    assert s.rows - {1} == map[] && [x][1..] == [];
    var t := State(map[], 2, map[p := Call([], false)], map[1 := c], [x]);
    assert s.calls[p := Call([], false)] == t.calls;
    Extend(INITIAL, path + [Schedule(c)], s, Delete(p), t);
  }

  // ---- The repository methods, run alone ----

  /** The rows a call has yet to treat are in the table as it selected them. */
  ghost predicate Selected(rows: map<RowId, Command>, left: seq<Entry>) {
    && (forall j :: 0 <= j < |left| ==> left[j].id in rows && rows[left[j].id] == left[j].command)
    && forall i, j :: 0 <= i < j < |left| ==> left[i].id != left[j].id
  }

  /** The handler succeeds on the first row of a call, which is then deleted. */
  lemma {:induction false} ServeFirst(start: State, path: seq<Action>, s: State, p: Processor)
    requires Leads(start, path, s) && Working(s, p) && !s.calls[p].handled
    ensures Leads(start, path + [Handle(p)] + [Delete(p)],
                  s.(rows := s.rows - {Current(s, p).id}, served := s.served + [Current(s, p)],
                     calls := s.calls[p := Call(s.calls[p].left[1..], false)]))
  {
    var x, left := Current(s, p), s.calls[p].left;
    var m := s.(served := s.served + [x], calls := s.calls[p := Call(left, true)]);
    Extend(start, path, s, Handle(p), m);
    var t := s.(rows := s.rows - {x.id}, served := s.served + [x], calls := s.calls[p := Call(left[1..], false)]);
    assert m.calls[p := Call(left[1..], false)] == t.calls;
    Extend(start, path + [Handle(p)], m, Delete(p), t);
  }

  lemma {:induction false} EndCall(start: State, path: seq<Action>, s: State, a: Action, p: Processor)
    requires Leads(start, path, s) && s.calls.Keys == {p}
    requires a in {HandleFails(p), Done(p)} && Enabled(s, a)
    ensures Leads(start, path + [a], s.(calls := map[]))
  {
    assert s.calls - {p} == map[];
    Extend(start, path, s, a, s.(calls := map[]));
  }

  /** How far a call has come: every treated row is gone, every other row is as it was. */
  ghost predicate Treated(rows0: map<RowId, Command>, rows: map<RowId, Command>, found: seq<Entry>, k: nat)
    requires k <= |found|
  {
    && (forall j :: 0 <= j < k ==> found[j].id !in rows)
    && (forall id :: id in rows ==> id in rows0 && rows[id] == rows0[id])
    && (forall id :: id in rows0 && id !in rows ==> Entry(id, rows0[id]) in found[..k])
    && Selected(rows, found[k..])
  }

  lemma {:induction false} SelectedRest(rows: map<RowId, Command>, x: Entry, rest: seq<Entry>)
    requires Selected(rows, [x] + rest)
    ensures Selected(rows - {x.id}, rest)
  {
    var left := [x] + rest;
    forall j | 0 <= j < |rest| ensures rest[j].id in rows - {x.id} && rows[rest[j].id] == rest[j].command {
      assert left[j + 1] == rest[j] && left[0].id != left[j + 1].id;
    }
    forall i, j | 0 <= i < j < |rest| ensures rest[i].id != rest[j].id {
      assert left[i + 1].id != left[j + 1].id;
    }
  }

  lemma {:induction false} TreatOne(rows0: map<RowId, Command>, rows: map<RowId, Command>, found: seq<Entry>, k: nat)
    requires k < |found| && Treated(rows0, rows, found, k)
    ensures Treated(rows0, rows - {found[k].id}, found, k + 1)
  {
    assert found[k..] == [found[k]] + found[k + 1..];
    SelectedRest(rows, found[k], found[k + 1..]);
    assert found[..k + 1] == found[..k] + [found[k]];
    assert found[k..][0] == found[k];
  }

  ghost predicate Succeeded(found: seq<Entry>, k: nat, handler: Command -> bool)
    requires k <= |found|
  {
    forall j :: 0 <= j < k ==> handler(found[j].command)
  }

  /** The rows that are gone were due, and the handler succeeded on them. */
  lemma {:induction false} GoneWereServed(
      rows0: map<RowId, Command>, rows: map<RowId, Command>, found: seq<Entry>, k: nat, now: int,
      handler: Command -> bool)
    requires k <= |found| && Treated(rows0, rows, found, k) && Elems(found) == Due(rows0, now)
    requires Succeeded(found, k, handler)
    ensures forall id :: id in rows0 && id !in rows ==> rows0[id].time <= now && handler(rows0[id])
  {
    forall id | id in rows0 && id !in rows ensures rows0[id].time <= now && handler(rows0[id]) {
      var j :| 0 <= j < k && found[j] == Entry(id, rows0[id]);
      assert found[j] in Elems(found);
    }
  }

  /** A call that has treated all its rows has left none that is due. */
  lemma {:induction false} AllTreated(
      rows0: map<RowId, Command>, rows: map<RowId, Command>, found: seq<Entry>, now: int)
    requires Treated(rows0, rows, found, |found|) && Elems(found) == Due(rows0, now)
    ensures forall id :: id in rows0 && rows0[id].time <= now ==> id !in rows
  {
    forall id | id in rows0 && rows0[id].time <= now ensures id !in rows {
      assert Entry(id, rows0[id]) in Due(rows0, now);
      assert Entry(id, rows0[id]) in Elems(found);
    }
  }

  /** A call in the middle of its rows. */
  ghost predicate InCall(
      start: State, path: seq<Action>, s: State, p: Processor, found: seq<Entry>, k: nat, handler: Command -> bool)
    requires k <= |found|
  {
    && Leads(start, path, s) && s.calls == map[p := Call(found[k..], false)]
    && Treated(start.rows, s.rows, found, k) && Succeeded(found, k, handler)
  }

  lemma {:induction false} NextRow(
      start: State, path: seq<Action>, s: State, p: Processor, found: seq<Entry>, k: nat, handler: Command -> bool)
    requires k < |found| && InCall(start, path, s, p, found, k, handler) && handler(found[k].command)
    ensures InCall(start, path + [Handle(p)] + [Delete(p)],
                   s.(rows := s.rows - {found[k].id}, served := s.served + [found[k]],
                      calls := map[p := Call(found[k + 1..], false)]), p, found, k + 1, handler)
  {
    assert found[k..][0] == found[k] && found[k..][1..] == found[k + 1..];
    ServeFirst(start, path, s, p);
    TreatOne(start.rows, s.rows, found, k);
    assert s.calls[p := Call(found[k + 1..], false)] == map[p := Call(found[k + 1..], false)];
  }

  class Repository {
    var rows: map<RowId, Command>
    var next: RowId
    ghost var inserted: map<RowId, Command>
    ghost var served: seq<Entry>

    ghost function View(calls: map<Processor, Call>): State
      reads this
    {
      State(rows, next, calls, inserted, served)
    }

    constructor ()
      ensures View(map[]) == INITIAL
    {
      rows, next, inserted, served := map[], 1, map[], [];
    }

    /** schedule_command is one step of the system, whoever else is at work. */
    method ScheduleCommand(c: Command)
      modifies this
      ensures forall calls :: Step(old(View(calls)), Schedule(c), View(calls))
      ensures old(Safe(View(map[]))) ==> Safe(View(map[]))
      ensures rows == if exists id :: id in old(rows) && old(rows)[id].name == c.name && old(rows)[id].data == c.data
                      then old(rows) else old(rows)[old(next) := c]
    {
      var equal := set id | id in rows && SameKey(rows[id], c);
      if equal == {} {
        assert forall id :: id in rows ==> id !in equal;
        rows, next, inserted := rows[next := c], next + 1, inserted[next := c];
      } else {
        var id :| id in equal;
        assert SameKey(rows[id], c) && rows[id].name == c.name;
      }
      if old(Safe(View(map[]))) { StepKeepsSafe(old(View(map[])), Schedule(c), View(map[])); }
    }

    /** The due rows, in any order. */
    method SelectDue(now: int) returns (found: seq<Entry>)
      ensures NoDup(found) && Elems(found) == Due(rows, now) && Selected(rows, found)
    {
      var left := Due(rows, now);
      found := [];
      while left != {}
        invariant NoDup(found) && Elems(found) !! left && Elems(found) + left == Due(rows, now)
        decreases left
      {
        var x :| x in left;
        assert x !in Elems(found) && Elems(found + [x]) == Elems(found) + {x};
        found, left := found + [x], left - {x};
      }
      assert forall j :: 0 <= j < |found| ==> found[j] in Elems(found);
    }

    /** process_commands, undisturbed, is a path of the system by one processor. It deletes exactly a set of due rows on
        which the handler succeeds: all of them if the handler fails on none, and otherwise not the row on which it
        failed. */
    method ProcessCommands(p: Processor, now: int, handler: Command -> bool)
      returns (r: Result<(), Command>, ghost path: seq<Action>)
      modifies this`rows, this`served
      ensures Leads(old(View(map[])), path, View(map[]))
      ensures forall id :: id in rows ==> id in old(rows) && rows[id] == old(rows)[id]
      ensures forall id :: id in old(rows) && id !in rows ==> old(rows)[id].time <= now && handler(old(rows)[id])
      ensures r.Ok? <==> forall id :: id in old(rows) && old(rows)[id].time <= now ==> handler(old(rows)[id])
      ensures r.Ok? ==> forall id :: id in rows ==> rows[id].time > now
      ensures r.Err? ==> !handler(r.error) && exists id :: id in rows && rows[id] == r.error && r.error.time <= now
    {
      ghost var start := View(map[]);
      var found := SelectDue(now);
      One(start, Select(p, now, found), View(map[p := Call(found, false)]));
      path := [Select(p, now, found)];
      assert found[0..] == found;
      for k := 0 to |found|
        invariant InCall(start, path, View(map[p := Call(found[k..], false)]), p, found, k, handler)
      {
        var x := found[k];
        ghost var here := View(map[p := Call(found[k..], false)]);
        assert found[k..][0] == x;
        if !handler(x.command) {
          EndCall(start, path, here, HandleFails(p), p);
          GoneWereServed(start.rows, rows, found, k, now, handler);
          assert x in Elems(found) && x.id in rows;
          return Err(x.command), path + [HandleFails(p)];
        }
        NextRow(start, path, here, p, found, k, handler);
        path := path + [Handle(p)] + [Delete(p)];
        rows, served := rows - {x.id}, served + [x];
      }
      EndCall(start, path, View(map[p := Call([], false)]), Done(p), p);
      GoneWereServed(old(rows), rows, found, |found|, now, handler);
      AllTreated(old(rows), rows, found, now);
      return Ok(()), path + [Done(p)];
    }
  }
}
