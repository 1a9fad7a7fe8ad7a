/** The SQLite workflow store (wfe-sqlite/src/lib.rs): workflows and their execution pointers in two tables tied by
    a foreign key, event subscriptions in a third, written in transactions. It refines a map from workflow ids to
    instances; every contract below speaks of that map only. */
module SqliteStore {
  import opened Prelude

  type Id = string

  /** `body` and `rest` stand for the columns that are only converted to text and back. */
  datatype Pointer = Pointer(id: Id, body: string)
  datatype Instance = Instance(id: Id, name: string, rest: string, createTime: nat, pointers: seq<Pointer>)
  datatype Subscription = Subscription(id: Id, body: string)

  datatype WorkflowRow = WorkflowRow(name: string, rest: string, createTime: nat)
  datatype PointerRow = PointerRow(workflow: Id, body: string)

  datatype Error = ConstraintFailed | WorkflowNotFound(key: string)

  /** An instance as the map keeps it: SELECT promises no order of the pointers. */
  datatype Stored = Stored(name: string, rest: string, createTime: nat, pointers: set<Pointer>)

  function PointersOf(pointers: map<Id, PointerRow>, w: Id): set<Pointer> {
    set p | p in pointers && pointers[p].workflow == w :: Pointer(p, pointers[p].body)
  }

  function Abstract(workflows: map<Id, WorkflowRow>, pointers: map<Id, PointerRow>): map<Id, Stored> {
    map w | w in workflows ::
      Stored(workflows[w].name, workflows[w].rest, workflows[w].createTime, PointersOf(pointers, w))
  }

  function Ids(ps: seq<Pointer>): set<Id> { set p | p in ps :: p.id }

  ghost predicate DistinctIds(ps: seq<Pointer>) {
    forall i, j :: 0 <= i < j < |ps| ==> ps[i].id != ps[j].id
  }

  /** Some other workflow of the map has the name. */
  ghost predicate NameTaken(a: map<Id, Stored>, id: Id, name: string) {
    exists w :: w in a && w != id && a[w].name == name
  }

  /** Some other workflow of the map has a pointer of that id. */
  ghost predicate PointerTaken(a: map<Id, Stored>, id: Id, p: Id) {
    exists w :: w in a && w != id && HasPointer(a[w].pointers, p)
  }

  ghost predicate HasPointer(ps: set<Pointer>, id: Id) { exists p :: p in ps && p.id == id }

  /** The pointers of an instance may be stored beside those of all other workflows. */
  ghost predicate PointersFit(a: map<Id, Stored>, id: Id, ps: seq<Pointer>) {
    DistinctIds(ps) && forall j :: 0 <= j < |ps| ==> !PointerTaken(a, id, ps[j].id)
  }

  /** What persisting an instance demands of the map. A workflow that is not stored is accepted, without effect, as
      long as it has no pointers. */
  ghost predicate Persistable(a: map<Id, Stored>, instance: Instance) {
    if instance.id in a
    then !NameTaken(a, instance.id, instance.name) && PointersFit(a, instance.id, instance.pointers)
    else instance.pointers == []
  }

  /** What creating a workflow demands of the map. */
  ghost predicate Creatable(a: map<Id, Stored>, id: Id, name: string, ps: seq<Pointer>) {
    id !in a && !NameTaken(a, id, name) && PointersFit(a, id, ps)
  }

  function AsStored(instance: Instance, createTime: nat): Stored {
    Stored(instance.name, instance.rest, createTime, Elems(instance.pointers))
  }

  /** The creation time is that of the row: UPDATE does not touch it. */
  function Persisted(a: map<Id, Stored>, instance: Instance): map<Id, Stored> {
    if instance.id in a then a[instance.id := AsStored(instance, a[instance.id].createTime)] else a
  }

  ghost predicate NewSubscriptions(known: map<Id, string>, subs: seq<Subscription>) {
    && (forall j :: 0 <= j < |subs| ==> subs[j].id !in known)
    && forall i, j :: 0 <= i < j < |subs| ==> subs[i].id != subs[j].id
  }

  /** The subscription table after inserting a list. */
  function WithSubscriptions(known: map<Id, string>, subs: seq<Subscription>): map<Id, string> {
    if subs == [] then known
    else WithSubscriptions(known, subs[..|subs| - 1])[subs[|subs| - 1].id := subs[|subs| - 1].body]
  }

  lemma {:induction false} WithSubscriptionsKeys(known: map<Id, string>, subs: seq<Subscription>, id: Id)
    ensures id in WithSubscriptions(known, subs) <==> id in known || exists j :: 0 <= j < |subs| && subs[j].id == id
  {
    if subs != [] {
      var front := subs[..|subs| - 1];
      WithSubscriptionsKeys(known, front, id);
      if j :| 0 <= j < |front| && front[j].id == id { assert subs[j].id == id; }
      if j :| 0 <= j < |subs| && subs[j].id == id { assert j < |front| ==> front[j].id == id; }
    }
  }

  /** Every new subscription is stored with its own body, and the others stay as they were. */
  lemma {:induction false} SubscriptionsStored(known: map<Id, string>, subs: seq<Subscription>)
    requires NewSubscriptions(known, subs)
    ensures forall j :: 0 <= j < |subs| ==>
              subs[j].id in WithSubscriptions(known, subs) && WithSubscriptions(known, subs)[subs[j].id] == subs[j].body
    ensures forall id :: id in known ==>
              id in WithSubscriptions(known, subs) && WithSubscriptions(known, subs)[id] == known[id]
    decreases |subs|
  {
    if subs != [] {
      var front := subs[..|subs| - 1];
      assert forall j :: 0 <= j < |front| ==> front[j] == subs[j];
      SubscriptionsStored(known, front);
      forall j | 0 <= j < |subs|
        ensures subs[j].id in WithSubscriptions(known, subs)
        ensures WithSubscriptions(known, subs)[subs[j].id] == subs[j].body
      {
        if j < |front| { assert front[j].id != subs[|subs| - 1].id; }
      }
    }
  }

  /** The next INSERT is refused exactly when the list repeats an id or meets a stored one. */
  lemma {:induction false} NextSubscription(known: map<Id, string>, subs: seq<Subscription>, i: nat)
    requires i < |subs| && NewSubscriptions(known, subs[..i])
    ensures subs[i].id in WithSubscriptions(known, subs[..i]) ==> !NewSubscriptions(known, subs)
    ensures subs[i].id !in WithSubscriptions(known, subs[..i]) ==>
              && NewSubscriptions(known, subs[..i + 1])
              && WithSubscriptions(known, subs[..i + 1])
                 == WithSubscriptions(known, subs[..i])[subs[i].id := subs[i].body]
  {
    WithSubscriptionsKeys(known, subs[..i], subs[i].id);
    assert subs[..i + 1][..i] == subs[..i];
    if subs[i].id in WithSubscriptions(known, subs[..i]) && subs[i].id !in known {
      var j :| 0 <= j < i && subs[..i][j].id == subs[i].id;
      assert subs[j].id == subs[i].id;
    }
    if subs[i].id !in WithSubscriptions(known, subs[..i]) {
      assert forall j :: 0 <= j < i ==> subs[..i][j] == subs[j];
    }
  }

  /** The constraints the tables themselves keep: UNIQUE names, and the foreign key. */
  ghost predicate Consistent(workflows: map<Id, WorkflowRow>, pointers: map<Id, PointerRow>) {
    && (forall v, w :: v in workflows && w in workflows && workflows[v].name == workflows[w].name ==> v == w)
    && forall p :: p in pointers ==> pointers[p].workflow in workflows
  }

  // ---- The pointer table ----

  function Without(pointers: map<Id, PointerRow>, w: Id): map<Id, PointerRow> {
    map p | p in pointers && pointers[p].workflow != w :: pointers[p]
  }

  /** The table after inserting a list of pointers of one workflow. */
  function WithAll(pointers: map<Id, PointerRow>, w: Id, ps: seq<Pointer>): map<Id, PointerRow> {
    if ps == [] then pointers
    else
      var last := ps[|ps| - 1];
      WithAll(pointers, w, ps[..|ps| - 1])[last.id := PointerRow(w, last.body)]
  }

  lemma {:induction false} WithAllKeys(pointers: map<Id, PointerRow>, w: Id, ps: seq<Pointer>, id: Id)
    ensures id in WithAll(pointers, w, ps) <==> id in pointers || exists j :: 0 <= j < |ps| && ps[j].id == id
  {
    if ps != [] {
      var front := ps[..|ps| - 1];
      WithAllKeys(pointers, w, front, id);
      assert forall j :: 0 <= j < |front| ==> ps[j] == front[j];
      if id in WithAll(pointers, w, front) && id !in pointers {
        var j :| 0 <= j < |front| && front[j].id == id;
        assert ps[j].id == id;
      }
      if j :| 0 <= j < |ps| && ps[j].id == id {
        assert j < |front| ==> front[j].id == id;
      }
    }
  }

  /** Insertion of fresh, distinct pointers adds exactly them to their workflow and nothing to any other. */
  lemma {:induction false} WithAllPointers(pointers: map<Id, PointerRow>, w: Id, ps: seq<Pointer>, v: Id)
    requires DistinctIds(ps) && forall j :: 0 <= j < |ps| ==> ps[j].id !in pointers
    ensures PointersOf(WithAll(pointers, w, ps), v)
         == if v == w then PointersOf(pointers, v) + Elems(ps) else PointersOf(pointers, v)
  {
    if ps != [] {
      var front, last := ps[..|ps| - 1], ps[|ps| - 1];
      assert forall j :: 0 <= j < |front| ==> front[j] == ps[j];
      WithAllPointers(pointers, w, front, v);
      var before := WithAll(pointers, w, front);
      WithAllKeys(pointers, w, front, last.id);
      assert last.id !in before;
      InsertOne(before, w, last, v);
      assert ps == front + [last];
      assert Elems(ps) == Elems(front) + {last};
    }
  }

  lemma {:induction false} IsPointerOf(pointers: map<Id, PointerRow>, v: Id, q: Pointer)
    ensures q in PointersOf(pointers, v) <==> q.id in pointers && pointers[q.id] == PointerRow(v, q.body)
  {
    if q.id in pointers && pointers[q.id] == PointerRow(v, q.body) {
      assert q == Pointer(q.id, pointers[q.id].body);
    }
  }

  lemma {:induction false} InsertOne(pointers: map<Id, PointerRow>, w: Id, p: Pointer, v: Id)
    requires p.id !in pointers
    ensures PointersOf(pointers[p.id := PointerRow(w, p.body)], v)
         == if v == w then PointersOf(pointers, v) + {p} else PointersOf(pointers, v)
  {
    var after := pointers[p.id := PointerRow(w, p.body)];
    forall q ensures q in PointersOf(after, v) <==> q in PointersOf(pointers, v) || (v == w && q == p) {
      IsPointerOf(after, v, q);
      IsPointerOf(pointers, v, q);
    }
  }

  lemma {:induction false} WithoutPointers(pointers: map<Id, PointerRow>, w: Id, v: Id)
    ensures PointersOf(Without(pointers, w), v) == if v == w then {} else PointersOf(pointers, v)
  {
    forall q ensures q in PointersOf(Without(pointers, w), v) <==> v != w && q in PointersOf(pointers, v) {
      IsPointerOf(Without(pointers, w), v, q);
      IsPointerOf(pointers, v, q);
    }
  }

  lemma {:induction false} WithAllRows(pointers: map<Id, PointerRow>, w: Id, ps: seq<Pointer>, id: Id)
    requires id in WithAll(pointers, w, ps)
    ensures || WithAll(pointers, w, ps)[id].workflow == w
            || (id in pointers && WithAll(pointers, w, ps)[id] == pointers[id])
  {
    if ps != [] && id != ps[|ps| - 1].id { WithAllRows(pointers, w, ps[..|ps| - 1], id); }
  }

  /** In terms of the map: a pointer id is in the table, but not among the deleted ones, exactly when another workflow
      has it. */
  lemma {:induction false} TakenMeans(workflows: map<Id, WorkflowRow>, pointers: map<Id, PointerRow>, w: Id, p: Id)
    requires Consistent(workflows, pointers)
    ensures p in Without(pointers, w) <==> PointerTaken(Abstract(workflows, pointers), w, p)
  {
    var a := Abstract(workflows, pointers);
    if p in Without(pointers, w) {
      var v := pointers[p].workflow;
      assert Pointer(p, pointers[p].body) in a[v].pointers;
      assert HasPointer(a[v].pointers, p);
    }
  }

  lemma {:induction false} FitMeans(
      workflows: map<Id, WorkflowRow>, pointers: map<Id, PointerRow>, w: Id, ps: seq<Pointer>)
    requires Consistent(workflows, pointers)
    ensures PointersFit(Abstract(workflows, pointers), w, ps) <==>
              DistinctIds(ps) && forall j :: 0 <= j < |ps| ==> ps[j].id !in Without(pointers, w)
  {
    forall j | 0 <= j < |ps|
      ensures ps[j].id in Without(pointers, w) <==> PointerTaken(Abstract(workflows, pointers), w, ps[j].id)
    {
      TakenMeans(workflows, pointers, w, ps[j].id);
    }
  }

  /** The whole replacement of a workflow's pointers, seen through the map. */
  lemma {:induction false} ReplaceRefines(
      workflows: map<Id, WorkflowRow>, pointers: map<Id, PointerRow>, w: Id, row: WorkflowRow, ps: seq<Pointer>)
    requires Consistent(workflows, pointers) && PointersFit(Abstract(workflows, pointers), w, ps)
    ensures Abstract(workflows[w := row], WithAll(Without(pointers, w), w, ps))
         == Abstract(workflows, pointers)[w := Stored(row.name, row.rest, row.createTime, Elems(ps))]
  {
    forall j | 0 <= j < |ps| ensures ps[j].id !in Without(pointers, w) {
      TakenMeans(workflows, pointers, w, ps[j].id);
    }
    forall v ensures PointersOf(WithAll(Without(pointers, w), w, ps), v)
                  == if v == w then Elems(ps) else PointersOf(pointers, v)
    {
      WithAllPointers(Without(pointers, w), w, ps, v);
      WithoutPointers(pointers, w, v);
    }
  }

  lemma {:induction false} ReplaceIsConsistent(
      workflows: map<Id, WorkflowRow>, pointers: map<Id, PointerRow>, w: Id, row: WorkflowRow, ps: seq<Pointer>)
    requires Consistent(workflows, pointers) && !NameTaken(Abstract(workflows, pointers), w, row.name)
    ensures Consistent(workflows[w := row], WithAll(Without(pointers, w), w, ps))
  {
    var a := Abstract(workflows, pointers);
    forall v | v in workflows && v != w ensures workflows[v].name != row.name {
      assert a[v].name == workflows[v].name;
    }
    forall p | p in WithAll(Without(pointers, w), w, ps)
      ensures WithAll(Without(pointers, w), w, ps)[p].workflow in workflows[w := row]
    {
      WithAllRows(Without(pointers, w), w, ps, p);
    }
  }

  // ---- Loading ----

  /** The instances a load may return for an id: the row, and its pointers in some order. */
  ghost predicate Loads(a: map<Id, Stored>, id: Id, x: Instance) {
    && id in a && x.id == id && AsStored(x, x.createTime) == a[id] && NoDup(x.pointers)
  }

  lemma {:induction false} SameElements<T>(s: seq<T>, t: seq<T>)
    requires NoDup(s) && NoDup(t)
    ensures Elems(s) == Elems(t) <==> multiset(s) == multiset(t)
  {
    if Elems(s) == Elems(t) {
      forall x ensures multiset(s)[x] == multiset(t)[x] {
        Count(s, x);
        Count(t, x);
        assert x in s <==> x in Elems(s);
        assert x in t <==> x in Elems(t);
      }
    } else {
      if multiset(s) == multiset(t) {
        forall x ensures x in Elems(s) <==> x in Elems(t) {
          assert x in s <==> x in multiset(s);
          assert x in t <==> x in multiset(t);
        }
      }
    }
  }

  lemma {:induction false} Count<T>(s: seq<T>, x: T)
    requires NoDup(s)
    ensures multiset(s)[x] == if x in s then 1 else 0
  {
    if s != [] {
      var front := s[..|s| - 1];
      assert s == front + [s[|s| - 1]];
      Count(front, x);
    }
  }

  /** Persist, then load: exactly the instance just persisted, pointers in any order, with the creation time of the
      row. So it is the same instance if and only if its creation time was that of the row. */
  lemma {:induction false} PersistThenLoad(a: map<Id, Stored>, instance: Instance, x: Instance)
    requires instance.id in a && Persistable(a, instance)
    ensures Loads(Persisted(a, instance), instance.id, x) <==>
              && x.(pointers := []) == instance.(createTime := a[instance.id].createTime, pointers := [])
              && multiset(x.pointers) == multiset(instance.pointers)
  {
    assert NoDup(instance.pointers);
    if NoDup(x.pointers) {
      SameElements(x.pointers, instance.pointers);
    } else {
      var i, j :| 0 <= i < j < |x.pointers| && x.pointers[i] == x.pointers[j];
      if multiset(x.pointers) == multiset(instance.pointers) {
        Repeated(x.pointers, i, j);
        Count(instance.pointers, x.pointers[i]);
      }
    }
  }

  lemma {:induction false} Repeated<T>(s: seq<T>, i: nat, j: nat)
    requires i < j < |s| && s[i] == s[j]
    ensures multiset(s)[s[i]] >= 2
  {
    assert s == s[..j] + s[j..];
    assert s[i] in s[..j] && s[j] in s[j..];
  }

  // ---- Loading beside other calls ----

  /** Calls that change workflows; one that fails changes nothing. */
  datatype Write = Persist(instance: Instance) | Create(id: Id, name: string, instance: Instance)

  function Writes(w: Write): Id { if w.Persist? then w.instance.id else w.id }

  ghost function After(a: map<Id, Stored>, w: Write): map<Id, Stored> {
    match w
    case Persist(instance) => if Persistable(a, instance) then Persisted(a, instance) else a
    case Create(id, name, instance) =>
      if Creatable(a, id, name, instance.pointers)
      then a[id := AsStored(instance.(name := name), instance.createTime)] else a
  }

  ghost function AfterAll(a: map<Id, Stored>, ws: seq<Write>): map<Id, Stored> {
    if ws == [] then a else After(AfterAll(a, ws[..|ws| - 1]), ws[|ws| - 1])
  }

  /** Calls for other workflows leave a workflow as it was. */
  lemma {:induction false} OthersKept(a: map<Id, Stored>, ws: seq<Write>, id: Id)
    requires forall w :: w in ws ==> Writes(w) != id
    ensures id in AfterAll(a, ws) <==> id in a
    ensures id in a ==> AfterAll(a, ws)[id] == a[id]
    decreases |ws|
  {
    if ws != [] {
      assert ws[|ws| - 1] in ws;
      OthersKept(a, ws[..|ws| - 1], id);
    }
  }

  /** A load is two SELECTs outside a transaction: the row as the first finds it, the pointers as the second does. */
  ghost predicate LoadsAcross(first: map<Id, Stored>, second: map<Id, Stored>, id: Id, x: Instance) {
    && id in first && x.id == id && NoDup(x.pointers)
    && AsStored(x, x.createTime) == first[id].(pointers := if id in second then second[id].pointers else {})
  }

  /** A stored workflow stays stored. */
  lemma {:induction false} StaysStored(a: map<Id, Stored>, ws: seq<Write>, id: Id)
    requires id in a
    ensures id in AfterAll(a, ws)
    decreases |ws|
  {
    if ws != [] { StaysStored(a, ws[..|ws| - 1], id); }
  }

  /** Such a load is the state before or after the calls in between, whole, if and only if they left the row as it was,
      or left the pointers as they were. */
  lemma {:induction false} MixedLoadExactly(a: map<Id, Stored>, ws: seq<Write>, id: Id, x: Instance)
    requires LoadsAcross(a, AfterAll(a, ws), id, x)
    ensures id in AfterAll(a, ws)
    ensures var b := AfterAll(a, ws);
            Loads(a, id, x) || Loads(b, id, x) <==>
              a[id].pointers == b[id].pointers || a[id].(pointers := {}) == b[id].(pointers := {})
  {
    StaysStored(a, ws, id);
    var b, stored := AfterAll(a, ws), AsStored(x, x.createTime);
    assert stored == a[id].(pointers := b[id].pointers);
    assert Loads(a, id, x) <==> stored == a[id];
    assert Loads(b, id, x) <==> stored == b[id];
  }

  /** So under the workflow's lock, when only other workflows are written, a load is exactly a load at once. */
  lemma {:induction false} LockedLoadIsWhole(a: map<Id, Stored>, ws: seq<Write>, id: Id, x: Instance)
    requires forall w :: w in ws ==> Writes(w) != id
    ensures LoadsAcross(a, AfterAll(a, ws), id, x) <==> Loads(a, id, x)
  {
    OthersKept(a, ws, id);
  }

  ghost predicate WritesOnly(ws: seq<Write>, ids: set<Id>) { forall w :: w in ws ==> Writes(w) in ids }

  /** The load is none of the states that the calls pass through. */
  ghost predicate Torn(a: map<Id, Stored>, ws: seq<Write>, id: Id, x: Instance) {
    && LoadsAcross(a, AfterAll(a, ws), id, x)
    && forall k :: 0 <= k <= |ws| ==> !Loads(AfterAll(a, ws[..k]), id, x)
  }

  /** Calls that write only these workflows can tear a load. */
  ghost predicate CanBeTorn(a: map<Id, Stored>, id: Id, ids: set<Id>) {
    exists ws, x :: WritesOnly(ws, ids) && Torn(a, ws, id, x)
  }

  function NamesIn(a: map<Id, Stored>): set<string> { set w | w in a :: a[w].name }

  function PointerIdsIn(a: map<Id, Stored>): set<Id> { set w, p | w in a && p in a[w].pointers :: p.id }

  /** A persist that succeeds and changes both the row and the pointers of a workflow. */
  lemma {:induction false} ChangeBoth(a: map<Id, Stored>, id: Id) returns (instance: Instance)
    requires id in a
    ensures instance.id == id && Persistable(a, instance) && NoDup(instance.pointers)
    ensures instance.name != a[id].name && Elems(instance.pointers) != a[id].pointers
  {
    var name := NewString(NamesIn(a));
    assert forall w :: w in a ==> a[w].name in NamesIn(a);
    var p := NewString(PointerIdsIn(a));
    var added := Pointer(p, "");
    assert forall w, q :: w in a && q in a[w].pointers ==> q.id in PointerIdsIn(a);
    assert added !in a[id].pointers && added in Elems([added]);
    instance := Instance(id, name, a[id].rest, a[id].createTime, [added]);
    assert !PointerTaken(a, id, p);
  }

  /** Such a persist between the SELECTs tears the load: the old row comes with the new pointers. */
  lemma {:induction false} PersistTears(a: map<Id, Stored>, instance: Instance)
    requires instance.id in a && Persistable(a, instance) && NoDup(instance.pointers)
    requires instance.name != a[instance.id].name && Elems(instance.pointers) != a[instance.id].pointers
    ensures var row := a[instance.id];
            Torn(a, [Persist(instance)], instance.id,
                 Instance(instance.id, row.name, row.rest, row.createTime, instance.pointers))
  {
    var id, row, ws := instance.id, a[instance.id], [Persist(instance)];
    var x := Instance(id, row.name, row.rest, row.createTime, instance.pointers);
    assert ws[..0] == [] && ws[..1] == ws;
    assert AfterAll(a, []) == a;
    assert AfterAll(a, ws) == Persisted(a, instance);
    forall k | 0 <= k <= |ws| ensures !Loads(AfterAll(a, ws[..k]), id, x) {
      if k == 0 {
        assert AfterAll(a, ws[..k]) == a;
      } else {
        assert AfterAll(a, ws[..k]) == Persisted(a, instance);
      }
    }
  }

  /** A load of a stored workflow can be torn if and only if the calls that may come between its SELECTs include calls
      that write this workflow: whoever holds its lock is safe, and nobody else is. */
  lemma {:induction false} TornExactly(a: map<Id, Stored>, id: Id, ids: set<Id>)
    requires id in a
    ensures CanBeTorn(a, id, ids) <==> id in ids
  {
    if id in ids {
      var instance := ChangeBoth(a, id);
      PersistTears(a, instance);
      assert WritesOnly([Persist(instance)], ids);
    } else {
      forall ws, x | WritesOnly(ws, ids) ensures !Torn(a, ws, id, x) {
        LockedLoadIsWhole(a, ws, id, x);
        assert ws[..0] == [];
        assert AfterAll(a, ws[..0]) == a;
      }
    }
  }

  // ---- The provider ----

  class Store {
    var workflows: map<Id, WorkflowRow>
    var pointers: map<Id, PointerRow>
    var subscriptions: map<Id, string>

    ghost predicate Valid()
      reads this
    {
      Consistent(workflows, pointers)
    }

    ghost function Map(): map<Id, Stored>
      reads this
    {
      Abstract(workflows, pointers)
    }

    constructor ()
      ensures Valid() && Map() == map[] && subscriptions == map[]
    {
      workflows, pointers, subscriptions := map[], map[], map[];
    }

    /** INSERT INTO execution_pointers: primary key and foreign key. */
    method InsertPointer(w: Id, p: Pointer) returns (ok: bool)
      modifies this`pointers
      ensures ok <==> p.id !in old(pointers) && w in workflows
      ensures pointers == if ok then old(pointers)[p.id := PointerRow(w, p.body)] else old(pointers)
    {
      ok := p.id !in pointers && w in workflows;
      if ok { pointers := pointers[p.id := PointerRow(w, p.body)]; }
    }

    /** The loop over the pointers; it stops at the first that is refused. */
    method InsertPointers(w: Id, ps: seq<Pointer>) returns (ok: bool)
      modifies this`pointers
      ensures ok <==> (ps == [] || w in workflows) && DistinctIds(ps)
                      && forall j :: 0 <= j < |ps| ==> ps[j].id !in old(pointers)
      ensures ok ==> pointers == WithAll(old(pointers), w, ps)
    {
      for i := 0 to |ps|
        invariant pointers == WithAll(old(pointers), w, ps[..i])
        invariant (i > 0 ==> w in workflows) && DistinctIds(ps[..i])
        invariant forall j :: 0 <= j < i ==> ps[j].id !in old(pointers)
      {
        WithAllKeys(old(pointers), w, ps[..i], ps[i].id);
        assert ps[..i + 1][..i] == ps[..i];
        ok := InsertPointer(w, ps[i]);
        if !ok {
          if ps[i].id !in old(pointers) && w in workflows {
            var j :| 0 <= j < i && ps[..i][j].id == ps[i].id;
            assert ps[j].id == ps[i].id;
          }
          return;
        }
      }
      assert ps[..|ps|] == ps;
      ok := true;
    }

    method InsertSubscriptions(subs: seq<Subscription>) returns (ok: bool)
      modifies this`subscriptions
      ensures ok <==> NewSubscriptions(old(subscriptions), subs)
      ensures ok ==> subscriptions == WithSubscriptions(old(subscriptions), subs)
    {
      for i := 0 to |subs|
        invariant NewSubscriptions(old(subscriptions), subs[..i])
        invariant subscriptions == WithSubscriptions(old(subscriptions), subs[..i])
      {
        NextSubscription(old(subscriptions), subs, i);
        if subs[i].id in subscriptions { return false; }
        subscriptions := subscriptions[subs[i].id := subs[i].body];
      }
      assert subs[..|subs|] == subs;
      ok := true;
    }

    /** UPDATE, DELETE and the INSERTs of one persist, inside a transaction that the caller ends. */
    method WriteInstance(instance: Instance) returns (ok: bool)
      requires Valid()
      modifies this`workflows, this`pointers
      ensures ok <==> Persistable(old(Map()), instance)
      ensures ok ==> Valid() && Map() == Persisted(old(Map()), instance)
    {
      var w := instance.id;
      ghost var a := Map();
      if w in workflows {
        var others := set v | v in workflows && v != w && workflows[v].name == instance.name;
        if others != {} {
          var v :| v in others;
          assert a[v].name == instance.name;
          return false;
        }
        assert forall v :: v in a && v != w ==> v !in others;
        workflows := workflows[w := WorkflowRow(instance.name, instance.rest, workflows[w].createTime)];
      }
      pointers := Without(pointers, w);
      ok := InsertPointers(w, instance.pointers);
      FitMeans(old(workflows), old(pointers), w, instance.pointers);
      if ok && w in workflows {
        ReplaceRefines(old(workflows), old(pointers), w, workflows[w], instance.pointers);
        ReplaceIsConsistent(old(workflows), old(pointers), w, workflows[w], instance.pointers);
      } else if ok {
        assert pointers == old(pointers);
      }
    }

    /** persist_workflow: all or nothing, with the exact condition for success. */
    method PersistWorkflow(instance: Instance) returns (r: Result<(), Error>)
      requires Valid()
      modifies this
      ensures Valid() && subscriptions == old(subscriptions)
      ensures r.Ok? <==> Persistable(old(Map()), instance)
      ensures Map() == if r.Ok? then Persisted(old(Map()), instance) else old(Map())
    {
      var workflows0, pointers0 := workflows, pointers;
      var ok := WriteInstance(instance);
      if !ok {
        workflows, pointers := workflows0, pointers0;
        return Err(ConstraintFailed);
      }
      r := Ok(());
    }

    /** persist_workflow_with_subscriptions: the instance and its subscriptions appear together or not at all. */
    method PersistWithSubscriptions(instance: Instance, subs: seq<Subscription>) returns (r: Result<(), Error>)
      requires Valid()
      modifies this
      ensures Valid()
      ensures r.Ok? <==> Persistable(old(Map()), instance) && NewSubscriptions(old(subscriptions), subs)
      ensures Map() == if r.Ok? then Persisted(old(Map()), instance) else old(Map())
      ensures r.Err? ==> subscriptions == old(subscriptions)
      ensures r.Ok? ==> forall id :: id in subscriptions <==>
                          id in old(subscriptions) || exists j :: 0 <= j < |subs| && subs[j].id == id
      ensures r.Ok? ==> forall id :: id in old(subscriptions) ==> subscriptions[id] == old(subscriptions)[id]
      ensures r.Ok? ==> forall j :: 0 <= j < |subs| ==> subscriptions[subs[j].id] == subs[j].body
    {
      var workflows0, pointers0, subscriptions0 := workflows, pointers, subscriptions;
      var ok := WriteInstance(instance);
      if ok { ok := InsertSubscriptions(subs); }
      if !ok {
        workflows, pointers, subscriptions := workflows0, pointers0, subscriptions0;
        return Err(ConstraintFailed);
      }
      SubscriptionsStored(old(subscriptions), subs);
      forall id ensures id in subscriptions <==>
                  id in old(subscriptions) || exists j :: 0 <= j < |subs| && subs[j].id == id
      {
        WithSubscriptionsKeys(old(subscriptions), subs, id);
      }
      r := Ok(());
    }

    /** The INSERTs of one create, inside a transaction that the caller ends. */
    method WriteNew(w: Id, name: string, instance: Instance) returns (ok: bool)
      requires Valid()
      modifies this`workflows, this`pointers
      ensures ok <==> Creatable(old(Map()), w, name, instance.pointers)
      ensures ok ==> Valid() && Map() == old(Map())[w := AsStored(instance.(name := name), instance.createTime)]
    {
      ghost var a := Map();
      var others := set v | v in workflows && workflows[v].name == name;
      assert forall v :: v in others <==> v in a && a[v].name == name;
      if w in workflows || others != {} { return false; }
      workflows := workflows[w := WorkflowRow(name, instance.rest, instance.createTime)];
      assert Without(pointers, w) == pointers;
      ok := InsertPointers(w, instance.pointers);
      FitMeans(old(workflows), old(pointers), w, instance.pointers);
      if ok {
        ReplaceRefines(old(workflows), old(pointers), w, workflows[w], instance.pointers);
        ReplaceIsConsistent(old(workflows), old(pointers), w, workflows[w], instance.pointers);
      }
    }

    /** create_new_workflow; `uuid` is the generated id, used only when the instance has none. */
    method CreateNewWorkflow(instance: Instance, uuid: Id) returns (r: Result<Id, Error>)
      requires Valid()
      modifies this
      ensures Valid() && subscriptions == old(subscriptions)
      ensures var id := if instance.id == "" then uuid else instance.id;
              var name := if instance.name == "" then id else instance.name;
              && (r.Ok? <==> Creatable(old(Map()), id, name, instance.pointers))
              && (r.Ok? ==> r.value == id)
              && Map() == if r.Ok? then old(Map())[id := AsStored(instance.(name := name), instance.createTime)]
                          else old(Map())
    {
      var w := if instance.id == "" then uuid else instance.id;
      var name := if instance.name == "" then w else instance.name;
      var workflows0, pointers0 := workflows, pointers;
      var ok := WriteNew(w, name, instance);
      if !ok {
        workflows, pointers := workflows0, pointers0;
        return Err(ConstraintFailed);
      }
      r := Ok(w);
    }

    /** get_workflow_instance: the row, and its pointers in whatever order they are found. */
    method GetWorkflowInstance(id: Id) returns (r: Result<Instance, Error>)
      ensures if id in Map() then r.Ok? && Loads(Map(), id, r.value) else r == Err(WorkflowNotFound(id))
    {
      if id !in workflows { return Err(WorkflowNotFound(id)); }
      var found := [];
      var left := PointersOf(pointers, id);
      while left != {}
        invariant NoDup(found) && Elems(found) !! left && Elems(found) + left == PointersOf(pointers, id)
        decreases left
      {
        var p :| p in left;
        assert p !in Elems(found) && Elems(found + [p]) == Elems(found) + {p};
        found, left := found + [p], left - {p};
      }
      var row := workflows[id];
      r := Ok(Instance(id, row.name, row.rest, row.createTime, found));
    }

    /** get_workflow_instance_by_name: a name leads to the one workflow that has it. */
    method GetByName(name: string) returns (r: Result<Instance, Error>)
      requires Valid()
      ensures r.Ok? <==> exists w :: w in Map() && Map()[w].name == name
      ensures r.Ok? ==> r.value.name == name && Loads(Map(), r.value.id, r.value)
      ensures r.Ok? ==> forall w :: w in Map() && Map()[w].name == name ==> w == r.value.id
      ensures r.Err? ==> r.error == WorkflowNotFound(name)
    {
      var found := set w | w in workflows && workflows[w].name == name;
      assert forall w :: w in Map() ==> Map()[w].name == workflows[w].name;
      if found == {} {
        assert forall w :: w in Map() ==> w !in found;
        return Err(WorkflowNotFound(name));
      }
      var id :| id in found;
      assert Map()[id].name == name;
      r := GetWorkflowInstance(id);
    }
  }
}
