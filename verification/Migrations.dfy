/** The prefixed migration runner of the PostgreSQL store (wfe-postgres/src/lib.rs): one run over the
    embedded migrations, and what any sequence of runs, failures and crashes leaves behind.
    The advisory lock serialises runs, so runs are composed one after another. */
module Migrations {
  import opened SqlRewrite

  datatype Migration = Migration(version: int, isDown: bool, sql: string)

  /** A row of the tracking table. */
  datatype Row = Row(success: bool, checksum: string)

  /** A script that took effect: the version, the prefix it was rewritten with, the text executed. */
  datatype Commit = Commit(version: int, prefix: string, sql: string)

  datatype Store = Store(rows: map<int, Row>, committed: seq<Commit>)

  /** What happens to the transaction of one migration: it commits, the database rejects it,
      or the node dies before the commit. The last two roll back. */
  datatype Attempt = Commits | Rejected | Crashes

  datatype Outcome = Done | Dirty | Mismatch(version: int) | Failed(version: int) | Crashed

  /** What a run depends on besides the store: the listed names, the digest, the configured prefix and
      the fate of each transaction. */
  datatype Setting = Setting(names: seq<string>, digest: string -> string, prefix: string, fate: int -> Attempt) {
    function Text(m: Migration): string { Substituted(m.sql, prefix, names) }
    function Checksum(m: Migration): string { digest(Text(m)) }
    function Entry(m: Migration): Commit { Commit(m.version, prefix, Text(m)) }
  }

  function Recorded(s: Store, m: Migration, env: Setting): Store {
    Store(s.rows[m.version := Row(true, env.Checksum(m))], s.committed + [env.Entry(m)])
  }

  /** The loop over the migrations; `applied` is the tracking table as read before the loop. */
  function RunFrom(s: Store, applied: map<int, Row>, ms: seq<Migration>, env: Setting): (Store, Outcome)
    decreases |ms|
  {
    if ms == [] then (s, Done)
    else if ms[0].isDown then RunFrom(s, applied, ms[1..], env)
    else if ms[0].version in applied then
      if applied[ms[0].version].checksum == env.Checksum(ms[0]) then RunFrom(s, applied, ms[1..], env)
      else (s, Mismatch(ms[0].version))
    else match env.fate(ms[0].version)
      case Crashes => (s, Crashed)
      case Rejected => (s, Failed(ms[0].version))
      case Commits =>
        if ms[0].version in s.rows then (s, Failed(ms[0].version))
        else RunFrom(Recorded(s, ms[0], env), applied, ms[1..], env)
  }

  predicate IsDirty(rows: map<int, Row>) { exists v :: v in rows && !rows[v].success }

  function Run(s: Store, ms: seq<Migration>, env: Setting): (Store, Outcome) {
    if IsDirty(s.rows) then (s, Dirty) else RunFrom(s, s.rows, ms, env)
  }

  /** The database the runner works on. */
  class Database {
    var rows: map<int, Row>
    var committed: seq<Commit>

    constructor ()
      ensures rows == map[] && committed == []
    {
      rows, committed := map[], [];
    }

    function Current(): Store
      reads this
    {
      Store(rows, committed)
    }

    /** One run: the dirty check, the snapshot of the tracking table, then one transaction per migration
        that is not recorded, stopping at the first mismatch, failure or crash. */
    method RunMigrations(ms: seq<Migration>, env: Setting) returns (outcome: Outcome)
      modifies this
      ensures (Current(), outcome) == Run(old(Current()), ms, env)
    {
      if exists v :: v in rows && !rows[v].success {
        return Dirty;
      }
      var applied := rows;
      ghost var start := Current();
      for i := 0 to |ms|
        invariant RunFrom(Current(), applied, ms[i..], env) == RunFrom(start, applied, ms, env)
      {
        assert ms[i..][1..] == ms[i + 1..];
        var migration := ms[i];
        if migration.isDown {
          continue;
        }
        var sql := SubstituteIdentifiers(migration.sql, env.prefix, env.names);
        var checksum := env.digest(sql);
        if migration.version in applied {
          if applied[migration.version].checksum == checksum {
            continue;
          }
          return Mismatch(migration.version);
        }
        match env.fate(migration.version)
        case Crashes => return Crashed;
        case Rejected => return Failed(migration.version);
        case Commits =>
          if migration.version in rows {
            return Failed(migration.version);
          }
          rows := rows[migration.version := Row(true, checksum)];
          committed := committed + [Commit(migration.version, env.prefix, sql)];
      }
      return Done;
    }
  }

  // ----- the invariant of every store the runner can leave behind -----

  function Ups(ms: seq<Migration>): (r: seq<Migration>)
    ensures forall m :: m in r <==> m in ms && !m.isDown
  {
    if ms == [] then [] else (if ms[0].isDown then [] else [ms[0]]) + Ups(ms[1..])
  }

  /** The up-migrations keep their order and their number. */
  lemma {:induction false} UpsConcat(a: seq<Migration>, b: seq<Migration>)
    ensures Ups(a + b) == Ups(a) + Ups(b)
    decreases |a|
  {
    if a == [] {
      assert a + b == b;
    } else {
      assert (a + b)[1..] == a[1..] + b;
      UpsConcat(a[1..], b);
    }
  }

  ghost predicate DistinctVersions(ups: seq<Migration>) {
    forall i, j :: 0 <= i < j < |ups| ==> ups[i].version != ups[j].version
  }

  ghost predicate EntryOf(c: Commit, m: Migration, names: seq<string>) {
    c.version == m.version && ValidPrefix(c.prefix) && c.sql == Substituted(m.sql, c.prefix, names)
  }

  /** The tracking rows of a list of commits. */
  function RowsOf(cs: seq<Commit>, digest: string -> string): map<int, Row> {
    if cs == [] then map[]
    else
      var last := cs[|cs| - 1];
      RowsOf(cs[..|cs| - 1], digest)[last.version := Row(true, digest(last.sql))]
  }

  /** The committed scripts are those of an initial part of the up-migrations, in order, and the
      tracking table has exactly their rows. */
  ghost predicate Consistent(s: Store, ups: seq<Migration>, names: seq<string>, digest: string -> string) {
    && |s.committed| <= |ups|
    && (forall i :: 0 <= i < |s.committed| ==> EntryOf(s.committed[i], ups[i], names))
    && s.rows == RowsOf(s.committed, digest)
  }

  /** Every recorded migration that mentions a listed name was applied with prefix `p`. */
  ghost predicate AppliedWith(s: Store, ups: seq<Migration>, names: seq<string>, p: string)
    requires |s.committed| <= |ups|
  {
    forall i :: 0 <= i < |s.committed| && Mentions(ups[i].sql, names) ==> s.committed[i].prefix == p
  }

  lemma {:induction false} DownsAreSkipped(s: Store, applied: map<int, Row>, ms: seq<Migration>, env: Setting)
    ensures RunFrom(s, applied, ms, env) == RunFrom(s, applied, Ups(ms), env)
    decreases |ms|
  {
    if ms != [] {
      if ms[0].isDown {
        assert Ups(ms) == Ups(ms[1..]);
        DownsAreSkipped(s, applied, ms[1..], env);
      } else {
        assert Ups(ms)[1..] == Ups(ms[1..]) && Ups(ms)[0] == ms[0];
        DownsAreSkipped(s, applied, ms[1..], env);
        DownsAreSkipped(Recorded(s, ms[0], env), applied, ms[1..], env);
      }
    }
  }

  lemma {:induction false} RowsOfCommits(cs: seq<Commit>, digest: string -> string)
    requires forall i, j :: 0 <= i < j < |cs| ==> cs[i].version != cs[j].version
    ensures forall i :: 0 <= i < |cs| ==>
              cs[i].version in RowsOf(cs, digest) && RowsOf(cs, digest)[cs[i].version] == Row(true, digest(cs[i].sql))
    ensures forall v :: v in RowsOf(cs, digest) ==> exists i :: 0 <= i < |cs| && cs[i].version == v
    ensures !IsDirty(RowsOf(cs, digest))
  {
    if cs != [] {
      var init := cs[..|cs| - 1];
      RowsOfCommits(init, digest);
      forall v | v in RowsOf(cs, digest) ensures exists i :: 0 <= i < |cs| && cs[i].version == v {
        if v != cs[|cs| - 1].version {
          var i :| 0 <= i < |init| && init[i].version == v;
          assert cs[i].version == v;
        }
      }
    }
  }

  /** In a consistent store the first `|committed|` up-migrations are recorded and no other is. */
  lemma {:induction false} RecordedExactly(s: Store, ups: seq<Migration>, names: seq<string>, digest: string -> string)
    requires Consistent(s, ups, names, digest) && DistinctVersions(ups)
    ensures !IsDirty(s.rows)
    ensures forall i :: 0 <= i < |s.committed| ==>
              ups[i].version in s.rows && s.rows[ups[i].version] == Row(true, digest(s.committed[i].sql))
    ensures forall i :: |s.committed| <= i < |ups| ==> ups[i].version !in s.rows
  {
    var cs := s.committed;
    assert forall i :: 0 <= i < |cs| ==> EntryOf(cs[i], ups[i], names) && cs[i].version == ups[i].version;
    RowsOfCommits(cs, digest);
  }

  /** The record of migration `i` is the one the current setting would make. */
  ghost predicate Agrees(s: Store, ups: seq<Migration>, i: nat, env: Setting)
    requires i < |s.committed| <= |ups|
  {
    env.digest(s.committed[i].sql) == env.Checksum(ups[i])
  }

  lemma {:induction false} CompareOne(s: Store, ups: seq<Migration>, j: nat, env: Setting)
    requires Consistent(s, ups, env.names, env.digest) && DistinctVersions(ups) && j < |s.committed|
    requires forall m :: m in ups ==> !m.isDown
    ensures RunFrom(s, s.rows, ups[j..], env)
         == if Agrees(s, ups, j, env) then RunFrom(s, s.rows, ups[j + 1..], env) else (s, Mismatch(ups[j].version))
  {
    RecordedExactly(s, ups, env.names, env.digest);
    assert ups[j..][1..] == ups[j + 1..] && ups[j..][0] == ups[j] && ups[j] in ups;
  }

  ghost predicate AgreesFrom(s: Store, ups: seq<Migration>, j: nat, env: Setting)
    requires |s.committed| <= |ups|
  {
    forall i :: j <= i < |s.committed| ==> Agrees(s, ups, i, env)
  }

  /** First part of a run: the recorded migrations are compared; all agree, or nothing is applied. */
  lemma {:induction false} ComparePhase(s: Store, ups: seq<Migration>, j: nat, env: Setting)
    requires Consistent(s, ups, env.names, env.digest) && DistinctVersions(ups) && j <= |s.committed|
    requires forall m :: m in ups ==> !m.isDown
    ensures AgreesFrom(s, ups, j, env) ==>
              RunFrom(s, s.rows, ups[j..], env) == RunFrom(s, s.rows, ups[|s.committed|..], env)
    ensures !AgreesFrom(s, ups, j, env) ==>
              RunFrom(s, s.rows, ups[j..], env).0 == s && RunFrom(s, s.rows, ups[j..], env).1.Mismatch?
    decreases |s.committed| - j
  {
    if j < |s.committed| {
      CompareOne(s, ups, j, env);
      assert AgreesFrom(s, ups, j, env) <==> Agrees(s, ups, j, env) && AgreesFrom(s, ups, j + 1, env);
      ComparePhase(s, ups, j + 1, env);
    }
  }

  /** A whole run, by its two parts. */
  lemma {:induction false} RunByParts(s: Store, ms: seq<Migration>, env: Setting)
    requires Consistent(s, Ups(ms), env.names, env.digest) && DistinctVersions(Ups(ms))
    ensures AgreesFrom(s, Ups(ms), 0, env) ==> Run(s, ms, env) == RunFrom(s, s.rows, Ups(ms)[|s.committed|..], env)
    ensures !AgreesFrom(s, Ups(ms), 0, env) ==> Run(s, ms, env).0 == s && Run(s, ms, env).1.Mismatch?
  {
    var ups := Ups(ms);
    RecordedExactly(s, ups, env.names, env.digest);
    DownsAreSkipped(s, s.rows, ms, env);
    assert ups[0..] == ups;
    ComparePhase(s, ups, 0, env);
  }

  lemma {:induction false} RecordKeepsConsistent(s: Store, ups: seq<Migration>, env: Setting)
    requires Consistent(s, ups, env.names, env.digest) && ValidPrefix(env.prefix)
    requires |s.committed| < |ups|
    ensures Consistent(Recorded(s, ups[|s.committed|], env), ups, env.names, env.digest)
  {
    var m := ups[|s.committed|];
    var t := Recorded(s, m, env);
    assert t.committed[..|t.committed| - 1] == s.committed;
  }

  /** `t` continues `s` with commits made under `p`. */
  ghost predicate Extends(s: Store, t: Store, p: string) {
    && |s.committed| <= |t.committed| && t.committed[..|s.committed|] == s.committed
    && forall i :: |s.committed| <= i < |t.committed| ==> t.committed[i].prefix == p
  }

  lemma {:induction false} ExtendsByOne(s: Store, m: Migration, env: Setting, t: Store)
    requires Extends(Recorded(s, m, env), t, env.prefix)
    ensures Extends(s, t, env.prefix)
  {
    var k := |s.committed|;
    assert t.committed[..k] == t.committed[..k + 1][..k] == s.committed;
    assert t.committed[k] == t.committed[..k + 1][k];
  }

  /** How a run continues at the first unrecorded migration. */
  lemma {:induction false} OneTransaction(s: Store, applied: map<int, Row>, ups: seq<Migration>, env: Setting)
    requires Consistent(s, ups, env.names, env.digest) && DistinctVersions(ups) && |s.committed| < |ups|
    requires forall m :: m in ups ==> !m.isDown
    requires ups[|s.committed|].version !in applied
    ensures var k := |s.committed|;
            RunFrom(s, applied, ups[k..], env) == match env.fate(ups[k].version)
              case Crashes => (s, Crashed)
              case Rejected => (s, Failed(ups[k].version))
              case Commits => RunFrom(Recorded(s, ups[k], env), applied, ups[k + 1..], env)
  {
    var k := |s.committed|;
    RecordedExactly(s, ups, env.names, env.digest);
    assert ups[k..][1..] == ups[k + 1..] && ups[k..][0] == ups[k] && ups[k] in ups;
  }

  /** Second part of a run: from the first unrecorded migration on, each transaction is appended. */
  lemma {:induction false} ApplyPhase(s: Store, applied: map<int, Row>, ups: seq<Migration>, env: Setting)
    requires Consistent(s, ups, env.names, env.digest) && DistinctVersions(ups) && ValidPrefix(env.prefix)
    requires forall m :: m in ups ==> !m.isDown
    requires forall i :: |s.committed| <= i < |ups| ==> ups[i].version !in applied
    ensures var (t, o) := RunFrom(s, applied, ups[|s.committed|..], env);
            && Consistent(t, ups, env.names, env.digest)
            && Extends(s, t, env.prefix)
            && !o.Mismatch? && (o.Done? ==> |t.committed| == |ups|)
            && ((forall v :: env.fate(v).Commits?) ==> o.Done?)
    decreases |ups| - |s.committed|
  {
    var k := |s.committed|;
    if k < |ups| {
      OneTransaction(s, applied, ups, env);
      if env.fate(ups[k].version).Commits? {
        RecordKeepsConsistent(s, ups, env);
        var next := Recorded(s, ups[k], env);
        ApplyPhase(next, applied, ups, env);
        ExtendsByOne(s, ups[k], env, RunFrom(next, applied, ups[k + 1..], env).0);
      }
    }
  }

  // ----- what runs guarantee -----

  /** Every run, whatever its prefix and however it ends, keeps the store consistent, keeps what was
      committed and commits only under its own prefix; a run that reports success has applied everything. */
  lemma {:induction false} RunKeepsConsistent(s: Store, ms: seq<Migration>, env: Setting)
    requires Consistent(s, Ups(ms), env.names, env.digest) && DistinctVersions(Ups(ms)) && ValidPrefix(env.prefix)
    ensures var (t, o) := Run(s, ms, env);
            && Consistent(t, Ups(ms), env.names, env.digest)
            && Extends(s, t, env.prefix)
            && (o.Done? ==> |t.committed| == |Ups(ms)|)
  {
    var ups := Ups(ms);
    RecordedExactly(s, ups, env.names, env.digest);
    RunByParts(s, ms, env);
    ApplyPhase(s, s.rows, ups, env);
    assert s.committed[..|s.committed|] == s.committed;
  }

  ghost predicate Injective(digest: string -> string) {
    forall a, b :: digest(a) == digest(b) ==> a == b
  }

  /** With a collision-free digest, a record agrees with the current setting exactly when it was made under
      the same prefix or the migration mentions no listed name. */
  lemma {:induction false} AgreesExactly(s: Store, ups: seq<Migration>, i: nat, env: Setting)
    requires Consistent(s, ups, env.names, env.digest) && ValidPrefix(env.prefix) && Injective(env.digest)
    requires i < |s.committed|
    ensures Agrees(s, ups, i, env) <==> (Mentions(ups[i].sql, env.names) ==> s.committed[i].prefix == env.prefix)
  {
    assert EntryOf(s.committed[i], ups[i], env.names);
    if s.committed[i].prefix != env.prefix {
      PrefixShowsExactlyInMentions(ups[i].sql, s.committed[i].prefix, env.prefix, env.names);
    }
  }

  /** A run under another prefix fails and applies nothing once a recorded migration mentions a listed name. */
  lemma {:induction false} OtherPrefixIsRefused(s: Store, ms: seq<Migration>, env: Setting)
    requires Consistent(s, Ups(ms), env.names, env.digest) && DistinctVersions(Ups(ms)) && ValidPrefix(env.prefix)
    requires Injective(env.digest)
    requires !AppliedWith(s, Ups(ms), env.names, env.prefix)
    ensures Run(s, ms, env).0 == s && Run(s, ms, env).1.Mismatch?
  {
    var ups := Ups(ms);
    var i :| 0 <= i < |s.committed| && Mentions(ups[i].sql, env.names) && s.committed[i].prefix != env.prefix;
    AgreesExactly(s, ups, i, env);
    RunByParts(s, ms, env);
  }

  /** Restartability: whatever earlier runs and crashes left, a run whose transactions all commit finishes
      the job, exactly when every recorded mention of a listed name was made under its prefix. */
  lemma {:induction false} UndisturbedRunFinishesExactly(s: Store, ms: seq<Migration>, env: Setting)
    requires Consistent(s, Ups(ms), env.names, env.digest) && DistinctVersions(Ups(ms)) && ValidPrefix(env.prefix)
    requires Injective(env.digest) && forall v :: env.fate(v).Commits?
    ensures Run(s, ms, env).1.Done? <==> AppliedWith(s, Ups(ms), env.names, env.prefix)
    ensures Run(s, ms, env).1.Done? ==> |Run(s, ms, env).0.committed| == |Ups(ms)|
  {
    var ups := Ups(ms);
    RunKeepsConsistent(s, ms, env);
    if AppliedWith(s, ups, env.names, env.prefix) {
      RecordedExactly(s, ups, env.names, env.digest);
      forall i | 0 <= i < |s.committed| ensures Agrees(s, ups, i, env) { AgreesExactly(s, ups, i, env); }
      RunByParts(s, ms, env);
      ApplyPhase(s, s.rows, ups, env);
    } else {
      OtherPrefixIsRefused(s, ms, env);
    }
  }

  lemma {:induction false} LoopIsNeverDirty(s: Store, applied: map<int, Row>, ms: seq<Migration>, env: Setting)
    ensures !RunFrom(s, applied, ms, env).1.Dirty?
    decreases |ms|
  {
    if ms != [] {
      LoopIsNeverDirty(s, applied, ms[1..], env);
      LoopIsNeverDirty(Recorded(s, ms[0], env), applied, ms[1..], env);
    }
  }

  /** A run refuses a store, and changes nothing, if some recorded migration did not succeed; only then does it say
      that the store is dirty. */
  lemma {:induction false} DirtyExactly(s: Store, ms: seq<Migration>, env: Setting)
    ensures Run(s, ms, env).1.Dirty? <==> exists v :: v in s.rows && !s.rows[v].success
    ensures Run(s, ms, env).1.Dirty? ==> Run(s, ms, env).0 == s
  {
    LoopIsNeverDirty(s, s.rows, ms, env);
  }

  /** Where the second part of a run stops, and what it reports. */
  lemma {:induction false} ApplyStops(s: Store, applied: map<int, Row>, ups: seq<Migration>, env: Setting)
    returns (n: nat)
    requires Consistent(s, ups, env.names, env.digest) && DistinctVersions(ups) && ValidPrefix(env.prefix)
    requires forall m :: m in ups ==> !m.isDown
    requires forall i :: |s.committed| <= i < |ups| ==> ups[i].version !in applied
    ensures |s.committed| <= n <= |ups| && |RunFrom(s, applied, ups[|s.committed|..], env).0.committed| == n
    ensures StopsAt(ups, env, |s.committed|, n, RunFrom(s, applied, ups[|s.committed|..], env).1)
    decreases |ups| - |s.committed|
  {
    n := |s.committed|;
    if n < |ups| {
      OneTransaction(s, applied, ups, env);
      if env.fate(ups[n].version).Commits? {
        RecordKeepsConsistent(s, ups, env);
        n := ApplyStops(Recorded(s, ups[n], env), applied, ups, env);
      }
    }
  }

  /** From migration `k` on, every transaction before `n` commits, and the one at `n`, if there is one, does not. */
  ghost predicate StopsAt(ups: seq<Migration>, env: Setting, k: nat, n: nat, o: Outcome)
    requires k <= n <= |ups|
  {
    && (forall i :: k <= i < n ==> env.fate(ups[i].version).Commits?)
    && if n == |ups| then o == Done
       else match env.fate(ups[n].version)
         case Commits => false
         case Crashes => o == Crashed
         case Rejected => o == Failed(ups[n].version)
  }

  /** A run on a store whose records agree applies the next migrations in order up to the first whose transaction does
      not commit, and reports how that one ended. */
  lemma {:induction false} RunStopsExactly(s: Store, ms: seq<Migration>, env: Setting) returns (n: nat)
    requires Consistent(s, Ups(ms), env.names, env.digest) && DistinctVersions(Ups(ms)) && ValidPrefix(env.prefix)
    requires AgreesFrom(s, Ups(ms), 0, env)
    ensures |s.committed| <= n <= |Ups(ms)| && |Run(s, ms, env).0.committed| == n
    ensures StopsAt(Ups(ms), env, |s.committed|, n, Run(s, ms, env).1)
  {
    RecordedExactly(s, Ups(ms), env.names, env.digest);
    RunByParts(s, ms, env);
    n := ApplyStops(s, s.rows, Ups(ms), env);
  }

  // ----- any sequence of runs -----

  /** The store after the given runs, from an empty database. */
  function AfterRuns(ms: seq<Migration>, runs: seq<Setting>): Store {
    if runs == [] then Store(map[], [])
    else Run(AfterRuns(ms, runs[..|runs| - 1]), ms, runs[|runs| - 1]).0
  }

  ghost predicate SameProgram(runs: seq<Setting>, names: seq<string>, digest: string -> string) {
    forall i :: 0 <= i < |runs| ==> runs[i].names == names && runs[i].digest == digest && ValidPrefix(runs[i].prefix)
  }

  /** Over any sequence of runs and crashes, with any prefixes: the recorded versions are exactly those whose
      script committed, each once, they are an initial part of the up-migrations, and a single prefix
      accounts for every mention of a listed name in what was applied. */
  lemma {:induction false} AnyRunsLeaveOneConsistentStore(
    ms: seq<Migration>, runs: seq<Setting>, names: seq<string>, digest: string -> string) returns (p: string)
    requires DistinctVersions(Ups(ms)) && SameProgram(runs, names, digest) && Injective(digest)
    ensures Consistent(AfterRuns(ms, runs), Ups(ms), names, digest)
    ensures AppliedWith(AfterRuns(ms, runs), Ups(ms), names, p)
  {
    p := [];
    if runs != [] {
      var before := runs[..|runs| - 1];
      var env := runs[|runs| - 1];
      p := AnyRunsLeaveOneConsistentStore(ms, before, names, digest);
      var s := AfterRuns(ms, before);
      RunKeepsConsistent(s, ms, env);
      var t := AfterRuns(ms, runs);
      if AppliedWith(s, Ups(ms), names, env.prefix) {
        p := env.prefix;
        forall i | 0 <= i < |t.committed| && Mentions(Ups(ms)[i].sql, names)
          ensures t.committed[i].prefix == p
        {
          if i < |s.committed| { assert t.committed[i] == t.committed[..|s.committed|][i]; }
        }
      } else {
        OtherPrefixIsRefused(s, ms, env);
      }
    }
  }

  /** In a consistent store the recorded versions, the committed versions and an initial part of the
      up-migrations are the same thing, and no version was committed twice. */
  lemma {:induction false} ConsistentMeans(s: Store, ups: seq<Migration>, names: seq<string>, digest: string -> string)
    requires Consistent(s, ups, names, digest) && DistinctVersions(ups)
    ensures forall v :: v in s.rows <==> exists i :: 0 <= i < |s.committed| && s.committed[i].version == v
    ensures forall i :: 0 <= i < |s.committed| ==> s.committed[i].version == ups[i].version
    ensures forall i, j :: 0 <= i < j < |s.committed| ==> s.committed[i].version != s.committed[j].version
  {
    assert forall i :: 0 <= i < |s.committed| ==>
             EntryOf(s.committed[i], ups[i], names) && s.committed[i].version == ups[i].version;
    RowsOfCommits(s.committed, digest);
  }
}
