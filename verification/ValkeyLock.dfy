/** The Valkey lock (wfe-valkey/src/lock.rs): SET NX EX to acquire, a compare-and-delete script to release.
    A history lists the server's commands in the order and at the times at which it executes them. */
module ValkeyLock {

  type Instance = string
  type Key = string

  /** Times and durations in milliseconds. */
  datatype Command =
    | Acquire(i: Instance, k: Key, at: nat, duration: nat)
    | Release(i: Instance, k: Key, at: nat)

  datatype Entry = Entry(owner: Instance, expires: nat)

  type Server = map<Key, Entry>

  /** The provider passes whole seconds. */
  function Length(c: Command): nat
    requires c.Acquire?
  {
    1000 * (c.duration / 1000)
  }

  function EntryFor(c: Command): Entry
    requires c.Acquire?
  {
    Entry(c.i, c.at + Length(c))
  }

  predicate Live(s: Server, k: Key, now: nat) { k in s && now < s[k].expires }

  /** SET with NX EX: refused while the key is live; an expiry of zero seconds is an error. */
  predicate Grants(s: Server, c: Command) {
    c.Acquire? && Length(c) > 0 && !Live(s, c.k, c.at)
  }

  function Execute(s: Server, c: Command): Server {
    match c
    case Acquire(_, k, _, _) => if Grants(s, c) then s[k := EntryFor(c)] else s
    case Release(i, k, at) => if Live(s, k, at) && s[k].owner == i then s - {k} else s
  }

  function After(h: seq<Command>): Server {
    if h == [] then map[] else Execute(After(h[..|h| - 1]), h[|h| - 1])
  }

  /** The server executes commands in time order. */
  ghost predicate InOrder(h: seq<Command>) {
    forall m, n :: 0 <= m < n < |h| ==> h[m].at <= h[n].at
  }

  predicate Granted(h: seq<Command>, n: nat)
    requires n < |h|
  {
    Grants(After(h[..n]), h[n])
  }

  /** `h[m]` is a release by the instance that acquired in `h[a]`. */
  predicate OwnRelease(h: seq<Command>, a: nat, m: nat)
    requires a < |h| && m < |h|
  {
    h[m].Release? && h[m].i == h[a].i && h[m].k == h[a].k
  }

  /** When the TTL of a hold ends: after the whole seconds of its duration. */
  function HoldEnd(c: Command): nat
    requires c.Acquire?
  {
    c.at + (c.duration - c.duration % 1000)
  }

  lemma {:induction false} HoldEndExact(c: Command)
    requires c.Acquire?
    ensures HoldEnd(c) == c.at + Length(c)
  {
  }

  ghost predicate Released(h: seq<Command>, a: nat, n: nat)
    requires a < |h| && n <= |h|
  {
    exists m :: a < m < n && OwnRelease(h, a, m)
  }

  /** The hold window of `h[a]` is over when `h[n]` is executed: its TTL has passed or its holder has released. */
  ghost predicate Over(h: seq<Command>, a: nat, n: nat)
    requires a < n < |h| && h[a].Acquire?
  {
    HoldEnd(h[a]) <= h[n].at || Released(h, a, n)
  }

  /** The entry of a grant is stored as long as its holder has not released it and no later grant replaced it. */
  ghost predicate Accounted(h: seq<Command>, a: nat, n: nat)
    requires a < n <= |h| && h[a].Acquire?
  {
    var s := After(h[..n]);
    || (h[a].k in s && s[h[a].k] == EntryFor(h[a]))
    || HoldEnd(h[a]) <= h[n - 1].at
    || Released(h, a, n)
  }

  lemma {:induction false} AfterOne(h: seq<Command>, n: nat)
    requires n < |h|
    ensures After(h[..n + 1]) == Execute(After(h[..n]), h[n])
  {
    assert h[..n + 1][..n] == h[..n];
  }

  lemma {:induction false} GrantsAreAccounted(h: seq<Command>, a: nat, n: nat)
    requires InOrder(h) && a < n <= |h| && Granted(h, a)
    ensures Accounted(h, a, n)
    decreases n
  {
    AfterOne(h, n - 1);
    HoldEndExact(h[a]);
    if n > a + 1 {
      GrantsAreAccounted(h, a, n - 1);
      if Released(h, a, n - 1) {
        var m :| a < m < n - 1 && OwnRelease(h, a, m);
        assert a < m < n;
      }
      assert h[n - 2].at <= h[n - 1].at;
      if OwnRelease(h, a, n - 1) { assert Released(h, a, n); }
    }
  }

  /** A stored entry comes from a grant whose holder has not released since. */
  lemma {:induction false} EntriesComeFromGrants(h: seq<Command>, n: nat, k: Key) returns (a: nat)
    requires InOrder(h) && n <= |h| && k in After(h[..n])
    ensures a < n && Granted(h, a) && h[a].k == k && After(h[..n])[k] == EntryFor(h[a])
    ensures forall m :: a < m < n && OwnRelease(h, a, m) ==> HoldEnd(h[a]) <= h[m].at
    decreases n
  {
    AfterOne(h, n - 1);
    if h[n - 1].k == k && Granted(h, n - 1) {
      a := n - 1;
    } else {
      a := EntriesComeFromGrants(h, n - 1, k);
    }
    HoldEndExact(h[a]);
  }

  /** An acquire for at least a second is granted exactly when every earlier hold window on its key is over. So windows
      never overlap, and the release of another instance does not shorten one. A shorter one is never granted. */
  lemma {:induction false} GrantedExactly(h: seq<Command>, n: nat)
    requires InOrder(h) && n < |h| && h[n].Acquire?
    ensures Granted(h, n) <==>
              && h[n].duration >= 1000
              && forall a :: 0 <= a < n && h[a].k == h[n].k && Granted(h, a) ==> Over(h, a, n)
  {
    var s, k := After(h[..n]), h[n].k;
    HoldEndExact(h[n]);
    if Granted(h, n) {
      forall a | 0 <= a < n && h[a].k == k && Granted(h, a) ensures Over(h, a, n) {
        GrantsAreAccounted(h, a, n);
        assert h[n - 1].at <= h[n].at;
      }
    } else if h[n].duration >= 1000 {
      var a := EntriesComeFromGrants(h, n, k);
      HoldEndExact(h[a]);
      assert forall m :: a < m < n ==> h[m].at <= h[n].at;
    }
  }

  /** While its window lasts, the holder stays the stored owner, whatever others release or ask for. */
  lemma {:induction false} HolderIsKept(h: seq<Command>, a: nat, n: nat)
    requires InOrder(h) && a < n <= |h| && Granted(h, a)
    requires h[n - 1].at < HoldEnd(h[a]) && !Released(h, a, n)
    ensures Live(After(h[..n]), h[a].k, h[n - 1].at) && After(h[..n])[h[a].k].owner == h[a].i
  {
    GrantsAreAccounted(h, a, n);
    HoldEndExact(h[a]);
  }

  /** The end of the window of `h[a]`, looking at the commands from `m` on. */
  function EndFrom(h: seq<Command>, a: nat, m: nat): nat
    requires a < |h| && h[a].Acquire? && m <= |h|
    decreases |h| - m
  {
    var expiry := HoldEnd(h[a]);
    if m == |h| then expiry
    else if OwnRelease(h, a, m) then (if h[m].at < expiry then h[m].at else expiry)
    else EndFrom(h, a, m + 1)
  }

  function WindowEnd(h: seq<Command>, a: nat): nat
    requires a < |h| && h[a].Acquire?
  {
    EndFrom(h, a, a + 1)
  }

  lemma {:induction false} EndBound(h: seq<Command>, a: nat, m: nat, n: nat)
    requires InOrder(h) && a < m <= n < |h| && h[a].Acquire?
    requires HoldEnd(h[a]) <= h[n].at || exists j :: m <= j < n && OwnRelease(h, a, j)
    ensures EndFrom(h, a, m) <= h[n].at
    decreases |h| - m
  {
    if OwnRelease(h, a, m) {
      assert h[m].at <= h[n].at;
    } else if m < n {
      EndBound(h, a, m + 1, n);
    } else {
      EndAtMostExpiry(h, a, m + 1);
    }
  }

  lemma {:induction false} EndAtMostExpiry(h: seq<Command>, a: nat, m: nat)
    requires a < |h| && h[a].Acquire? && m <= |h|
    ensures EndFrom(h, a, m) <= HoldEnd(h[a])
    decreases |h| - m
  {
    if m < |h| { EndAtMostExpiry(h, a, m + 1); }
  }

  /** Hold windows on the same key are disjoint over every history. */
  lemma {:induction false} WindowsAreDisjoint(h: seq<Command>, a: nat, c: nat)
    requires InOrder(h) && a < c < |h| && Granted(h, a) && Granted(h, c) && h[a].k == h[c].k
    ensures WindowEnd(h, a) <= h[c].at
  {
    GrantedExactly(h, c);
    assert Over(h, a, c);
    EndBound(h, a, a + 1, c);
  }
}
