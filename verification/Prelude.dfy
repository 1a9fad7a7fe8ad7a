/** Failure-carrying datatypes and the few sequence notions shared by every module. */
module Prelude {

  datatype Option<+T> = None | Some(value: T)

  datatype Result<+T, +E> = Ok(value: T) | Err(error: E)

  /** No element occurs at two positions. */
  ghost predicate NoDup<T>(s: seq<T>) {
    forall i, j :: 0 <= i < j < |s| ==> s[i] != s[j]
  }

  /** The elements of a sequence, as a set. */
  function Elems<T>(s: seq<T>): (r: set<T>)
  {
    set x | x in s
  }

  lemma {:induction false} NoDupSize<T>(s: seq<T>)
    requires NoDup(s)
    ensures |Elems(s)| == |s|
  {
    if s != [] {
      var init := s[..|s| - 1];
      var last := s[|s| - 1];
      NoDupSize(init);
      assert s == init + [last];
      assert last !in Elems(init);
      assert Elems(s) == Elems(init) + {last};
    }
  }

  lemma {:induction false} SubsetSize<T>(a: set<T>, b: set<T>)
    requires a <= b
    ensures |a| <= |b|
  {
    assert a + (b - a) == b;
  }

  ghost predicate Avoids<T>(s: seq<T>, seen: set<T>) {
    forall i :: 0 <= i < |s| ==> s[i] !in seen
  }

  /** No element occurs twice, and none was seen before. */
  ghost predicate Fresh<T>(s: seq<T>, seen: set<T>) { NoDup(s) && Avoids(s, seen) }

  lemma {:induction false} FreshConcat<T>(a: seq<T>, c: seq<T>, seen: set<T>)
    ensures Fresh(a + c, seen) <==> Fresh(a, seen) && Fresh(c, seen + Elems(a))
    ensures Elems(a + c) == Elems(a) + Elems(c)
  {
    var s := a + c;
    assert forall i :: 0 <= i < |a| ==> a[i] == s[i];
    assert forall i :: 0 <= i < |c| ==> c[i] == s[|a| + i];
    if Fresh(a, seen) && Fresh(c, seen + Elems(a)) {
      forall i, j | 0 <= i < j < |s| ensures s[i] != s[j] {
        if i < |a| <= j { assert c[j - |a|] !in seen + Elems(a); }
        if |a| <= i { assert c[i - |a|] != c[j - |a|]; }
      }
      forall i | 0 <= i < |s| ensures s[i] !in seen {
        if |a| <= i { assert c[i - |a|] !in seen + Elems(a); }
      }
    }
  }

  lemma {:induction false} NoDupConcat<T>(a: seq<T>, c: seq<T>)
    ensures NoDup(a + c) <==> NoDup(a) && NoDup(c) && forall x :: x in a ==> x !in c
  {
    FreshConcat(a, c, {});
    assert {} + Elems(a) == Elems(a);
    assert (forall x :: x in a ==> x !in c) <==> Avoids(c, Elems(a)) by {
      if Avoids(c, Elems(a)) {
        forall x | x in a ensures x !in c { assert x in Elems(a); }
      }
    }
  }

  lemma {:induction false} LongerThanAll(xs: set<string>) returns (n: nat)
    ensures forall x :: x in xs ==> |x| < n
    decreases xs
  {
    if xs == {} {
      n := 0;
    } else {
      var x :| x in xs;
      n := LongerThanAll(xs - {x});
      n := if n <= |x| then |x| + 1 else n;
    }
  }

  /** There is always a string that is not yet used. */
  lemma {:induction false} NewString(xs: set<string>) returns (e: string)
    ensures e !in xs
  {
    var n := LongerThanAll(xs);
    e := seq(n, i => 'x');
  }

  lemma {:induction false} Associative<T>(a: seq<T>, b: seq<T>, c: seq<T>)
    ensures (a + b) + c == a + (b + c)
  {
  }
}
