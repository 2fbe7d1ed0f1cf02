/**
 Sequences without repetition and the sizes of sets.
 */
module Sets {

  ghost predicate Unique<T(!new)>(xs: seq<T>) {
    forall i, j :: 0 <= i < j < |xs| ==> xs[i] != xs[j]
  }

  ghost function Below(n: nat): (r: set<nat>)
    ensures |r| == n && forall i :: i in r <==> 0 <= i < n
  {
    if n == 0 then {} else Below(n - 1) + {n - 1}
  }

  lemma {:induction false} UniqueCard<T(!new)>(xs: seq<T>)
    requires Unique(xs)
    ensures |set x | x in xs| == |xs|
  {
    if xs != [] {
      UniqueCard(xs[1..]);
      assert (set x | x in xs) == {xs[0]} + (set x | x in xs[1..]);
      assert xs[0] !in xs[1..];
    }
  }

  lemma SubsetFull<T>(s: set<T>, t: set<T>)
    requires s <= t && |s| == |t|
    ensures s == t
  {
    if s != t {
      var x :| x in t && x !in s;
      assert s <= t - {x};
      SubsetCard(s, t - {x});
    }
  }

  lemma {:induction false} SubsetCard<T>(s: set<T>, t: set<T>)
    requires s <= t
    ensures |s| <= |t|
    decreases |s|
  {
    if s != {} {
      var x :| x in s;
      SubsetCard(s - {x}, t - {x});
    }
  }

  function Without<T(==, !new)>(xs: seq<T>, x: T): (r: seq<T>)
    ensures forall y :: y in r <==> y in xs && y != x
    ensures |r| <= |xs|
  {
    if xs == [] then [] else if xs[0] == x then Without(xs[1..], x) else [xs[0]] + Without(xs[1..], x)
  }

  lemma {:induction false} WithoutUnique<T(!new)>(xs: seq<T>, x: T)
    requires Unique(xs)
    ensures Unique(Without(xs, x))
  {
    if xs != [] {
      assert Unique(xs[1..]);
      WithoutUnique(xs[1..], x);
      var r := Without(xs[1..], x);
      assert xs[0] !in xs[1..];
      if xs[0] != x {
        forall i, j | 0 <= i < j < |r| + 1 ensures ([xs[0]] + r)[i] != ([xs[0]] + r)[j] {
          assert r[j - 1] in r;
        }
      }
    }
  }
}
