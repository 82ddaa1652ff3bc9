/** Sequences that differ only in the order of their elements. */
module Permutations {
  lemma {:induction false} DistinctSize<T>(s: seq<T>)
    requires forall p, q :: 0 <= p < q < |s| ==> s[p] != s[q]
    ensures |s| == |set id | id in s|
  {
    if s == [] {
    } else {
      var init := s[..|s| - 1];
      DistinctSize(init);
      assert (set id | id in s) == (set id | id in init) + {s[|s| - 1]};
    }
  }

  lemma {:induction false} SameMembers<T>(cs: seq<T>, ds: seq<T>)
    requires multiset(cs) == multiset(ds)
    ensures forall c :: c in cs <==> c in ds
  {
    assert forall c :: c in cs <==> c in multiset(cs);
  }

  lemma {:induction false} Twice<T>(cs: seq<T>, c: T) returns (i: nat, j: nat)
    requires multiset(cs)[c] >= 2
    ensures i < j < |cs| && cs[i] == c && cs[j] == c
    decreases |cs|
  {
    var init := cs[..|cs| - 1];
    assert cs == init + [cs[|cs| - 1]];
    if cs[|cs| - 1] == c {
      assert c in multiset(init);
      j := |cs| - 1;
      i :| 0 <= i < |init| && init[i] == c;
    } else {
      i, j := Twice(init, c);
    }
  }

  lemma {:induction false} TwoOf<T>(ds: seq<T>, i: nat, j: nat)
    requires i < j < |ds| && ds[i] == ds[j]
    ensures multiset(ds)[ds[i]] >= 2
  {
    assert ds == ds[..j] + [ds[j]] + ds[j + 1..];
    assert ds[i] in multiset(ds[..j]) by { assert ds[..j][i] == ds[i]; }
  }

  lemma {:induction false} CountDistinct<T>(s: seq<T>, x: T)
    requires forall p, q :: 0 <= p < q < |s| ==> s[p] != s[q]
    ensures multiset(s)[x] == if x in s then 1 else 0
  {
    if s == [] {
    } else {
      CountDistinct(s[..|s| - 1], x);
      assert s == s[..|s| - 1] + [s[|s| - 1]];
    }
  }

  lemma {:induction false} DistinctMembers<T>(s: seq<T>, t: seq<T>)
    requires forall p, q :: 0 <= p < q < |s| ==> s[p] != s[q]
    requires forall p, q :: 0 <= p < q < |t| ==> t[p] != t[q]
    requires forall x :: x in s <==> x in t
    ensures multiset(s) == multiset(t)
  {
    forall x ensures multiset(s)[x] == multiset(t)[x] {
      CountDistinct(s, x);
      CountDistinct(t, x);
    }
  }

  lemma {:induction false} Without<T>(s: seq<T>, i: nat)
    requires i < |s|
    ensures multiset(s) == multiset(s[..i] + s[i + 1..]) + multiset{s[i]}
    ensures s == s[..i] + [s[i]] + s[i + 1..]
  {
    assert s == s[..i] + [s[i]] + s[i + 1..];
  }

  lemma {:induction false} WithoutSame<T>(s: seq<T>, t: seq<T>, i: nat)
    requires multiset(s) == multiset(t) && s != [] && i < |t| && t[i] == s[|s| - 1]
    ensures multiset(s[..|s| - 1]) == multiset(t[..i] + t[i + 1..])
  {
    Without(s, |s| - 1);
    Without(t, i);
    assert s[..|s| - 1] + s[|s|..] == s[..|s| - 1];
    assert multiset(s[..|s| - 1]) == multiset(s) - multiset{s[|s| - 1]};
  }

  /** Whatever holds of every two places of a sequence, in either order, holds of every order of it. */
  lemma {:induction false} PlacesOf<T>(s: seq<T>, t: seq<T>, i: nat, j: nat) returns (a: nat, b: nat)
    requires multiset(s) == multiset(t) && i < j < |t|
    ensures a < |s| && b < |s| && a != b && s[a] == t[i] && s[b] == t[j]
  {
    SameMembers(s, t);
    if t[i] == t[j] {
      TwoOf(t, i, j);
      a, b := Twice(s, t[i]);
    } else {
      assert t[i] in s && t[j] in s;
      a :| 0 <= a < |s| && s[a] == t[i];
      b :| 0 <= b < |s| && s[b] == t[j];
    }
  }

  /** The sequence with two of its elements in front. */
  function TwoFirst<T>(s: seq<T>, i: nat, j: nat): (r: seq<T>)
    requires i < j < |s|
    ensures multiset(r) == multiset(s) && |r| == |s| && r[0] == s[i] && r[1] == s[j]
  {
    assert s == s[..i] + [s[i]] + s[i + 1..j] + [s[j]] + s[j + 1..];
    [s[i], s[j]] + s[..i] + s[i + 1..j] + s[j + 1..]
  }

  function OneFirst<T>(s: seq<T>, i: nat): (r: seq<T>)
    requires i < |s|
    ensures multiset(r) == multiset(s) && |r| == |s| && r[0] == s[i]
  {
    assert s == s[..i] + [s[i]] + s[i + 1..];
    [s[i]] + s[..i] + s[i + 1..]
  }
}
