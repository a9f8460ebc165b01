/**
 * The two table operations `find_person_by_name` ends with: keep the rows whose
 * score is positive (a boolean mask, order kept) and order them by descending
 * score (`sort_values(ascending=False)`). Only the order is specified, not which
 * of two equally scored rows comes first.
 */
module Ranking {

  /** The rows of `s` whose key is positive, in their original order. */
  function Positive<T>(s: seq<T>, key: T -> real): seq<T> {
    if s == [] then []
    else (if key(s[0]) > 0.0 then [s[0]] else []) + Positive(s[1..], key)
  }

  /** `Positive` keeps exactly the rows with a positive key. */
  lemma {:induction false} PositiveMembers<T>(s: seq<T>, key: T -> real)
    ensures forall x :: x in Positive(s, key) <==> x in s && key(x) > 0.0
  {
    if s != [] {
      PositiveMembers(s[1..], key);
      var h := if key(s[0]) > 0.0 then [s[0]] else [];
      assert Positive(s, key) == h + Positive(s[1..], key);
      assert forall x :: x in s <==> x == s[0] || x in s[1..];
    }
  }

  /** `Positive` keeps each row at most as often as it occurs in `s`. */
  lemma {:induction false} PositiveSubMultiset<T>(s: seq<T>, key: T -> real)
    ensures multiset(Positive(s, key)) <= multiset(s)
  {
    if s != [] {
      PositiveSubMultiset(s[1..], key);
      var h := if key(s[0]) > 0.0 then [s[0]] else [];
      assert Positive(s, key) == h + Positive(s[1..], key);
      assert s == [s[0]] + s[1..];
      assert multiset(s) == multiset([s[0]]) + multiset(s[1..]);
    }
  }

  /** A permutation of the positive rows holds exactly the rows with a positive key. */
  lemma PermutationOfPositive<T>(s: seq<T>, key: T -> real, r: seq<T>)
    requires multiset(r) == multiset(Positive(s, key))
    ensures forall x :: x in r <==> x in s && key(x) > 0.0
  {
    var p := Positive(s, key);
    PositiveMembers(s, key);
    forall x ensures x in r <==> x in p {
      assert x in r <==> x in multiset(r);
      assert x in p <==> x in multiset(p);
    }
  }

  ghost predicate NonIncreasing<T>(s: seq<T>, key: T -> real) {
    forall i, j :: 0 <= i < j < |s| ==> key(s[i]) >= key(s[j])
  }

  /** Placing `x` between the keys not below it and the keys below it keeps the order. */
  lemma InsertKeepsOrder<T>(r: seq<T>, k: nat, x: T, key: T -> real)
    requires k <= |r| && NonIncreasing(r, key)
    requires forall j :: 0 <= j < k ==> key(r[j]) >= key(x)
    requires k < |r| ==> key(r[k]) < key(x)
    ensures NonIncreasing(r[..k] + [x] + r[k..], key)
  {
    var t := r[..k] + [x] + r[k..];
    forall i, j | 0 <= i < j < |t| ensures key(t[i]) >= key(t[j]) {
      if j > k && i < k {
        assert t[i] == r[i] && t[j] == r[j - 1];
      } else if j > k && i == k {
        assert t[j] == r[j - 1] && key(r[k]) >= key(r[j - 1]);
      } else if j > k {
        assert t[i] == r[i - 1] && t[j] == r[j - 1];
      } else if j == k {
        assert t[i] == r[i];
      } else {
        assert t[i] == r[i] && t[j] == r[j];
      }
    }
  }

  lemma InsertMultiset<T>(r: seq<T>, k: nat, x: T)
    requires k <= |r|
    ensures multiset(r[..k] + [x] + r[k..]) == multiset(r) + multiset{x}
  {
    assert r[..k] + r[k..] == r;
  }

  /** The first position whose key is below `key(x)`, or `|r|`. */
  method FindSlot<T>(r: seq<T>, x: T, key: T -> real) returns (k: nat)
    ensures k <= |r|
    ensures forall j :: 0 <= j < k ==> key(r[j]) >= key(x)
    ensures k < |r| ==> key(r[k]) < key(x)
  {
    k := 0;
    while k < |r| && key(r[k]) >= key(x)
      invariant k <= |r|
      invariant forall j :: 0 <= j < k ==> key(r[j]) >= key(x)
    {
      k := k + 1;
    }
  }

  /** Insertion sort on descending key: a permutation of `s` in non-increasing key order. */
  method SortDescending<T>(s: seq<T>, key: T -> real) returns (r: seq<T>)
    ensures multiset(r) == multiset(s)
    ensures NonIncreasing(r, key)
  {
    r := [];
    for i := 0 to |s|
      invariant multiset(r) == multiset(s[..i])
      invariant NonIncreasing(r, key)
    {
      var k := FindSlot(r, s[i], key);
      InsertKeepsOrder(r, k, s[i], key);
      InsertMultiset(r, k, s[i]);
      assert s[..i + 1] == s[..i] + [s[i]];
      r := r[..k] + [s[i]] + r[k..];
    }
    assert s[..|s|] == s;
  }

  /** The key of every element, in order (a score column). */
  function Scores<T>(s: seq<T>, key: T -> real): (r: seq<real>)
    ensures |r| == |s|
    ensures forall i :: 0 <= i < |s| ==> r[i] == key(s[i])
  {
    seq(|s|, i requires 0 <= i < |s| => key(s[i]))
  }

  /**
   * The elements with a positive key, each as often as in `s`, in non-increasing
   * key order.
   */
  method RankPositive<T>(s: seq<T>, key: T -> real) returns (r: seq<T>)
    ensures multiset(r) == multiset(Positive(s, key))
    ensures NonIncreasing(r, key)
    ensures forall x :: x in r <==> x in s && key(x) > 0.0
  {
    r := SortDescending(Positive(s, key), key);
    PermutationOfPositive(s, key, r);
  }
}
