/** Operations on sequences that several components share. */
module Sequences {

  ghost predicate NoDup<T>(s: seq<T>) {
    forall i, j :: 0 <= i < j < |s| ==> s[i] != s[j]
  }

  function Without<T>(s: seq<T>, k: nat): (r: seq<T>)
    requires k < |s|
  {
    s[..k] + s[k+1..]
  }

  lemma WithoutMembers<T>(s: seq<T>, k: nat)
    requires k < |s| && NoDup(s)
    ensures NoDup(Without(s, k))
    ensures forall x :: x in Without(s, k) <==> x in s && x != s[k]
  {
    var r := Without(s, k);
    forall x | x in s && x != s[k] ensures x in r {
      var i :| 0 <= i < |s| && s[i] == x;
      assert r[if i < k then i else i - 1] == x;
    }
  }

  /** A sequence without repetition that lists exactly the numbers below `n` has length `n`. */
  lemma {:induction false} ListingOfRange(s: seq<nat>, n: nat)
    requires NoDup(s)
    requires forall x :: x in s <==> 0 <= x < n
    ensures |s| == n
  {
    if n == 0 {
      assert forall i :: 0 <= i < |s| ==> s[i] in s;
    } else {
      assert n - 1 in s;
      var k :| 0 <= k < |s| && s[k] == n - 1;
      WithoutMembers(s, k);
      ListingOfRange(Without(s, k), n - 1);
    }
  }

  function TotalLength<T>(ss: seq<seq<T>>): nat {
    if ss == [] then 0 else |ss[0]| + TotalLength(ss[1..])
  }

  lemma {:induction false} TotalLengthAppend<T>(ss: seq<seq<T>>, s: seq<T>)
    ensures TotalLength(ss + [s]) == TotalLength(ss) + |s|
  {
    if ss == [] {
      assert [] + [s] == [s] && [s][1..] == [];
    } else {
      TotalLengthAppend(ss[1..], s);
      assert (ss + [s])[1..] == ss[1..] + [s];
    }
  }

  lemma Assoc<T>(a: seq<T>, b: seq<T>, c: seq<T>)
    ensures a + b + c == a + (b + c)
  {}

  lemma SliceOfSlice<T>(s: seq<T>, a: nat, b: nat, c: nat, d: nat)
    requires a <= b <= |s| && c <= d <= b - a
    ensures s[a..b][c..d] == s[a + c..a + d]
  {
    var t := s[a..b];
    assert forall i {:trigger t[c..d][i]} :: 0 <= i < d - c ==> t[c..d][i] == s[a + c..a + d][i];
  }
}
