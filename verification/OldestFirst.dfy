/** `ORDER BY age ASC LIMIT n`, for any table given as a map from key to age; ties in any order. */
module OldestFirst {

  ghost predicate Sorted<K(!new)>(ages: map<K, int>, taken: seq<K>) {
    && (forall i :: 0 <= i < |taken| ==> taken[i] in ages)
    && (forall i, j :: 0 <= i < j < |taken| ==> taken[i] != taken[j] && ages[taken[i]] <= ages[taken[j]])
  }

  /** What the query may return: as many keys as there are up to n, in order, and none that is
      left out is older than one that is taken. */
  ghost predicate IsOldest<K(!new)>(ages: map<K, int>, n: nat, taken: seq<K>) {
    && Sorted(ages, taken)
    && |taken| == (if n <= |ages.Keys| then n else |ages.Keys|)
    && (forall k, i :: k in ages && k !in taken && 0 <= i < |taken| ==> ages[taken[i]] <= ages[k])
  }

  method Oldest<K(==, !new)>(ages: map<K, int>) returns (k: K)
    requires ages != map[]
    ensures k in ages && forall x :: x in ages ==> ages[k] <= ages[x]
  {
    k :| k in ages;
    var rest := ages.Keys - {k};
    while rest != {}
      invariant k in ages && rest <= ages.Keys
      invariant forall x :: x in ages && x !in rest ==> ages[k] <= ages[x]
      decreases rest
    {
      var x :| x in rest;
      if ages[x] < ages[k] { k := x; }
      rest := rest - {x};
    }
  }

  method TakeOldest<K(==, !new)>(ages: map<K, int>, n: nat) returns (taken: seq<K>)
    ensures IsOldest(ages, n, taken)
  {
    taken := [];
    var rest := ages;
    while |taken| < n && rest != map[]
      invariant Sorted(ages, taken) && rest.Keys <= ages.Keys
      invariant forall k :: k in ages ==> (k in rest <==> k !in taken)
      invariant forall k :: k in rest ==> rest[k] == ages[k]
      invariant forall k, i :: k in rest && 0 <= i < |taken| ==> ages[taken[i]] <= ages[k]
      invariant |taken| <= n && |taken| + |rest.Keys| == |ages.Keys|
      decreases n - |taken|
    {
      var k := Oldest(rest);
      assert (rest - {k}).Keys == rest.Keys - {k};
      taken, rest := taken + [k], rest - {k};
    }
  }

  function SetOf<K>(s: seq<K>): set<K> {
    set k | k in s
  }

  lemma {:induction false} DistinctSize<K>(s: seq<K>)
    requires forall i, j :: 0 <= i < j < |s| ==> s[i] != s[j]
    ensures |SetOf(s)| == |s|
  {
    if s == [] {
    } else {
      var p := s[..|s| - 1];
      DistinctSize(p);
      assert s == p + [s[|s| - 1]];
      assert SetOf(s) == SetOf(p) + {s[|s| - 1]};
    }
  }
}
