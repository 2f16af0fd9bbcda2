/** Comparisons that ignore order (swiftwave_service/cronjob/sync_proxy_state.go,
    container_manager/docker_proxy.go). */
module ListCompare {

  predicate NoDuplicates<T(==)>(a: seq<T>) {
    forall i, j :: 0 <= i < j < |a| ==> a[i] != a[j]
  }

  /** What the loops establish: the same length, and each element of the first found in the second. */
  predicate Covered<T(==)>(a: seq<T>, b: seq<T>) {
    |a| == |b| && forall x :: x in a ==> x in b
  }

  method IsListSame<T(==)>(a: seq<T>, b: seq<T>) returns (same: bool)
    ensures same <==> Covered(a, b)
    ensures NoDuplicates(a) ==> (same <==> multiset(a) == multiset(b))
  {
    if NoDuplicates(a) {
      CoveredIffPermutation(a, b);
    }
    if |a| != |b| {
      return false;
    }
    for i := 0 to |a|
      invariant forall x :: x in a[..i] ==> x in b
    {
      var found := false;
      for j := 0 to |b|
        invariant !found && a[i] !in b[..j]
      {
        if a[i] == b[j] {
          found := true;
          break;
        }
      }
      if !found {
        assert b[..|b|] == b;
        assert a[i] in a && a[i] !in b;
        return false;
      }
      assert a[..i + 1] == a[..i] + [a[i]];
    }
    assert a[..|a|] == a;
    return true;
  }

  /** A list without duplicates that fits into one of the same length is a permutation of it. */
  lemma {:induction false} CoveredIffPermutation<T>(a: seq<T>, b: seq<T>)
    requires NoDuplicates(a)
    ensures Covered(a, b) <==> multiset(a) == multiset(b)
  {
    if multiset(a) == multiset(b) {
      PermutationCovers(a, b);
    } else if Covered(a, b) {
      Pigeonhole(a, b);
    }
  }

  lemma PermutationCovers<T>(a: seq<T>, b: seq<T>)
    requires multiset(a) == multiset(b)
    ensures Covered(a, b)
  {
    assert |a| == |multiset(a)| && |b| == |multiset(b)|;
    forall x | x in a ensures x in b {
      assert x in multiset(b);
    }
  }

  lemma {:induction false} Pigeonhole<T>(a: seq<T>, b: seq<T>)
    requires NoDuplicates(a) && Covered(a, b)
    ensures multiset(a) == multiset(b)
  {
    if a != [] {
      assert a[0] in b;
      var k :| 0 <= k < |b| && b[k] == a[0];
      var rest := b[..k] + b[k + 1..];
      forall x | x in a[1..] ensures x in rest {
        assert x in a && x != a[0];
        var i :| 0 <= i < |b| && b[i] == x;
        assert rest[if i < k then i else i - 1] == x;
      }
      Pigeonhole(a[1..], rest);
      hide *;
      TakenOut(b, k);
      assert a == [a[0]] + a[1..];
    }
  }

  lemma TakenOut<T>(b: seq<T>, k: nat)
    requires k < |b|
    ensures multiset(b) == multiset([b[k]]) + multiset(b[..k] + b[k + 1..])
  {
    assert b == b[..k] + [b[k]] + b[k + 1..];
  }

  /** With a duplicate the comparison can be wrong. */
  lemma DuplicateMisleads<T>(a: seq<T>, i: nat, j: nat, other: T)
    requires i < j < |a| && a[i] == a[j] && other !in a
    ensures Covered(a, a[j := other]) && multiset(a) != multiset(a[j := other])
  {
    var b := a[j := other];
    forall x | x in a ensures x in b {
      var k :| 0 <= k < |a| && a[k] == x;
      assert b[if k == j then i else k] == x;
    }
    assert b[j] == other && other in multiset(b) && other !in multiset(a);
  }

  /** A text that is longer than every one of the list. */
  function Longer(a: seq<string>): (s: string)
    ensures s !in a && forall x :: x in a ==> |x| < |s|
  {
    if a == [] then "a"
    else
      var t := Longer(a[1..]);
      var s := if |a[0]| < |t| then t else a[0] + "a";
      assert forall x :: x in a ==> x == a[0] || x in a[1..];
      s
  }

  /** The comparison tells permutations from other lists exactly when the first list has no duplicates. */
  lemma ComparesIffNoDuplicates(a: seq<string>)
    ensures NoDuplicates(a) <==> forall b :: Covered(a, b) <==> multiset(a) == multiset(b)
  {
    if NoDuplicates(a) {
      forall b ensures Covered(a, b) <==> multiset(a) == multiset(b) {
        CoveredIffPermutation(a, b);
      }
    } else {
      var i, j :| 0 <= i < j < |a| && a[i] == a[j];
      DuplicateMisleads(a, i, j, Longer(a));
    }
  }

  // ------------------------------------------------------------------
  // Published ports
  // ------------------------------------------------------------------

  datatype PortConfig = PortConfig(name: string, protocol: string, targetPort: nat, publishedPort: nat,
      publishMode: string)

  /** The name of a port does not count. */
  function Unnamed(ports: seq<PortConfig>): (r: seq<PortConfig>)
    ensures |r| == |ports| && forall i :: 0 <= i < |r| ==> r[i] == ports[i].(name := "")
  {
    seq(|ports|, i requires 0 <= i < |ports| => ports[i].(name := ""))
  }

  method IsPortListSame(a: seq<PortConfig>, b: seq<PortConfig>) returns (same: bool)
    ensures same <==> Covered(Unnamed(a), Unnamed(b))
    ensures NoDuplicates(Unnamed(a)) ==> (same <==> multiset(Unnamed(a)) == multiset(Unnamed(b)))
  {
    ghost var u, v := Unnamed(a), Unnamed(b);
    if NoDuplicates(u) {
      CoveredIffPermutation(u, v);
    }
    if |a| != |b| {
      return false;
    }
    for i := 0 to |a|
      invariant forall x :: x in u[..i] ==> x in v
    {
      var found := false;
      for j := 0 to |b|
        invariant !found && u[i] !in v[..j]
      {
        if a[i].publishedPort == b[j].publishedPort && a[i].targetPort == b[j].targetPort
           && a[i].protocol == b[j].protocol && a[i].publishMode == b[j].publishMode {
          found := true;
          assert u[i] == v[j];
          break;
        }
        assert u[i] != v[j];
      }
      if !found {
        assert v[..|v|] == v;
        assert u[i] in u && u[i] !in v;
        return false;
      }
      assert u[..i + 1] == u[..i] + [u[i]];
    }
    assert u[..|a|] == u;
    return true;
  }

  // ------------------------------------------------------------------
  // Duplicates and maps
  // ------------------------------------------------------------------

  /** The result lists the first occurrences, at the given positions, and misses no element. */
  ghost predicate FirstOccurrences<T>(list: seq<T>, r: seq<T>, positions: seq<nat>) {
    && |positions| == |r|
    && (forall k :: 0 <= k < |r| ==>
          positions[k] < |list| && r[k] == list[positions[k]] && r[k] !in list[..positions[k]])
    && (forall k, l :: 0 <= k < l < |r| ==> positions[k] < positions[l])
    && (forall x :: x in list ==> x in r)
  }

  method RemoveDuplicates<T(==)>(list: seq<T>) returns (r: seq<T>, ghost positions: seq<nat>)
    ensures FirstOccurrences(list, r, positions)
    ensures NoDuplicates(r) && forall x :: x in r <==> x in list
  {
    var keys: set<T> := {};
    r, positions := [], [];
    for i := 0 to |list|
      invariant FirstOccurrences(list[..i], r, positions) && keys == set x | x in r
    {
      Extend(list, i, r, positions);
      if list[i] !in keys {
        keys := keys + {list[i]};
        r, positions := r + [list[i]], positions + [i];
      }
    }
    assert list[..|list|] == list;
    FirstOccurrencesDiffer(list, r, positions);
  }

  lemma Extend<T>(list: seq<T>, i: nat, r: seq<T>, positions: seq<nat>)
    requires i < |list| && FirstOccurrences(list[..i], r, positions)
    ensures list[i] in r ==> FirstOccurrences(list[..i + 1], r, positions)
    ensures list[i] !in r ==> FirstOccurrences(list[..i + 1], r + [list[i]], positions + [i])
  {
    assert list[..i + 1] == list[..i] + [list[i]];
    assert forall k :: 0 <= k < |r| ==> list[..i][..positions[k]] == list[..i + 1][..positions[k]];
    assert list[..i + 1][..i] == list[..i];
  }

  lemma FirstOccurrencesDiffer<T>(list: seq<T>, r: seq<T>, positions: seq<nat>)
    requires FirstOccurrences(list, r, positions)
    ensures NoDuplicates(r) && forall x :: x in r <==> x in list
  {
    forall k, l | 0 <= k < l < |r| ensures r[k] != r[l] {
      assert list[..positions[l]][positions[k]] == r[k];
    }
  }

  lemma SubsetOfSameSize<T>(a: set<T>, b: set<T>)
    requires a <= b && |a| == |b|
    ensures a == b
  {
    assert b == a + (b - a) && |b| == |a| + |b - a|;
  }

  /** The keys are visited in any order. */
  method IsSameMap(a: map<string, string>, b: map<string, string>) returns (same: bool)
    ensures same <==> a == b
  {
    assert |a| == |a.Keys| && |b| == |b.Keys|;
    if |a| != |b| {
      return false;
    }
    var remaining := a.Keys;
    while remaining != {}
      invariant remaining <= a.Keys
      invariant forall k :: k in a && k !in remaining ==> k in b && a[k] == b[k]
    {
      var key :| key in remaining;
      remaining := remaining - {key};
      if key !in b {
        return false;
      }
      if a[key] != b[key] {
        return false;
      }
    }
    SubsetOfSameSize(a.Keys, b.Keys);
    return true;
  }
}
