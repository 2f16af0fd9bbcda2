/** Indexed rule lists: first match, insert at an index, delete at an index. */
module RuleLists {

  /** The elements that satisfy `p`, in order. */
  function Project<T>(s: seq<T>, p: T -> bool): seq<T> {
    if s == [] then [] else (if p(s[0]) then [s[0]] else []) + Project(s[1..], p)
  }

  /** The first index at which `p` holds, or the length. */
  function FirstIndex<T>(s: seq<T>, p: T -> bool): (i: nat)
    ensures i <= |s| && (i < |s| ==> p(s[i])) && forall k :: 0 <= k < i ==> !p(s[k])
  {
    if s == [] || p(s[0]) then 0 else 1 + FirstIndex(s[1..], p)
  }

  lemma FirstIndexIs<T>(s: seq<T>, p: T -> bool, i: nat)
    requires i <= |s| && (i < |s| ==> p(s[i])) && forall k :: 0 <= k < i ==> !p(s[k])
    ensures FirstIndex(s, p) == i
  {
  }

  function InsertAt<T>(s: seq<T>, i: nat, x: T): seq<T>
    requires i <= |s|
  {
    s[..i] + [x] + s[i..]
  }

  function RemoveAt<T>(s: seq<T>, i: nat): seq<T>
    requires i < |s|
  {
    s[..i] + s[i + 1..]
  }

  function RemoveFirst<T>(s: seq<T>, p: T -> bool): seq<T> {
    var i := FirstIndex(s, p);
    if i < |s| then RemoveAt(s, i) else s
  }

  lemma ProjectCons<T>(s: seq<T>, p: T -> bool)
    requires s != []
    ensures Project(s, p) == (if p(s[0]) then [s[0]] else []) + Project(s[1..], p)
  {
  }

  lemma {:induction false} ProjectAppend<T>(a: seq<T>, b: seq<T>, p: T -> bool)
    ensures Project(a + b, p) == Project(a, p) + Project(b, p)
  {
    if a == [] {
      assert a + b == b;
    } else {
      var s := a + b;
      ProjectCons(s, p);
      ProjectCons(a, p);
      hide *;
      assert s[0] == a[0] && s[1..] == a[1..] + b;
      ProjectAppend(a[1..], b, p);
      Associate(if p(a[0]) then [a[0]] else [], Project(a[1..], p), Project(b, p));
    }
  }

  lemma Associate<T>(a: seq<T>, b: seq<T>, c: seq<T>)
    ensures a + (b + c) == a + b + c
  {
  }

  lemma {:induction false} ProjectNone<T>(s: seq<T>, p: T -> bool)
    requires forall k :: 0 <= k < |s| ==> !p(s[k])
    ensures Project(s, p) == []
  {
    if s != [] {
      ProjectNone(s[1..], p);
    }
  }

  lemma {:induction false} ProjectMembers<T>(s: seq<T>, p: T -> bool)
    ensures forall x :: x in Project(s, p) <==> x in s && p(x)
  {
    if s != [] {
      ProjectMembers(s[1..], p);
    }
  }

  /** `r` is what `s` has at the increasing positions `at`, and these are where `p` holds. */
  ghost predicate Picks<T>(s: seq<T>, r: seq<T>, at: seq<nat>, p: T -> bool) {
    && |r| == |at|
    && (forall k :: 0 <= k < |at| ==> at[k] < |s| && r[k] == s[at[k]])
    && (forall k, l :: 0 <= k < l < |at| ==> at[k] < at[l])
    && (forall i: nat :: i < |s| ==> (i in at <==> p(s[i])))
  }

  lemma PicksMore<T>(s: seq<T>, r: seq<T>, at: seq<nat>, p: T -> bool, x: T)
    requires Picks(s, r, at, p)
    ensures p(x) ==> Picks(s + [x], r + [x], at + [|s|], p)
    ensures !p(x) ==> Picks(s + [x], r, at, p)
  {
    var s', at' := s + [x], at + [|s|];
    assert forall i :: 0 <= i < |s| ==> s'[i] == s[i];
    assert forall i :: 0 <= i < |s| ==> (i in at' <==> i in at);
    assert at'[|at|] == |s|;
  }

  lemma {:induction false} ProjectPicks<T>(s: seq<T>, p: T -> bool) returns (at: seq<nat>)
    ensures Picks(s, Project(s, p), at, p)
  {
    if s == [] {
      return [];
    }
    var n := |s| - 1;
    assert Project([s[n]], p) == if p(s[n]) then [s[n]] else [];
    at := ProjectPicks(s[..n], p);
    hide Project, Picks;
    PicksMore(s[..n], Project(s[..n], p), at, p, s[n]);
    assert s == s[..n] + [s[n]];
    ProjectAppend(s[..n], [s[n]], p);
    assert Project(s[..n], p) + [] == Project(s[..n], p);
    at := if p(s[n]) then at + [n] else at;
  }

  lemma ProjectAround<T>(a: seq<T>, x: T, b: seq<T>, p: T -> bool)
    ensures Project(a + [x] + b, p) == Project(a, p) + (if p(x) then [x] else []) + Project(b, p)
  {
    assert Project([x], p) == if p(x) then [x] else [];
    hide Project;
    ProjectAppend(a + [x], b, p);
    ProjectAppend(a, [x], p);
  }

  lemma ProjectInsert<T>(s: seq<T>, i: nat, x: T, p: T -> bool)
    requires i <= |s|
    ensures !p(x) ==> Project(InsertAt(s, i, x), p) == Project(s, p)
    ensures p(x) && (forall k :: 0 <= k < i ==> !p(s[k])) ==> Project(InsertAt(s, i, x), p) == [x] + Project(s, p)
  {
    hide Project;
    var a, b := s[..i], s[i..];
    ProjectAround(a, x, b, p);
    ProjectAppend(a, b, p);
    assert a + b == s;
    if forall k :: 0 <= k < i ==> !p(s[k]) {
      ProjectNone(a, p);
    }
  }

  lemma RemoveFirstAt<T>(a: seq<T>, x: T, b: seq<T>, q: T -> bool)
    requires q(x) && forall k :: 0 <= k < |a| ==> !q(a[k])
    ensures RemoveFirst(a + [x] + b, q) == a + b
  {
    FirstIndexIs(a + [x] + b, q, |a|);
  }

  lemma InsertThenRemove<T>(s: seq<T>, x: T, q: T -> bool)
    requires q(x)
    ensures RemoveFirst(InsertAt(s, 0, x), q) == s
  {
    RemoveFirstAt([], x, s, q);
    hide RemoveFirst;
    assert [] + [x] + s == InsertAt(s, 0, x) && [] + s == s;
  }

  lemma RemoveShortens<T>(s: seq<T>, q: T -> bool)
    ensures |RemoveFirst(s, q)| == if FirstIndex(s, q) < |s| then |s| - 1 else |s|
  {
  }

  /** Deleting the first match of `q`: a projection that keeps this element loses its own first
      match of `q`, and one that does not keep it stays the same. */
  lemma ProjectRemoveFirst<T>(s: seq<T>, q: T -> bool, p: T -> bool)
    ensures FirstIndex(s, q) < |s| && !p(s[FirstIndex(s, q)]) ==> Project(RemoveFirst(s, q), p) == Project(s, p)
    ensures FirstIndex(s, q) == |s| || p(s[FirstIndex(s, q)]) ==>
              Project(RemoveFirst(s, q), p) == RemoveFirst(Project(s, p), q)
  {
    hide *;
    var i := FirstIndex(s, q);
    if i < |s| {
      var a, x, b := s[..i], s[i], s[i + 1..];
      ProjectRemoveMiddle(a, x, b, q, p);
      assert s == a + [x] + b;
    } else {
      ProjectHasNone(s, p, q);
      RemoveNothing(s, q);
      RemoveNothing(Project(s, p), q);
    }
  }

  lemma RemoveNothing<T>(s: seq<T>, q: T -> bool)
    requires forall k :: 0 <= k < |s| ==> !q(s[k])
    ensures RemoveFirst(s, q) == s
  {
    FirstIndexIs(s, q, |s|);
  }

  lemma ProjectRemoveMiddle<T>(a: seq<T>, x: T, b: seq<T>, q: T -> bool, p: T -> bool)
    requires q(x) && forall k :: 0 <= k < |a| ==> !q(a[k])
    ensures !p(x) ==> Project(RemoveFirst(a + [x] + b, q), p) == Project(a + [x] + b, p)
    ensures p(x) ==> Project(RemoveFirst(a + [x] + b, q), p) == RemoveFirst(Project(a + [x] + b, p), q)
  {
    ProjectHasNone(a, p, q);
    hide Project, FirstIndex;
    RemoveFirstAt(a, x, b, q);
    hide RemoveFirst;
    ProjectAround(a, x, b, p);
    ProjectAppend(a, b, p);
    if p(x) {
      RemoveFirstAt(Project(a, p), x, Project(b, p), q);
    } else {
      assert Project(a, p) + [] == Project(a, p);
    }
  }

  lemma {:induction false} ProjectHasNone<T>(s: seq<T>, p: T -> bool, q: T -> bool)
    requires forall k :: 0 <= k < |s| ==> !q(s[k])
    ensures forall k :: 0 <= k < |Project(s, p)| ==> !q(Project(s, p)[k])
  {
    if s != [] {
      ProjectHasNone(s[1..], p, q);
    }
  }
}
