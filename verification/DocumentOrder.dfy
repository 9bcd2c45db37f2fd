/**
 Sizzle's document-order comparator for browsers without compareDocumentPosition, and uniqueSort.
*/
module DocumentOrder {
  import opened Lists
  import opened Dom
  import opened DomListing

  function NextSibling(t: Tree, p: Path): Option<Path>
    requires IsNode(t, p)
  {
    if p == [] then None
    else
      AncestorIsNode(t, p, |p| - 1);
      if Last(p) + 1 < |Subtree(t, Parent(p)).kids| then Some(Parent(p) + [Last(p) + 1]) else None
  }

  lemma {:induction false} NodeOfParent(t: Tree, q: Path, i: nat)
    requires IsNode(t, q)
    ensures IsNode(t, q + [i]) <==> i < |Subtree(t, q).kids|
  {
    if q != [] {
      assert (q + [i])[1..] == q[1..] + [i];
      NodeOfParent(t.kids[q[0]], q[1..], i);
    }
  }

  /** siblingCheck: walk from a along nextSibling, looking for b; either may be undefined */
  method SiblingCheck(t: Tree, a: Option<Path>, b: Option<Path>) returns (c: int)
    requires a.Some? ==> IsNode(t, a.value)
    requires b.Some? ==> IsNode(t, b.value)
    requires a.Some? && b.Some? ==> a.value != [] && b.value != [] && Parent(a.value) == Parent(b.value) && a != b
    ensures c == -1 || c == 1
    ensures c < 0 <==> a.None? || (b.Some? && Last(a.value) < Last(b.value))
  {
    var cur := if b.Some? then a else None;
    if cur.Some? {
      ghost var last := a.value;
      assert b.value == Parent(b.value) + [Last(b.value)];
      AncestorIsNode(t, b.value, |b.value| - 1);
      NodeOfParent(t, Parent(b.value), Last(b.value));
      while true
        invariant cur == Some(last) && IsNode(t, last) && last != [] && Parent(last) == Parent(b.value)
        invariant Last(a.value) <= Last(last) && (Last(a.value) < Last(b.value) <==> Last(last) < Last(b.value))
        invariant last != b.value
        decreases |Subtree(t, Parent(b.value)).kids| - Last(last)
      {
        NodeOfParent(t, Parent(last), Last(last));
        assert last == Parent(last) + [Last(last)];
        cur := NextSibling(t, cur.value);
        if cur.None? { break; }
        NodeOfParent(t, Parent(last), Last(last) + 1);
        if cur == b { return -1; }
        last := cur.value;
        assert last == Parent(last) + [Last(last)];
      }
    }
    c := if a.Some? then 1 else -1;
  }

  /** The list a, its parent, ... turned round: the nodes on the way down to a. */
  function Ancestry(a: Path): (ap: seq<Path>)
    ensures |ap| == |a| + 1
  {
    seq(|a| + 1, i requires 0 <= i <= |a| => a[..i])
  }

  method AncestorList(a: Path) returns (ap: seq<Path>)
    ensures ap == Ancestry(a)
  {
    ap := [a];
    var cur := a;
    while cur != []
      invariant |cur| <= |a| && cur == a[..|cur|]
      invariant |ap| == |a| - |cur| + 1
      invariant forall i :: 0 <= i < |ap| ==> ap[i] == a[..|cur| + i]
    {
      var up := Parent(cur);
      assert up == a[..|up|];
      ap := [up] + ap;
      cur := up;
    }
  }

  /**
   The order the comparator imposes on the nodes of one tree: preorder, except that a root that is not the
   current document goes last.  The current document is the one Sizzle was last set to; an element, a
   fragment or the document of another frame is not.
  */
  predicate SortsBefore(current: bool, a: Path, b: Path) {
    if a == b then false
    else if current || (a != [] && b != []) then Precedes(a, b)
    else b == []
  }

  /**
   sortOrder on two nodes of one tree, `current` if its root is the current document; also tells whether it saw
   a duplicate
  */
  method SortOrder(t: Tree, current: bool, a: Path, b: Path) returns (c: int, duplicate: bool)
    requires IsNode(t, a) && IsNode(t, b)
    ensures c == 0 <==> a == b
    ensures c < 0 <==> SortsBefore(current, a, b)
    ensures duplicate <==> a == b
  {
    duplicate := false;
    if a == b {
      return 0, true;
    }
    if a == [] || b == [] {
      if current {
        c := if a == [] then -1 else 1;
      } else {
        c := if a != [] then -1 else 1;
      }
    } else if Parent(a) == Parent(b) {
      SiblingsPrecede(a, b);
      c := SiblingCheck(t, Some(a), Some(b));
    } else {
      var ap := AncestorList(a);
      var bp := AncestorList(b);
      assert ap[0] == [] == bp[0];
      var i := 0;
      while i < |ap| && i < |bp| && ap[i] == bp[i]
        invariant i <= |ap| && i <= |bp|
        invariant i > 0 ==> a[..i - 1] == b[..i - 1]
        invariant i == 0 ==> ap[0] == bp[0]
      {
        i := i + 1;
      }
      var an := if i < |ap| then Some(ap[i]) else None;
      var bn := if i < |bp| then Some(bp[i]) else None;
      if an.Some? { AncestorIsNode(t, a, i); }
      if bn.Some? { AncestorIsNode(t, b, i); }
      DivergencePrecedes(a, b, i - 1);
      c := SiblingCheck(t, an, bn);
    }
  }

  lemma SiblingsPrecede(a: Path, b: Path)
    requires a != [] && b != [] && Parent(a) == Parent(b)
    ensures Precedes(a, b) <==> Last(a) < Last(b)
  {
    PrecedesUnder(Parent(a), [Last(a)], [Last(b)]);
    assert a == Parent(a) + [Last(a)] && b == Parent(b) + [Last(b)];
  }

  /** The first n steps agree: what follows them decides. */
  lemma {:induction false} DivergencePrecedes(a: Path, b: Path, n: nat)
    requires n <= |a| && n <= |b| && a[..n] == b[..n] && a != b
    requires n < |a| && n < |b| ==> a[..n + 1] != b[..n + 1]
    ensures n == |a| ==> Precedes(a, b)
    ensures n == |b| ==> !Precedes(a, b)
    ensures n < |a| && n < |b| ==>
              Parent(a[..n + 1]) == Parent(b[..n + 1]) &&
              (Precedes(a, b) <==> Last(a[..n + 1]) < Last(b[..n + 1]))
  {
    assert a == a[..n] + a[n..] && b == b[..n] + b[n..];
    PrecedesUnder(a[..n], a[n..], b[n..]);
    if n < |a| && n < |b| {
      assert a[..n + 1] == a[..n] + [a[n]] && b[..n + 1] == b[..n] + [b[n]];
      assert a[n] != b[n];
    }
  }

  // ---------------------------------------------------------------- what order that is

  /**
   The comparator follows document order on a pair exactly when the root is the current document or neither node
   is the root.
  */
  lemma FollowsDocumentOrder(current: bool, a: Path, b: Path)
    requires a != b
    ensures (SortsBefore(current, a, b) <==> Precedes(a, b)) <==> (current || (a != [] && b != []))
  {
  }

  /** The smallest tree on which it does not, whatever its root is: an element, or the document of another frame. */
  lemma ForeignRootSortsLast(root: Kind)
    ensures var t := Tree(root, [Tree(Element, [])]);
            IsNode(t, []) && IsNode(t, [0]) && Precedes([], [0]) && SortsBefore(false, [0], []) &&
            !SortsBefore(false, [], [0])
  {
    assert [0][1..] == [];
  }

  /** On every tree it is a strict total order, so sorting with it is well defined. */
  lemma StrictTotalOrder(current: bool, a: Path, b: Path, c: Path)
    ensures !SortsBefore(current, a, a)
    ensures a != b ==> (SortsBefore(current, a, b) <==> !SortsBefore(current, b, a))
    ensures SortsBefore(current, a, b) && SortsBefore(current, b, c) ==> SortsBefore(current, a, c)
  {
    if a != b { PrecedesTotal(a, b); }
    if Precedes(a, b) && Precedes(b, c) {
      PrecedesTransitive(a, b, c);
      PrecedesIrreflexive(a);
    }
  }

  /** And in the current document it is the order in which a depth-first traversal meets the nodes. */
  lemma TraversalOrder(t: Tree, i: nat, j: nat)
    requires i < |Listing(t, [], true)| && j < |Listing(t, [], true)|
    ensures SortsBefore(true, Listing(t, [], true)[i], Listing(t, [], true)[j]) <==> i < j
  {
    var all := Listing(t, [], true);
    ListingAscends(t, [], true);
    if i < j {
      PrecedesIrreflexive(all[i]);
    } else if j < i {
      PrecedesIrreflexive(all[i]);
      PrecedesTotal(all[i], all[j]);
    }
  }

  // ---------------------------------------------------------------- uniqueSort

  ghost predicate Sorted(current: bool, s: seq<Path>) {
    forall i, j :: 0 <= i < j < |s| ==> s[i] == s[j] || SortsBefore(current, s[i], s[j])
  }

  ghost predicate StrictlySorted(current: bool, s: seq<Path>) {
    forall i, j :: 0 <= i < j < |s| ==> SortsBefore(current, s[i], s[j])
  }

  predicate Repeats(s: seq<Path>, k: nat)
    requires k < |s|
  {
    k > 0 && s[k - 1] == s[k]
  }

  /** From index m on, without the repeated entries. */
  function Uniques(s: seq<Path>, m: nat): seq<Path>
    requires m <= |s|
    decreases |s| - m
  {
    if m == |s| then [] else (if Repeats(s, m) then [] else [s[m]]) + Uniques(s, m + 1)
  }

  lemma {:induction false} UniquesPlain(s: seq<Path>, m: nat, n: nat)
    requires m <= n <= |s| && forall k :: m <= k < n ==> !Repeats(s, k)
    ensures Uniques(s, m) == s[m..n] + Uniques(s, n)
    decreases n - m
  {
    if m < n {
      UniquesPlain(s, m + 1, n);
      var head, rest := s[m + 1..n], Uniques(s, n);
      assert Uniques(s, m) == [s[m]] + (head + rest);
      assert s[m..n] == [s[m]] + head;
    } else {
      assert s[m..n] + Uniques(s, n) == Uniques(s, n);
    }
  }

  lemma {:induction false} UniquesSorted(current: bool, s: seq<Path>, m: nat)
    requires m <= |s| && Sorted(current, s)
    ensures StrictlySorted(current, Uniques(s, m))
    ensures forall x :: x in Uniques(s, m) ==> x in s[m..] && (m > 0 ==> SortsBefore(current, s[m - 1], x))
    ensures forall x :: x in s[m..] ==> x in Uniques(s, m) || (m > 0 && x == s[m - 1])
    decreases |s| - m
  {
    if m < |s| {
      UniquesSorted(current, s, m + 1);
      assert s[m..] == [s[m]] + s[m + 1..];
      var rest := Uniques(s, m + 1);
      forall i | 0 <= i < |rest|
        ensures SortsBefore(current, s[m], rest[i]) && (m > 0 ==> SortsBefore(current, s[m - 1], rest[i]))
      {
        assert rest[i] in rest;
        if m > 0 { StrictTotalOrder(current, s[m - 1], s[m], rest[i]); }
      }
    }
  }

  /** duplicates lists exactly the indices of s below n that repeat their predecessor, in order. */
  ghost predicate ListsRepeats(s: seq<Path>, duplicates: seq<nat>, n: nat) {
    && (forall k :: 0 <= k < |duplicates| ==> duplicates[k] < n && duplicates[k] < |s| && Repeats(s, duplicates[k]))
    && (forall k, l :: 0 <= k < l < |duplicates| ==> duplicates[k] < duplicates[l])
    && (forall m :: 0 <= m < n && m < |s| && Repeats(s, m) ==> m in duplicates)
  }

  /** The first loop of uniqueSort */
  method FindDuplicates(s: seq<Path>) returns (duplicates: seq<nat>)
    ensures ListsRepeats(s, duplicates, |s|)
  {
    duplicates := [];
    var i := 0;
    NoIndexYet(s);
    hide *;
    while i < |s|
      invariant i <= |s| && ListsRepeats(s, duplicates, i + 1)
    {
      i := i + 1;
      OneIndexMore(s, duplicates, i);
      if i < |s| && s[i - 1] == s[i] {
        duplicates := duplicates + [i];
      }
    }
    AllIndices(s, duplicates);
  }

  lemma NoIndexYet(s: seq<Path>)
    ensures ListsRepeats(s, [], 1)
  {
  }

  lemma AllIndices(s: seq<Path>, duplicates: seq<nat>)
    requires ListsRepeats(s, duplicates, |s| + 1)
    ensures ListsRepeats(s, duplicates, |s|)
  {
  }

  lemma OneIndexMore(s: seq<Path>, duplicates: seq<nat>, n: nat)
    requires ListsRepeats(s, duplicates, n) && n > 0
    ensures ListsRepeats(s, if n < |s| && s[n - 1] == s[n] then duplicates + [n] else duplicates, n + 1)
  {
    assert n < |s| ==> (Repeats(s, n) <==> s[n - 1] == s[n]);
    hide Repeats;
    var more := duplicates + [n];
    assert more[|duplicates|] == n && forall k :: 0 <= k < |duplicates| ==> more[k] == duplicates[k];
    assert forall m :: m in more <==> m in duplicates || m == n;
  }

  lemma OneSpliced(s: seq<Path>, q: nat, m: nat, rest: seq<Path>)
    requires q < m <= |s|
    ensures (s[..m] + rest)[..q] + (s[..m] + rest)[q + 1..] == s[..q] + (s[q + 1..m] + rest)
  {
    var r := s[..m] + rest;
    assert r[..q] == s[..q] && r[q + 1..] == s[q + 1..m] + rest;
  }

  /** The second loop: splice the saved indices out, the last first */
  method SpliceDuplicates(s: seq<Path>, duplicates: seq<nat>) returns (r: seq<Path>)
    requires ListsRepeats(s, duplicates, |s|)
    ensures r == Uniques(s, 0)
  {
    r := s;
    var j := |duplicates|;
    ghost var m := |s|;
    while j > 0
      invariant 0 <= j <= |duplicates| && m == (if j < |duplicates| then duplicates[j] else |s|)
      invariant r == s[..m] + Uniques(s, m)
    {
      j := j - 1;
      var q := duplicates[j];
      UniquesPlain(s, q + 1, m);
      OneSpliced(s, q, m, Uniques(s, m));
      r := r[..q] + r[q + 1..];
      m := q;
    }
    assert forall k :: 0 <= k < m ==> k !in duplicates;
    UniquesPlain(s, 0, m);
  }

  /**
   uniqueSort after the native sort, which has put `sorted` in order and seen a duplicate if there
   is one (two equal entries end up side by side only if they were compared).
  */
  method UniqueSort(current: bool, results: seq<Path>, sorted: seq<Path>, hasDuplicate: bool) returns (r: seq<Path>)
    requires multiset(sorted) == multiset(results) && Sorted(current, sorted)
    requires hasDuplicate || forall k :: 0 <= k < |sorted| ==> !Repeats(sorted, k)
    ensures StrictlySorted(current, r)
    ensures forall x :: x in r <==> x in results
  {
    r := sorted;
    if hasDuplicate {
      var duplicates := FindDuplicates(sorted);
      r := SpliceDuplicates(sorted, duplicates);
    } else {
      UniquesPlain(sorted, 0, |sorted|);
      assert sorted == sorted[0..|sorted|] + Uniques(sorted, |sorted|);
    }
    UniquesSorted(current, sorted, 0);
    forall x ensures x in r <==> x in results {
      assert x in results <==> x in multiset(results);
      assert x in sorted <==> x in multiset(sorted);
    }
  }
}
