/**
 Listings of a tree by depth-first traversal, and the order they come in: every node, or element,
 below a path once, in document order.  The selector engine's candidates and the elements a lookup
 returns are the members of such a listing that pass a test, and a sorted result is compared with
 the order of one, so the facts here are about a listing's members, their order and the listing of
 a subtree.
*/
module DomListing {
  import opened Dom
  import opened Lists

  /** The nodes at or below `at`, the root of t: all of them, or the elements only. */
  function Listing(t: Tree, at: Path, all: bool): seq<Path>
    decreases t, 1, 0
  {
    (if all || t.kind.Element? then [at] else []) + Offspring(t, at, 0, all)
  }

  /** The nodes below `at`, from the i-th child on. */
  function Offspring(t: Tree, at: Path, i: nat, all: bool): seq<Path>
    requires i <= |t.kids|
    decreases t, 0, |t.kids| - i
  {
    if i == |t.kids| then [] else Listing(t.kids[i], at + [i], all) + Offspring(t, at, i + 1, all)
  }

  function Subtree(t: Tree, p: Path): Tree
    requires IsNode(t, p)
  {
    if p == [] then t else Subtree(t.kids[p[0]], p[1..])
  }

  /** All elements below a node, in document order. */
  function Elements(t: Tree, p: Path): seq<Path>
    requires IsNode(t, p)
  {
    Offspring(Subtree(t, p), p, 0, false)
  }

  predicate Listed(t: Tree, p: Path, all: bool) {
    if all then IsNode(t, p) else IsElement(t, p)
  }

  /** x is at or below a. */
  predicate Within(a: Path, x: Path) {
    |a| <= |x| && a == x[..|a|]
  }

  // ---------------------------------------------------------------- what is listed

  lemma {:induction false} ListingWithin(t: Tree, at: Path, all: bool, x: Path)
    ensures x in Listing(t, at, all) <==> Within(at, x) && Listed(t, x[|at|..], all)
    decreases t, 1, 0
  {
    OffspringUnder(t, at, 0, all, x);
    if Within(at, x) && x[|at|..] == [] { assert x == at; }
  }

  lemma {:induction false} OffspringUnder(t: Tree, at: Path, i: nat, all: bool, x: Path)
    requires i <= |t.kids|
    ensures x in Offspring(t, at, i, all) <==> Under(at, x) && x[|at|] >= i && Listed(t, x[|at|..], all)
    decreases t, 0, |t.kids| - i
  {
    if i < |t.kids| {
      OffspringUnder(t, at, i + 1, all, x);
      ListingWithin(t.kids[i], at + [i], all, x);
      assert Within(at + [i], x) <==> Under(at, x) && x[|at|] == i by {
        if Within(at + [i], x) { assert x[..|at|] == (at + [i])[..|at|] == at && x[|at|] == (at + [i])[|at|]; }
        if Under(at, x) && x[|at|] == i { assert x[..|at| + 1] == at + [i]; }
      }
      assert Under(at, x) ==> x[|at|..][1..] == x[|at| + 1..];
    }
  }

  // ---------------------------------------------------------------- in which order

  /** Preorder: an ancestor before its descendants, an elder sibling's subtree before the younger's. */
  predicate Precedes(p: Path, q: Path) {
    q != [] && (p == [] || p[0] < q[0] || (p[0] == q[0] && Precedes(p[1..], q[1..])))
  }

  lemma {:induction false} PrecedesUnder(at: Path, a: Path, b: Path)
    ensures Precedes(at + a, at + b) <==> Precedes(a, b)
  {
    if at == [] {
      assert at + a == a && at + b == b;
    } else {
      PrecedesUnder(at[1..], a, b);
      assert (at + a)[1..] == at[1..] + a && (at + b)[1..] == at[1..] + b;
    }
  }

  lemma {:induction false} PrecedesIrreflexive(p: Path)
    ensures !Precedes(p, p)
  {
    if p != [] { PrecedesIrreflexive(p[1..]); }
  }

  lemma {:induction false} PrecedesTotal(p: Path, q: Path)
    requires p != q
    ensures Precedes(p, q) <==> !Precedes(q, p)
  {
    if p != [] && q != [] && p[0] == q[0] {
      assert p == [p[0]] + p[1..] && q == [q[0]] + q[1..];
      PrecedesTotal(p[1..], q[1..]);
    }
  }

  lemma {:induction false} PrecedesTransitive(p: Path, q: Path, r: Path)
    requires Precedes(p, q) && Precedes(q, r)
    ensures Precedes(p, r)
  {
    if p != [] && p[0] == q[0] == r[0] { PrecedesTransitive(p[1..], q[1..], r[1..]); }
  }

  ghost predicate Ascending(s: seq<Path>) {
    forall i, j :: 0 <= i < j < |s| ==> Precedes(s[i], s[j])
  }

  lemma AscendingAppend(s: seq<Path>, s': seq<Path>)
    requires Ascending(s) && Ascending(s')
    requires forall x, y :: x in s && y in s' ==> Precedes(x, y)
    ensures Ascending(s + s')
  {
  }

  lemma {:induction false} ListingAscends(t: Tree, at: Path, all: bool)
    ensures Ascending(Listing(t, at, all))
    decreases t, 1, 0
  {
    OffspringAscends(t, at, 0, all);
    var head := if all || t.kind.Element? then [at] else [];
    forall x, y | x in head && y in Offspring(t, at, 0, all) ensures Precedes(x, y) {
      OffspringUnder(t, at, 0, all, y);
      PrecedesUnder(at, [], y[|at|..]);
      assert at + [] == at && at + y[|at|..] == y;
    }
    AscendingAppend(head, Offspring(t, at, 0, all));
  }

  lemma {:induction false} OffspringAscends(t: Tree, at: Path, i: nat, all: bool)
    requires i <= |t.kids|
    ensures Ascending(Offspring(t, at, i, all))
    decreases t, 0, |t.kids| - i
  {
    if i < |t.kids| {
      ListingAscends(t.kids[i], at + [i], all);
      OffspringAscends(t, at, i + 1, all);
      forall x, y | x in Listing(t.kids[i], at + [i], all) && y in Offspring(t, at, i + 1, all) ensures Precedes(x, y) {
        ListingWithin(t.kids[i], at + [i], all, x);
        OffspringUnder(t, at, i + 1, all, y);
        assert x[..|at|] == (at + [i])[..|at|] == at && x[|at|] == (at + [i])[|at|];
        PrecedesUnder(at, x[|at|..], y[|at|..]);
        assert at + x[|at|..] == x && at + y[|at|..] == y;
      }
      AscendingAppend(Listing(t.kids[i], at + [i], all), Offspring(t, at, i + 1, all));
    }
  }

  // ---------------------------------------------------------------- a node's own listing within its tree's

  lemma {:induction false} KeptAll<T>(s: seq<T>, f: T -> bool, v: bool)
    requires forall x :: x in s ==> f(x) == v
    ensures Kept(s, f) == if v then s else []
  {
    if s != [] {
      KeptAll(s[..|s| - 1], f, v);
      assert s == s[..|s| - 1] + [s[|s| - 1]];
    }
  }

  function Below(a: Path): Path -> bool {
    x => Under(a, x)
  }

  lemma NoneBelow(kid: Tree, at: Path, i: nat, rest: Path)
    requires rest != [] && rest[0] != i
    ensures Kept(Listing(kid, at + [i], false), Below(at + rest)) == []
  {
    var at' := at + [i];
    forall x | x in Listing(kid, at', false) ensures !Under(at + rest, x) {
      ListingWithin(kid, at', false, x);
      assert x[|at|] == x[..|at'|][|at|] == i;
    }
    KeptAll(Listing(kid, at', false), Below(at + rest), false);
  }

  lemma HeadNotBelow(kid: Tree, at: Path, rest: Path)
    ensures Kept(Listing(kid, at, false), Below(at + rest)) == Kept(Offspring(kid, at, 0, false), Below(at + rest))
  {
    var head := if kid.kind.Element? then [at] else [];
    KeptAppend(head, Offspring(kid, at, 0, false), Below(at + rest));
    KeptAll(head, Below(at + rest), false);
  }

  lemma {:induction false} OffspringKept(t: Tree, at: Path, i: nat, rest: Path)
    requires i <= |t.kids| && IsNode(t, rest)
    ensures Kept(Offspring(t, at, i, false), Below(at + rest)) ==
            if rest == [] then Offspring(t, at, i, false)
            else if i <= rest[0] then Offspring(Subtree(t, rest), at + rest, 0, false) else []
    decreases t, |t.kids| - i
  {
    hide Kept, Listing, Offspring, Subtree, Below;
    if rest == [] {
      AllBelow(t, at, i);
      assert at + rest == at;
    } else if i == |t.kids| {
      NoOffspring(t, at, rest);
    } else {
      KeptAppend(Listing(t.kids[i], at + [i], false), Offspring(t, at, i + 1, false), Below(at + rest));
      OffspringStep(t, at, i);
      OffspringKept(t, at, i + 1, rest);
      if rest[0] != i {
        NoneBelow(t.kids[i], at, i, rest);
      } else {
        OffspringKept(t.kids[i], at + [i], 0, rest[1..]);
        KidKept(t, at, rest);
      }
    }
  }

  lemma AllBelow(t: Tree, at: Path, i: nat)
    requires i <= |t.kids|
    ensures Kept(Offspring(t, at, i, false), Below(at)) == Offspring(t, at, i, false)
  {
    forall x | x in Offspring(t, at, i, false) ensures Under(at, x) { OffspringUnder(t, at, i, false, x); }
    KeptAll(Offspring(t, at, i, false), Below(at), true);
  }

  lemma NoOffspring(t: Tree, at: Path, rest: Path)
    ensures Kept(Offspring(t, at, |t.kids|, false), Below(at + rest)) == []
  {
  }

  lemma OffspringStep(t: Tree, at: Path, i: nat)
    requires i < |t.kids|
    ensures Offspring(t, at, i, false) == Listing(t.kids[i], at + [i], false) + Offspring(t, at, i + 1, false)
  {
  }

  /** What the child on the way to rest keeps is what its own offspring keep. */
  lemma KidKept(t: Tree, at: Path, rest: Path)
    requires rest != [] && IsNode(t, rest)
    requires Kept(Offspring(t.kids[rest[0]], at + [rest[0]], 0, false), Below(at + [rest[0]] + rest[1..])) ==
             if rest[1..] == [] then Offspring(t.kids[rest[0]], at + [rest[0]], 0, false)
             else Offspring(Subtree(t.kids[rest[0]], rest[1..]), at + [rest[0]] + rest[1..], 0, false)
    ensures Kept(Listing(t.kids[rest[0]], at + [rest[0]], false), Below(at + rest)) ==
            Offspring(Subtree(t, rest), at + rest, 0, false)
  {
    assert rest[0] < |t.kids| && IsNode(t.kids[rest[0]], rest[1..]);
    hide *;
    StepDown(at, rest);
    HeadNotBelow(t.kids[rest[0]], at + [rest[0]], rest[1..]);
    SubtreeListing(t, at, rest);
  }

  lemma StepDown(at: Path, rest: Path)
    requires rest != []
    ensures at + [rest[0]] + rest[1..] == at + rest && (rest[1..] == [] ==> at + [rest[0]] == at + rest)
  {
  }

  lemma {:induction false} SubtreeListing(t: Tree, at: Path, rest: Path)
    requires rest != [] && IsNode(t, rest)
    ensures Offspring(Subtree(t, rest), at + rest, 0, false) ==
            if rest[1..] == [] then Offspring(t.kids[rest[0]], at + [rest[0]], 0, false)
            else Offspring(Subtree(t.kids[rest[0]], rest[1..]), at + [rest[0]] + rest[1..], 0, false)
  {
    StepDown(at, rest);
  }

  /** The elements below p are, in order, those of the whole tree's listing that lie below p. */
  lemma {:induction false} ElementsKept(t: Tree, p: Path)
    requires IsNode(t, p)
    ensures Elements(t, p) == Kept(Elements(t, []), Below(p))
    ensures forall x :: x in Elements(t, p) <==> Under(p, x) && IsElement(t, x)
  {
    assert [] + p == p;
    OffspringKept(t, [], 0, p);
    forall x ensures x in Elements(t, p) <==> Under(p, x) && IsElement(t, x) {
      KeptIn(Elements(t, []), Below(p), x);
      OffspringUnder(t, [], 0, false, x);
      assert x[0..] == x;
    }
  }
}
