/**
 The forward :nth-child filter.  It counts siblings, resuming from the position cached on the
 parent by an earlier query of the same run and starting over when the child lies further left.
 What it tests in the end is that the element's index belongs to the series a*n + b.
*/
module NthChild {
  import opened Dom
  import opened DomListing

  /** How many of the first n children are elements. */
  function Count(kids: seq<Tree>, n: nat): nat
    requires n <= |kids|
  {
    if n == 0 then 0 else Count(kids, n - 1) + if kids[n - 1].kind.Element? then 1 else 0
  }

  /** The 1-based position of a child among its parent's element children. */
  function ElementIndex(t: Tree, elem: Path): nat
    requires elem != [] && IsElement(t, elem)
  {
    ChildOfParent(t, elem);
    Count(Siblings(t, elem), Last(elem) + 1)
  }

  /** The children of the parent. */
  function Siblings(t: Tree, elem: Path): seq<Tree>
    requires elem != [] && IsNode(t, Parent(elem))
  {
    Subtree(t, Parent(elem)).kids
  }

  lemma {:induction false} ChildOfParent(t: Tree, elem: Path)
    requires elem != [] && IsElement(t, elem)
    ensures IsNode(t, Parent(elem))
    ensures Last(elem) < |Siblings(t, elem)| && Siblings(t, elem)[Last(elem)].kind.Element?
  {
    if |elem| > 1 {
      ChildOfParent(t.kids[elem[0]], elem[1..]);
      assert Parent(elem)[1..] == Parent(elem[1..]) && Parent(elem)[0] == elem[0];
    } else {
      assert Parent(elem) == [];
    }
  }

  /** Counted on its own terms: how many of the siblings up to the child itself are elements. */
  lemma {:induction false} CountMeans(kids: seq<Tree>, n: nat)
    requires n <= |kids|
    ensures Count(kids, n) == |set k | 0 <= k < n && kids[k].kind.Element?|
  {
    if n > 0 {
      CountMeans(kids, n - 1);
      var before, upTo := set k | 0 <= k < n - 1 && kids[k].kind.Element?, set k | 0 <= k < n && kids[k].kind.Element?;
      assert upTo == before + if kids[n - 1].kind.Element? then {n - 1} else {};
    }
  }

  lemma ElementIndexMeans(t: Tree, elem: Path)
    requires elem != [] && IsElement(t, elem)
    ensures IsNode(t, Parent(elem))
    ensures var kids := Siblings(t, elem);
            Last(elem) < |kids| &&
            ElementIndex(t, elem) == |set k | 0 <= k <= Last(elem) && kids[k].kind.Element?|
  {
    ChildOfParent(t, elem);
    var kids := Siblings(t, elem);
    CountMeans(kids, Last(elem) + 1);
    assert (set k | 0 <= k <= Last(elem) && kids[k].kind.Element?) ==
           set k | 0 <= k < Last(elem) + 1 && kids[k].kind.Element?;
  }

  // ---------------------------------------------------------------- the formula a*n + b

  function Abs(x: int): nat {
    if x < 0 then -x else x
  }

  /** The remainder of truncating division: it takes the sign of x. */
  function Remainder(x: int, y: int): int
    requires y != 0
  {
    var r := Abs(x) % Abs(y);
    if x < 0 then -r else r
  }

  /**
   The final test on the distance from b: the step itself, or a multiple of it in its own direction; no multiple
   of 0 passes.
  */
  predicate PassesFormula(diff: int, first: int) {
    diff == first || (first != 0 && Remainder(diff, first) == 0 && (diff == 0 || (diff > 0) == (first > 0)))
  }

  /** Selectors Level 3, section 6.6.5.2: some n >= 0 gives index = a*n + b. */
  ghost predicate InSeries(index: int, a: int, b: int) {
    exists n: nat :: index == a * n + b
  }

  lemma FormulaIsSeries(index: int, a: int, b: int)
    ensures PassesFormula(index - b, a) <==> InSeries(index, a, b)
  {
    hide PassesFormula;
    if PassesFormula(index - b, a) {
      var n := PassesIsMultiple(index - b, a);
      assert index == a * n + b;
    }
    if n: nat :| index == a * n + b { MultiplePasses(a, n); }
  }

  lemma PassesIsMultiple(d: int, a: int) returns (n: nat)
    requires PassesFormula(d, a)
    ensures d == a * n
  {
    if d == a {
      n := 1;
    } else {
      n := Abs(d) / Abs(a);
      assert Abs(d) == Abs(a) * n;
      SignedProduct(d, a, n);
    }
  }

  lemma MultiplePasses(a: int, n: nat)
    ensures PassesFormula(a * n, a)
  {
    if a != 0 {
      SignOfProduct(a, n);
      MultipleHasNoRemainder(Abs(a), n);
    }
  }

  lemma SignedProduct(d: int, a: int, n: nat)
    requires a != 0 && Abs(d) == Abs(a) * n && (d == 0 || (d > 0) == (a > 0))
    ensures d == a * n
  {
    if a < 0 { assert a * n == -(Abs(a) * n); }
  }

  lemma SignOfProduct(a: int, n: nat)
    requires a != 0
    ensures Abs(a * n) == Abs(a) * n
    ensures a * n == 0 || (a * n > 0) == (a > 0)
  {
    if n > 0 { SignOfProduct(a, n - 1); assert a * n == a * (n - 1) + a; }
  }

  lemma MultipleHasNoRemainder(a: nat, n: nat)
    requires a > 0
    ensures (a * n) % a == 0
  {
    var x := a * n;
    var k, r := n - x / a, x % a;
    assert x == a * (x / a) + r;
    assert a * k == a * n - a * (x / a);
    if k >= 1 { MulAtLeast(a, k); }
    if k <= -1 { MulAtLeast(a, -k); }
  }

  lemma MulAtLeast(a: nat, k: nat)
    requires k >= 1
    ensures a * k >= a
  {
    assert a * k == a + a * (k - 1);
  }

  // ---------------------------------------------------------------- the filter

  /** What is cached on a parent: the run, the position of a child and its element index. */
  datatype Cell = Cell(run: nat, nodeIndex: nat, diff: nat)

  class NthChildFilter {
    var dirruns: nat
    var cells: map<Path, Cell>

    constructor (t: Tree)
      ensures Valid(t)
    {
      dirruns, cells := 0, map[];
    }

    /** A cell of the current run holds a child's position and its element index. */
    ghost predicate Valid(t: Tree)
      reads this
    {
      && (forall p :: p in cells ==> cells[p].run <= dirruns)
      && (forall p :: p in cells && cells[p].run == dirruns ==>
            && IsNode(t, p)
            && var c, kids := cells[p], Subtree(t, p).kids;
               c.nodeIndex < |kids| && c.diff == Count(kids, c.nodeIndex + 1))
    }

    /** A run starts on whatever the tree has become. */
    method NewRun(t: Tree)
      requires exists before :: Valid(before)
      modifies this`dirruns
      ensures Valid(t)
    {
      dirruns := dirruns + 1;
    }

    /** Caches where the child was found. */
    method Store(t: Tree, parent: Path, nodeIndex: nat, diff: nat)
      requires Valid(t) && IsNode(t, parent) && nodeIndex < |Subtree(t, parent).kids|
      requires diff == Count(Subtree(t, parent).kids, nodeIndex + 1)
      modifies this`cells
      ensures Valid(t)
    {
      cells := cells[parent := Cell(dirruns, nodeIndex, diff)];
    }

    /** The seek: the element index of elem, found whatever was queried before in this run. */
    method Seek(t: Tree, elem: Path) returns (diff: nat)
      requires Valid(t) && elem != [] && IsElement(t, elem)
      modifies this`cells
      ensures Valid(t)
      ensures diff == ElementIndex(t, elem)
    {
      ChildOfParent(t, elem);
      var parent, target, kids := Parent(elem), Last(elem), Siblings(t, elem);
      var cached := parent in cells && cells[parent].run == dirruns;
      var nodeIndex: nat := if cached then cells[parent].nodeIndex else 0;
      diff := if nodeIndex != 0 then cells[parent].diff else 0;
      var node: int := if nodeIndex != 0 then nodeIndex else -1;      // -1 for no node
      var start := true;
      hide Subtree, IsNode;
      while true
        invariant -1 <= node < |kids|
        invariant node >= 0 ==> nodeIndex == node && diff == Count(kids, node + 1)
        invariant !start ==> 0 <= node < target
        decreases start, |kids| - node
      {
        nodeIndex := nodeIndex + 1;
        if node >= 0 && node + 1 < |kids| {
          node := node + 1;
        } else {
          diff, nodeIndex := 0, 0;
          node := if start then 0 else -1;
          start := false;
        }
        if node == -1 { break; }
        if kids[node].kind.Element? {
          diff := diff + 1;
          if node == target {
            Store(t, parent, nodeIndex, diff);
            break;
          }
        }
      }
    }

    /** :nth-child(an+b) */
    method Matches(t: Tree, elem: Path, a: int, b: int) returns (r: bool)
      requires Valid(t) && IsElement(t, elem)
      modifies this`cells
      ensures Valid(t)
      ensures r <==> elem != [] && InSeries(ElementIndex(t, elem), a, b)
    {
      if a == 1 && b == 0 {
        if elem != [] { assert ElementIndex(t, elem) == 1 * ElementIndex(t, elem) + 0; }
        return elem != [];
      }
      if elem == [] { return false; }
      var diff := Seek(t, elem);
      FormulaIsSeries(diff, a, b);
      r := PassesFormula(diff - b, a);
    }
  }
}
