/**
 Sizzle's selector compiler and the matchers it builds, trees of closures.
*/
module SizzleMatcher {
  import opened Dom
  import opened Lists

  // The climbs in the matchers memoise their answers in cells kept on the DOM nodes, one cell per node and direction,
  // shared by all combinators.

  type Filter = nat

  /** Expr.relative: the direction climbed, and whether only the closest element counts. */
  datatype Combinator = Combinator(dir: Dir, first: bool)

  datatype Token = Rel(comb: Combinator) | Simple(filter: Filter)

  /** The closures made by matcherFromTokens, addCombinator and elementMatcher. */
  datatype Matcher =
    | InContext
    | Gate(lead: bool, single: Matcher, many: Matcher)
    | Climb(comb: Combinator, base: bool, done: nat, inner: Matcher)
    | All(parts: seq<Matcher>)
    | Test(filter: Filter)

  /**
   What a matcher is run against.  `gated` says that the context is the outermost one, so that
   a selector without a leading combinator has to check it.
  */
  datatype Env = Env(tree: Tree, xml: bool, context: set<Path>, isNode: bool, gated: bool,
                     holds: (Filter, Path) -> bool)

  // ---------------------------------------------------------------- what a matcher means

  predicate Visits(t: Tree, base: bool, dir: Dir, p: Path) {
    IsElement(t, p) || (base && dir.ParentNode?)
  }

  ghost predicate Accepts(e: Env, m: Matcher, p: Path)
    decreases m, 0, 0
  {
    match m
    case InContext => p in e.context
    case Gate(lead, single, many) =>
      (!lead && (e.xml || !e.gated)) || (if e.isNode then Accepts(e, single, p) else Accepts(e, many, p))
    case Climb(c, base, _, inner) =>
      if c.first then Closest(e, base, c.dir, inner, p) else SomeAbove(e, base, c.dir, inner, p)
    case All(parts) => forall i :: 0 <= i < |parts| ==> Accepts(e, parts[i], p)
    case Test(f) => e.holds(f, p)
  }

  /** Some visited node strictly beyond p in direction dir is accepted. */
  ghost predicate SomeAbove(e: Env, base: bool, dir: Dir, inner: Matcher, p: Path)
    decreases inner, 1, 2 * Rank(dir, p)
  {
    match Follow(dir, p)
    case None => false
    case Some(q) => AtOrAbove(e, base, dir, inner, q)
  }

  ghost predicate AtOrAbove(e: Env, base: bool, dir: Dir, inner: Matcher, q: Path)
    decreases inner, 1, 2 * Rank(dir, q) + 1
  {
    (Visits(e.tree, base, dir, q) && Accepts(e, inner, q)) || SomeAbove(e, base, dir, inner, q)
  }

  /** The first visited node beyond p in direction dir exists and is accepted. */
  ghost predicate Closest(e: Env, base: bool, dir: Dir, inner: Matcher, p: Path)
    decreases inner, 1, Rank(dir, p)
  {
    match Follow(dir, p)
    case None => false
    case Some(q) =>
      if Visits(e.tree, base, dir, q) then Accepts(e, inner, q) else Closest(e, base, dir, inner, q)
  }

  // ---------------------------------------------------------------- what a selector means

  /** A complex selector: compounds joined by combinators, possibly led by one. */
  datatype Selector = Selector(lead: Option<Combinator>, parts: seq<seq<Filter>>, rels: seq<Combinator>)

  function Parse(ts: seq<Token>): (s: Selector)
    ensures |s.parts| == |s.rels| + 1
  {
    if ts == [] then Selector(None, [[]], [])
    else
      var s := Parse(ts[..|ts| - 1]);
      match ts[|ts| - 1]
      case Rel(c) => if |ts| == 1 then s.(lead := Some(c)) else WithRel(s, c)
      case Simple(f) => WithSimple(s, f)
  }

  /** q and p have the same parent, and q comes first. */
  predicate Elder(q: Path, p: Path) {
    q != [] && p != [] && Parent(q) == Parent(p) && Last(q) < Last(p)
  }

  /** Selectors Level 3, section 8; `base` lets a non-element context stand as an ancestor. */
  ghost predicate Related(t: Tree, base: bool, c: Combinator, q: Path, p: Path) {
    && Visits(t, base, c.dir, q)
    && match c.dir
       case ParentNode => if c.first then p != [] && q == Parent(p) else Under(q, p)
       case PreviousSibling =>
         Elder(q, p) && (c.first ==> forall z :: Elder(q, z) && Elder(z, p) ==> !IsElement(t, z))
  }

  const DESCENDANT := Combinator(ParentNode, false)

  /** The leftmost compound's node against the context. */
  ghost predicate ContextAllows(e: Env, lead: Option<Combinator>, p: Path) {
    match lead
    case None => e.xml || !e.gated || exists q :: q in e.context && Related(e.tree, true, DESCENDANT, q, p)
    case Some(c) => exists q :: q in e.context && Related(e.tree, true, c, q, p)
  }

  predicate Holds(e: Env, part: seq<Filter>, p: Path) {
    forall i :: 0 <= i < |part| ==> e.holds(part[i], p)
  }

  ghost predicate Node(e: Env, s: Selector, ns: seq<Path>, i: nat)
    requires i < |ns| == |s.parts|
  {
    IsElement(e.tree, ns[i]) && Holds(e, s.parts[i], ns[i])
  }

  ghost predicate Link(e: Env, s: Selector, ns: seq<Path>, i: nat)
    requires i < |s.rels| && |ns| == |s.rels| + 1
  {
    Related(e.tree, false, s.rels[i], ns[i], ns[i + 1])
  }

  /** ns assigns an element to every compound of s, right by the combinators and the context. */
  ghost predicate Assigns(e: Env, s: Selector, ns: seq<Path>) {
    && |ns| == |s.parts| == |s.rels| + 1
    && (forall i :: 0 <= i < |ns| ==> Node(e, s, ns, i))
    && (forall i :: 0 <= i < |s.rels| ==> Link(e, s, ns, i))
    && ContextAllows(e, s.lead, ns[0])
  }

  ghost predicate Selects(e: Env, s: Selector, p: Path) {
    exists ns :: Assigns(e, s, ns) && ns[|ns| - 1] == p
  }

  // ---------------------------------------------------------------- the compiler's output

  function ElementMatcher(ms: seq<Matcher>): Matcher
    requires ms != []
  {
    if |ms| > 1 then All(ms) else ms[0]
  }

  /** The first entry of `matchers`, made with the two context climbs. */
  function GateOf(lead: Option<Combinator>, done: nat): Matcher {
    var implicit := if lead.Some? then lead.value else DESCENDANT;
    Gate(lead.Some?, Climb(implicit, true, done, InContext), Climb(implicit, true, done + 1, InContext))
  }

  /** How many closures addCombinator has named once ts has been read. */
  function Named(ts: seq<Token>): nat {
    if ts == [] then 2
    else Named(ts[..|ts| - 1]) + (if |ts| > 1 && ts[|ts| - 1].Rel? then 1 else 0)
  }

  /** `matchers` once ts has been read, numbering the climbs from done. */
  function Matchers(ts: seq<Token>, done: nat): (ms: seq<Matcher>)
    requires ts != []
    ensures ms != []
  {
    var last := ts[|ts| - 1];
    if |ts| == 1 then
      if last.Rel? then [GateOf(Some(last.comb), done)] else [GateOf(None, done), Test(last.filter)]
    else
      var ms := Matchers(ts[..|ts| - 1], done);
      if last.Rel? then [Climb(last.comb, false, done + Named(ts[..|ts| - 1]), ElementMatcher(ms))]
      else ms + [Test(last.filter)]
  }

  // ---------------------------------------------------------------- compilation preserves meaning

  lemma {:induction false} AboveIsRelated(e: Env, base: bool, dir: Dir, inner: Matcher, p: Path)
    ensures SomeAbove(e, base, dir, inner, p) <==>
            exists q :: Related(e.tree, base, Combinator(dir, false), q, p) && Accepts(e, inner, q)
    decreases Rank(dir, p)
  {
    var c := Combinator(dir, false);
    match Follow(dir, p) {
      case None =>
      case Some(n) =>
        AboveIsRelated(e, base, dir, inner, n);
        forall q ensures Related(e.tree, base, c, q, p) <==>
                         (q == n && Visits(e.tree, base, dir, q)) || Related(e.tree, base, c, q, n)
        {
          if dir.ParentNode? {
            if Under(q, p) && q != n { assert n[..|q|] == p[..|q|]; }
            if Under(q, n) { assert n[..|q|] == p[..|q|]; }
          } else if Elder(q, p) && Last(q) == Last(n) {
            assert q == Parent(q) + [Last(q)];
          }
        }
    }
  }

  lemma {:induction false} ClosestIsRelated(e: Env, base: bool, dir: Dir, inner: Matcher, p: Path)
    requires WellFormed(e.tree) && IsNode(e.tree, p)
    ensures Closest(e, base, dir, inner, p) <==>
            exists q :: Related(e.tree, base, Combinator(dir, true), q, p) && Accepts(e, inner, q)
    decreases Rank(dir, p)
  {
    var c := Combinator(dir, true);
    match Follow(dir, p) {
      case None =>
      case Some(n) =>
        if dir.ParentNode? {
          if |p| > 1 { InnerNodeIsElement(e.tree, p, |p| - 1); }
          assert n == Parent(p) && Related(e.tree, base, c, n, p) <==> Visits(e.tree, base, dir, n);
          if |p| == 1 { assert Follow(dir, n) == None; }
        } else {
          ElderIsNode(e.tree, n, p);
          ClosestIsRelated(e, base, dir, inner, n);
          NextOlder(e.tree, base, n, n, p);
          forall q ensures Related(e.tree, base, c, q, p) <==>
                           if IsElement(e.tree, n) then q == n else Related(e.tree, base, c, q, n)
          {
            NextOlder(e.tree, base, q, n, p);
          }
        }
    }
  }

  const ADJACENT := Combinator(PreviousSibling, true)

  lemma NextOlder(t: Tree, base: bool, q: Path, n: Path, p: Path)
    requires Follow(PreviousSibling, p) == Some(n)
    ensures Related(t, base, ADJACENT, q, p) <==> if IsElement(t, n) then q == n else Related(t, base, ADJACENT, q, n)
  {
    assert Elder(n, p);
    if Elder(q, p) {
      assert q == Parent(q) + [Last(q)];
      assert q == n || Elder(q, n);
    }
    forall z | Elder(q, z) && Elder(z, p) ensures z == n || Elder(z, n) {
      assert z == Parent(z) + [Last(z)];
    }
  }

  lemma {:induction false} ElderIsNode(t: Tree, q: Path, p: Path)
    requires IsNode(t, p) && Elder(q, p)
    ensures IsNode(t, q)
  {
    if |p| > 1 {
      assert q[0] == Parent(q)[0] == Parent(p)[0] == p[0];
      assert Parent(q[1..]) == Parent(q)[1..] && Parent(p[1..]) == Parent(p)[1..];
      ElderIsNode(t.kids[p[0]], q[1..], p[1..]);
    }
  }

  lemma ClimbIsRelated(e: Env, c: Combinator, base: bool, done: nat, inner: Matcher, p: Path)
    requires WellFormed(e.tree) && IsNode(e.tree, p)
    ensures Accepts(e, Climb(c, base, done, inner), p) <==>
            exists q :: Related(e.tree, base, c, q, p) && Accepts(e, inner, q)
  {
    assert c == Combinator(c.dir, c.first);
    if c.first { ClosestIsRelated(e, base, c.dir, inner, p); } else { AboveIsRelated(e, base, c.dir, inner, p); }
  }

  lemma GateChecksContext(e: Env, lead: Option<Combinator>, done: nat, p: Path)
    requires WellFormed(e.tree) && IsNode(e.tree, p)
    ensures Accepts(e, GateOf(lead, done), p) <==> ContextAllows(e, lead, p)
  {
    var c := if lead.Some? then lead.value else DESCENDANT;
    ClimbIsRelated(e, c, true, done, InContext, p);
    ClimbIsRelated(e, c, true, done + 1, InContext, p);
    var g := GateOf(lead, done);
    assert Accepts(e, g.single, p) <==> exists q :: q in e.context && Related(e.tree, true, c, q, p);
    assert Accepts(e, g.many, p) <==> exists q :: q in e.context && Related(e.tree, true, c, q, p);
  }

  /** On paths: p is a child of q, lies below it, is the next element sibling or a later one. */
  ghost predicate Stands(t: Tree, c: Combinator, q: Path, p: Path) {
    match c
    case Combinator(ParentNode, first) => |q| < |p| && p[..|q|] == q && (first ==> |q| + 1 == |p|)
    case Combinator(PreviousSibling, first) =>
      && IsElement(t, q) && q != [] && |q| == |p| && q[..|q| - 1] == p[..|p| - 1] && Last(q) < Last(p)
      && (first ==> forall k :: Last(q) < k < Last(p) ==> !IsElement(t, p[..|p| - 1] + [k]))
  }

  lemma RelatedMeans(t: Tree, base: bool, c: Combinator, q: Path, p: Path)
    requires WellFormed(t) && IsNode(t, q) && IsElement(t, p) && (base || IsElement(t, q))
    ensures Related(t, base, c, q, p) <==> Stands(t, c, q, p)
  {
    hide WellFormed, IsNode;
    if c.dir.ParentNode? { BelowMeans(t, base, c.first, q, p); } else { BesideMeans(t, base, c.first, q, p); }
    assert c == Combinator(c.dir, c.first);
  }

  lemma BelowMeans(t: Tree, base: bool, first: bool, q: Path, p: Path)
    requires WellFormed(t) && IsElement(t, p) && (base || IsElement(t, q))
    ensures Related(t, base, Combinator(ParentNode, first), q, p) <==>
            Stands(t, Combinator(ParentNode, first), q, p)
  {
    ElementIsNode(t, p);
    if |q| < |p| && p[..|q|] == q { ParentIsVisited(t, p, |q|); }
    assert |q| + 1 == |p| ==> Parent(p) == p[..|q|];
    hide WellFormed, IsNode;
  }

  lemma BesideMeans(t: Tree, base: bool, first: bool, q: Path, p: Path)
    requires IsElement(t, p)
    ensures Related(t, base, Combinator(PreviousSibling, first), q, p) <==>
            Stands(t, Combinator(PreviousSibling, first), q, p)
  {
    hide WellFormed, IsNode, IsElement;
    if Elder(q, p) {
      forall z | Elder(q, z) && Elder(z, p) ensures z == p[..|p| - 1] + [Last(z)] {}
      forall k | Last(q) < k < Last(p)
        ensures var z := p[..|p| - 1] + [k]; Elder(q, z) && Elder(z, p) && Last(z) == k
      {
        assert Parent(p[..|p| - 1] + [k]) == Parent(p);
      }
    }
  }

  /**
   Where the leftmost compound may stand: from any node of the document, be it an element, the document or a fragment,
   a leading > or descendant combinator leads to its element children or to all elements below it, + and ~ lead from an
   element to its siblings.  Without one it lies below the context, where that is checked.
  */
  lemma LeadMeans(e: Env, lead: Option<Combinator>, q: Path, p: Path)
    requires WellFormed(e.tree) && IsNode(e.tree, q) && IsElement(e.tree, p) && e.context == {q}
    ensures ContextAllows(e, lead, p) <==>
            match lead
            case None => e.xml || !e.gated || (|q| < |p| && p[..|q|] == q)
            case Some(c) => Stands(e.tree, c, q, p)
  {
    RelatedMeans(e.tree, true, if lead.Some? then lead.value else DESCENDANT, q, p);
    hide Related, Stands;
    assert q in e.context;
  }

  lemma ParentIsVisited(t: Tree, p: Path, n: nat)
    requires WellFormed(t) && IsNode(t, p) && n < |p|
    ensures n > 0 ==> IsElement(t, p[..n])
    ensures Visits(t, true, ParentNode, p[..n])
  {
    if n > 0 { InnerNodeIsElement(t, p, n); }
  }

  lemma SelectsSimple(e: Env, s: Selector, f: Filter, p: Path)
    requires |s.parts| == |s.rels| + 1
    ensures Selects(e, WithSimple(s, f), p) <==> Selects(e, s, p) && e.holds(f, p)
  {
    var k, s' := |s.parts| - 1, WithSimple(s, f);
    forall ns | |ns| == |s.parts| && ns[k] == p
      ensures Assigns(e, s', ns) <==> Assigns(e, s, ns) && e.holds(f, p)
    {
      assert Node(e, s', ns, k) <==> Node(e, s, ns, k) && e.holds(f, p) by {
        assert s'.parts[k][|s.parts[k]|] == f;
        forall i | 0 <= i < |s.parts[k]| ensures s'.parts[k][i] == s.parts[k][i] {}
      }
      forall i | 0 <= i < k ensures Node(e, s', ns, i) <==> Node(e, s, ns, i) {}
      forall i | 0 <= i < k ensures Link(e, s', ns, i) <==> Link(e, s, ns, i) {}
    }
  }

  lemma SelectsRel(e: Env, s: Selector, c: Combinator, p: Path)
    requires |s.parts| == |s.rels| + 1 && IsElement(e.tree, p)
    ensures Selects(e, WithRel(s, c), p) <==>
            exists q :: Related(e.tree, false, c, q, p) && Selects(e, s, q)
  {
    if Selects(e, WithRel(s, c), p) {
      var ns :| Assigns(e, WithRel(s, c), ns) && ns[|ns| - 1] == p;
      assert ns == ns[..|ns| - 1] + [p];
      AssignsRel(e, s, c, ns[..|ns| - 1], p);
      assert Related(e.tree, false, c, ns[|ns| - 2], p) && Selects(e, s, ns[|ns| - 2]);
    }
    if q :| Related(e.tree, false, c, q, p) && Selects(e, s, q) {
      var ns :| Assigns(e, s, ns) && ns[|ns| - 1] == q;
      AssignsRel(e, s, c, ns, p);
      assert (ns + [p])[|ns|] == p;
    }
  }

  function WithSimple(s: Selector, f: Filter): Selector
    requires s.parts != []
  {
    var k := |s.parts| - 1;
    s.(parts := s.parts[k := s.parts[k] + [f]])
  }

  function WithRel(s: Selector, c: Combinator): Selector {
    s.(parts := s.parts + [[]], rels := s.rels + [c])
  }

  lemma AssignsRel(e: Env, s: Selector, c: Combinator, ns: seq<Path>, p: Path)
    requires |s.parts| == |s.rels| + 1 == |ns| && IsElement(e.tree, p)
    ensures Assigns(e, WithRel(s, c), ns + [p]) <==>
            Assigns(e, s, ns) && Related(e.tree, false, c, ns[|ns| - 1], p)
  {
    var s', ns', k := WithRel(s, c), ns + [p], |s.rels|;
    forall i | 0 <= i < |ns| ensures Node(e, s', ns', i) <==> Node(e, s, ns, i) {}
    forall i | 0 <= i < k ensures Link(e, s', ns', i) <==> Link(e, s, ns, i) {}
    assert Node(e, s', ns', |ns|);
    assert Link(e, s', ns', k) <==> Related(e.tree, false, c, ns[k], p);
  }

  /** An element is accepted exactly when the compounds can be assigned nodes ending at it. */
  lemma {:induction false} CompilationPreservesMeaning(e: Env, ts: seq<Token>, done: nat, p: Path)
    requires ts != [] && WellFormed(e.tree) && IsElement(e.tree, p)
    ensures Accepts(e, ElementMatcher(Matchers(ts, done)), p) <==> Selects(e, Parse(ts), p)
    decreases |ts|
  {
    var init, last := ts[..|ts| - 1], ts[|ts| - 1];
    if |ts| == 1 {
      assert ts == [last];
      MeaningOfFirst(e, last, done, p);
    } else if last.Rel? {
      forall q | IsElement(e.tree, q)
        ensures Accepts(e, ElementMatcher(Matchers(init, done)), q) <==> Selects(e, Parse(init), q)
      {
        CompilationPreservesMeaning(e, init, done, q);
      }
      MeaningOfRel(e, ts, done, p);
    } else {
      CompilationPreservesMeaning(e, init, done, p);
      MeaningOfSimple(e, ts, done, p);
    }
  }

  lemma MeaningOfSimple(e: Env, ts: seq<Token>, done: nat, p: Path)
    requires |ts| > 1 && ts[|ts| - 1].Simple?
    requires Accepts(e, ElementMatcher(Matchers(ts[..|ts| - 1], done)), p) <==> Selects(e, Parse(ts[..|ts| - 1]), p)
    ensures Accepts(e, ElementMatcher(Matchers(ts, done)), p) <==> Selects(e, Parse(ts), p)
  {
    var f, ms := ts[|ts| - 1].filter, Matchers(ts[..|ts| - 1], done);
    assert (ms + [Test(f)])[|ms|] == Test(f);
    forall i | 0 <= i < |ms| ensures (ms + [Test(f)])[i] == ms[i] {}
    SelectsSimple(e, Parse(ts[..|ts| - 1]), f, p);
  }

  lemma MeaningOfRel(e: Env, ts: seq<Token>, done: nat, p: Path)
    requires |ts| > 1 && ts[|ts| - 1].Rel? && WellFormed(e.tree) && IsElement(e.tree, p)
    requires forall q | IsElement(e.tree, q) ::
               Accepts(e, ElementMatcher(Matchers(ts[..|ts| - 1], done)), q) <==> Selects(e, Parse(ts[..|ts| - 1]), q)
    ensures Accepts(e, ElementMatcher(Matchers(ts, done)), p) <==> Selects(e, Parse(ts), p)
  {
    ElementIsNode(e.tree, p);
    var c, init := ts[|ts| - 1].comb, ts[..|ts| - 1];
    var inner := ElementMatcher(Matchers(init, done));
    ClimbIsRelated(e, c, false, done + Named(init), inner, p);
    SelectsRel(e, Parse(init), c, p);
    assert forall q :: Related(e.tree, false, c, q, p) ==> IsElement(e.tree, q);
  }

  lemma MeaningOfFirst(e: Env, t: Token, done: nat, p: Path)
    requires WellFormed(e.tree) && IsElement(e.tree, p)
    ensures Accepts(e, ElementMatcher(Matchers([t], done)), p) <==> Selects(e, Parse([t]), p)
  {
    ElementIsNode(e.tree, p);
    var lead := if t.Rel? then Some(t.comb) else None;
    GateChecksContext(e, lead, done, p);
    var s := Selector(lead, [[]], []);
    assert Selects(e, s, p) <==> ContextAllows(e, lead, p) by {
      if ContextAllows(e, lead, p) { assert Assigns(e, s, [p]); }
    }
    assert [t][..0] == [];
    if t.Simple? {
      assert Parse([t]) == WithSimple(s, t.filter);
      SelectsSimple(e, s, t.filter, p);
      var ms := Matchers([t], done);
      assert ms[0] == GateOf(None, done) && ms[1] == Test(t.filter);
    }
  }
}
