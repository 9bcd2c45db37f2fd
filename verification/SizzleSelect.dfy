/**
 Sizzle's select: the ID-context shortcut and the seed set, against testing every candidate
 with the full selector.
*/
module SizzleSelect {
  import opened Dom
  import opened Lists
  import opened DomListing
  import opened SizzleMatcher
  import opened SizzleEngine

  datatype Find = ById | ByTag | ByClass | NoFind

  /** What select reads off a simple selector: its Expr.find entry and two tests on its text. */
  datatype Lexicon = Lexicon(find: Filter -> Find, hasSiblingChar: Filter -> bool, needsContext: Filter -> bool)

  /**
   A document: which elements each filter's matcher accepts, and which ones the lookup for the same token
   fetches.  The two are written apart in Sizzle, and differ: getElementsByTagName minds the case of names
   where the TAG filter does not, getElementsByClassName may ignore case where the CLASS filter does not.
   fragmentIds says whether fragments have getElementById, as they do in all but old browsers.
  */
  datatype Page = Page(tree: Tree, xml: bool, lex: Lexicon, holds: (Filter, Path) -> bool,
                       fetched: (Filter, Path) -> bool, fragmentIds: bool)

  /** In HTML, where ids are looked up: the lookup and the filter compare them alike, and no two elements share one. */
  ghost predicate UniqueIds(d: Page) {
    !d.xml ==>
      (forall f, p | d.lex.find(f) == ById && IsElement(d.tree, p) :: d.fetched(f, p) == d.holds(f, p)) &&
      forall f, p, q | d.lex.find(f) == ById && IsElement(d.tree, p) && IsElement(d.tree, q) ::
        d.holds(f, p) && d.holds(f, q) ==> p == q
  }

  /** Whatever can be looked up is fetched exactly where its filter holds. */
  ghost predicate LookupsAgree(d: Page) {
    forall f, p | d.lex.find(f) != NoFind && IsElement(d.tree, p) :: d.fetched(f, p) == d.holds(f, p)
  }

  // ---------------------------------------------------------------- select

  /** Whether the node at p is the document. */
  predicate IsDocument(t: Tree, p: Path) {
    p == [] && t.kind.Document?
  }

  /** There is a parent that elements can be looked up in (a fragment is none). */
  predicate HasSearchableParent(t: Tree, p: Path) {
    p != [] && !(|p| == 1 && t.kind.Fragment?)
  }

  /** The outermost-context test is skipped exactly for the document. */
  function EnvOf(d: Page, context: Path): Env {
    Env(d.tree, d.xml, {context}, true, !IsDocument(d.tree, context), d.holds)
  }

  /** A plus or tilde anywhere in the text, in a combinator or not. */
  predicate HasSibling(d: Page, ts: seq<Token>) {
    exists i :: 0 <= i < |ts| &&
                match ts[i] case Rel(c) => c.dir == PreviousSibling case Simple(f) => d.lex.hasSiblingChar(f)
  }

  /** A leading combinator other than descendant, or a pseudo that counts positions: no seed is fetched. */
  predicate NeedsContext(d: Page, ts: seq<Token>) {
    || (ts != [] && ts[0].Rel? && ts[0].comb != DESCENDANT)
    || exists i :: 0 <= i < |ts| && ts[i].Simple? && d.lex.needsContext(ts[i].filter)
  }

  /** The node whose elements are the candidates when there is no seed. */
  function Outermost(d: Page, ts: seq<Token>, context: Path): Path {
    if HasSibling(d, ts) && HasSearchableParent(d.tree, context) then Parent(context) else context
  }

  /** The full selector asked of every candidate. */
  ghost function Query(d: Page, ts: seq<Token>, context: Path): seq<Path>
    requires IsNode(d.tree, context) && IsNode(d.tree, Outermost(d, ts, context))
  {
    Kept(Elements(d.tree, Outermost(d, ts, context)), Chosen(d, ts, context))
  }

  ghost function Chosen(d: Page, ts: seq<Token>, context: Path): Path -> bool {
    p => Selects(EnvOf(d, context), Parse(ts), p)
  }

  function Fetched(d: Page, f: Filter): Path -> bool {
    p => d.fetched(f, p)
  }

  predicate Searchable(t: Tree, p: Path) {
    IsNode(t, p) && (IsElement(t, p) || p == [])
  }

  /** Whether the node has getElementById. */
  predicate HasIds(d: Page, context: Path) {
    IsDocument(d.tree, context) || (context == [] && d.tree.kind.Fragment? && d.fragmentIds)
  }

  /** What is looked up for a token: nothing where the node cannot look it up, nor in XML but for tags. */
  function Found(d: Page, f: Filter, context: Path): Option<seq<Path>>
    requires IsNode(d.tree, context)
  {
    var all := Kept(Elements(d.tree, context), Fetched(d, f));
    match d.lex.find(f)
    case NoFind => None
    case ById => if HasIds(d, context) && !d.xml then Some(if all == [] then [] else all[..1]) else None
    case ByTag => Some(all)
    case ByClass => if (IsElement(d.tree, context) || IsDocument(d.tree, context)) && !d.xml then Some(all) else None
  }

  // ---------------------------------------------------------------- where matches can lie

  lemma {:induction false} ChainStaysUnder(e: Env, s: Selector, ns: seq<Path>, r: Path, k: nat)
    requires Assigns(e, s, ns) && Under(r, ns[0]) && k < |ns|
    ensures Under(r, ns[k])
  {
    if k > 0 {
      ChainStaysUnder(e, s, ns, r, k - 1);
      assert Link(e, s, ns, k - 1);
    }
  }

  /**
   Everything a selector selects lies below its outermost node, and below the context unless it leads with a
   sibling combinator.
  */
  lemma {:induction false} SelectedLiesUnder(d: Page, ts: seq<Token>, context: Path, p: Path)
    requires ts != [] && Searchable(d.tree, context) && (d.xml ==> ts[0].Rel?)
    requires Selects(EnvOf(d, context), Parse(ts), p)
    ensures var lead := Parse(ts).lead;
            if lead.Some? && lead.value.dir.PreviousSibling? then context != [] && Under(Parent(context), p)
            else Under(context, p)
  {
    var e, s := EnvOf(d, context), Parse(ts);
    LeadIsFirst(ts);
    var ns :| Assigns(e, s, ns) && ns[|ns| - 1] == p;
    assert Node(e, s, ns, 0);
    if s.lead.Some? && s.lead.value.dir.PreviousSibling? {
      assert Elder(context, ns[0]);
      ChainStaysUnder(e, s, ns, Parent(context), |ns| - 1);
    } else {
      assert Under(context, ns[0]);
      ChainStaysUnder(e, s, ns, context, |ns| - 1);
    }
  }

  lemma {:induction false} LeadIsFirst(ts: seq<Token>)
    requires ts != []
    ensures Parse(ts).lead == if ts[0].Rel? then Some(ts[0].comb) else None
  {
    if |ts| == 1 {
      assert ts[..0] == [];
    } else {
      LeadIsFirst(ts[..|ts| - 1]);
    }
  }

  // ---------------------------------------------------------------- the ID-context shortcut

  function WithFirst(s: Selector, f: Filter): Selector
    requires s.lead.Some?
  {
    Selector(None, [[f]] + s.parts, [s.lead.value] + s.rels)
  }

  lemma ParseOne(f: Filter)
    ensures Parse([Simple(f)]) == Selector(None, [[f]], [])
  {
    assert [Simple(f)][..0] == [];
    var s := Parse([]);
    assert WithSimple(s, f).parts == [[f]] by { assert s.parts[0] + [f] == [f]; }
  }

  lemma {:induction false} ParseIdFirst(f: Filter, ts: seq<Token>)
    requires ts != [] && ts[0].Rel?
    ensures Parse(ts).lead == Some(ts[0].comb) && Parse([Simple(f)] + ts) == WithFirst(Parse(ts), f)
  {
    var all, n := [Simple(f)] + ts, |ts| - 1;
    assert all[..|all| - 1] == [Simple(f)] + ts[..n];
    LeadIsFirst(ts);
    if n == 0 {
      assert ts[..0] == [] && [Simple(f)] + ts[..0] == [Simple(f)] && [Simple(f)][..0] == [];
      ParseOne(f);
      assert Parse(ts) == Selector(Some(ts[0].comb), [[]], []);
    } else {
      ParseIdFirst(f, ts[..n]);
      LeadIsFirst(ts[..n]);
      var s := Parse(ts[..n]);
      if ts[n].Rel? {
        assert WithFirst(WithRel(s, ts[n].comb), f) == WithRel(WithFirst(s, f), ts[n].comb);
      } else {
        assert WithFirst(WithSimple(s, ts[n].filter), f) == WithSimple(WithFirst(s, f), ts[n].filter);
      }
    }
  }

  /** With x the only element called f, starting from x replaces matching f first. */
  lemma {:induction false} IdShortcut(d: Page, f: Filter, ts: seq<Token>, x: Path, p: Path)
    requires ts != [] && ts[0].Rel? && IsDocument(d.tree, []) && x != []
    requires IsElement(d.tree, x) && d.holds(f, x)
    requires forall q :: IsElement(d.tree, q) && d.holds(f, q) ==> q == x
    ensures Selects(EnvOf(d, []), Parse([Simple(f)] + ts), p) <==> Selects(EnvOf(d, x), Parse(ts), p)
  {
    hide Parse;
    ParseIdFirst(f, ts);
    var e0, e1, s := EnvOf(d, []), EnvOf(d, x), Parse(ts);
    var s0 := WithFirst(s, f);
    if Selects(e0, s0, p) {
      var ns :| Assigns(e0, s0, ns) && ns[|ns| - 1] == p;
      assert Node(e0, s0, ns, 0) && Link(e0, s0, ns, 0) && s0.parts[0][0] == f;
      assert ns == [x] + ns[1..];
      hide Node, Link;
      IdAssigns(d, f, s, x, ns[1..]);
    }
    if Selects(e1, s, p) {
      hide Node, Link;
      var ns :| Assigns(e1, s, ns) && ns[|ns| - 1] == p;
      IdAssigns(d, f, s, x, ns);
      assert ([x] + ns)[|ns|] == p;
    }
  }

  lemma IdAssigns(d: Page, f: Filter, s: Selector, x: Path, ns: seq<Path>)
    requires s.lead.Some? && IsDocument(d.tree, [])
    requires IsElement(d.tree, x) && d.holds(f, x)
    requires |ns| == |s.parts| == |s.rels| + 1 && x != []
    ensures Assigns(EnvOf(d, []), WithFirst(s, f), [x] + ns) <==> Assigns(EnvOf(d, x), s, ns)
  {
    var e0, e1, s0, ns0 := EnvOf(d, []), EnvOf(d, x), WithFirst(s, f), [x] + ns;
    assert Node(e0, s0, ns0, 0);
    forall i | 0 <= i < |ns| ensures Node(e0, s0, ns0, i + 1) <==> Node(e1, s, ns, i) {}
    forall i | 0 <= i < |s.rels| ensures Link(e0, s0, ns0, i + 1) <==> Link(e1, s, ns, i) {}
    assert Link(e0, s0, ns0, 0) <==> ContextAllows(e1, s.lead, ns[0]);
    assert (forall i :: 0 <= i < |ns0| ==> Node(e0, s0, ns0, i)) <==>
           (forall i :: 0 <= i < |ns| ==> Node(e1, s, ns, i)) by {
      if forall i :: 0 <= i < |ns| ==> Node(e1, s, ns, i) {
        forall i | 0 <= i < |ns0| ensures Node(e0, s0, ns0, i) { if i > 0 { assert Node(e1, s, ns, i - 1); } }
      }
    }
    assert (forall i :: 0 <= i < |s.rels| ==> Link(e1, s, ns, i)) && Link(e0, s0, ns0, 0) <==>
           (forall i :: 0 <= i < |s0.rels| ==> Link(e0, s0, ns0, i)) by {
      if (forall i :: 0 <= i < |s.rels| ==> Link(e1, s, ns, i)) && Link(e0, s0, ns0, 0) {
        forall i | 0 <= i < |s0.rels| ensures Link(e0, s0, ns0, i) { if i > 0 { assert Link(e1, s, ns, i - 1); } }
      }
    }
  }

  // ---------------------------------------------------------------- the seeding token

  /** Dropping a simple selector of the last compound leaves just its own test to be made. */
  lemma {:induction false} WithoutSimple(e: Env, ts: seq<Token>, i: nat, p: Path)
    requires i < |ts| && |ts| > 1 && forall k :: i <= k < |ts| ==> ts[k].Simple?
    ensures Selects(e, Parse(ts), p) <==> e.holds(ts[i].filter, p) && Selects(e, Parse(ts[..i] + ts[i + 1..]), p)
    decreases |ts|
  {
    hide Selects;
    var n := |ts| - 1;
    var f := ts[n].filter;
    SelectsSimple(e, Parse(ts[..n]), f, p);
    if i == n {
      assert ts[..i] + ts[i + 1..] == ts[..n];
    } else {
      var less := ts[..i] + ts[i + 1..];
      assert less[..|less| - 1] == ts[..n][..i] + ts[..n][i + 1..] && less[|less| - 1] == ts[n];
      SelectsSimple(e, Parse(less[..|less| - 1]), f, p);
      if n > 1 {
        WithoutSimple(e, ts[..n], i, p);
      } else {
        assert ts[..1] == [ts[0]] && less[..|less| - 1] == [];
        OnlySimple(e, ts[0].filter, p);
      }
    }
  }

  lemma OnlySimple(e: Env, f: Filter, p: Path)
    ensures Selects(e, Parse([Simple(f)]), p) <==> e.holds(f, p) && Selects(e, Parse([]), p)
  {
    hide Selects;
    assert [Simple(f)][..0] == [];
    SelectsSimple(e, Parse([]), f, p);
  }

  /** Parse([]) is the universal selector. */
  lemma NoTokens(d: Page, context: Path, p: Path)
    requires Searchable(d.tree, context) && IsElement(d.tree, p)
    ensures Selects(EnvOf(d, context), Parse([]), p) <== Under(context, p)
  {
    var e := EnvOf(d, context);
    if Under(context, p) {
      assert Related(e.tree, true, DESCENDANT, context, p);
      assert Assigns(e, Parse([]), [p]);
    }
  }

  // ---------------------------------------------------------------- the whole of select

  lemma OutermostIsNode(d: Page, ts: seq<Token>, context: Path)
    requires IsNode(d.tree, context)
    ensures IsNode(d.tree, Outermost(d, ts, context))
  {
    if context != [] { AncestorIsNode(d.tree, context, |context| - 1); }
  }

  const CHILD := Combinator(ParentNode, true)

  /** A leading combinator and one filter select the elements that stand so to the context and have the filter hold. */
  lemma LeadSelects(e: Env, c: Combinator, f: Filter, q: Path, p: Path)
    requires WellFormed(e.tree) && IsNode(e.tree, q) && e.context == {q}
    ensures Selects(e, Parse([Rel(c), Simple(f)]), p) <==>
            IsElement(e.tree, p) && e.holds(f, p) && Stands(e.tree, c, q, p)
  {
    var s := Selector(Some(c), [[]], []);
    assert [Rel(c), Simple(f)][..1] == [Rel(c)] && [Rel(c)][..0] == [];
    assert Parse([Rel(c)]) == s;
    SelectsSimple(e, s, f, p);
    if IsElement(e.tree, p) {
      LeadMeans(e, Some(c), q, p);
      if ContextAllows(e, Some(c), p) { assert Assigns(e, s, [p]); }
    }
    hide ContextAllows, Stands, IsElement;
    if Selects(e, s, p) {
      var ns :| Assigns(e, s, ns) && ns[|ns| - 1] == p;
      assert Node(e, s, ns, 0) && ns == [p];
    }
  }

  /** > f asked of the root itself, the document, a fragment or an element, selects its element children with f. */
  lemma ChildrenOfRoot(d: Page, f: Filter, p: Path)
    requires WellFormed(d.tree)
    ensures IsNode(d.tree, []) && IsNode(d.tree, Outermost(d, [Rel(CHILD), Simple(f)], []))
    ensures p in Query(d, [Rel(CHILD), Simple(f)], []) <==>
            |p| == 1 && p[0] < |d.tree.kids| && d.tree.kids[p[0]].kind.Element? && d.holds(f, p)
  {
    var ts := [Rel(CHILD), Simple(f)];
    assert Outermost(d, ts, []) == [];
    LeadSelects(EnvOf(d, []), CHILD, f, [], p);
    if |p| == 1 { KidIsElement(d.tree, p); }
    assert Stands(d.tree, CHILD, [], p) <==> |p| == 1;
    ElementsKept(d.tree, []);
    KeptIn(Elements(d.tree, []), Chosen(d, ts, []), p);
    hide Selects, Parse, Kept, Stands, IsElement, HasSibling, Outermost, Elements;
  }

  lemma KidIsElement(t: Tree, p: Path)
    requires |p| == 1
    ensures IsElement(t, p) <==> p[0] < |t.kids| && t.kids[p[0]].kind.Element?
  {
    assert p[1..] == [];
  }

  /** What a query answers, as a test on the elements of the whole tree. */
  ghost function Answer(d: Page, ts: seq<Token>, context: Path): Path -> bool {
    x => Under(Outermost(d, ts, context), x) && Selects(EnvOf(d, context), Parse(ts), x)
  }

  lemma QueryFromRoot(d: Page, ts: seq<Token>, context: Path)
    requires ts != [] && Searchable(d.tree, context)
    ensures IsNode(d.tree, Outermost(d, ts, context))
    ensures Query(d, ts, context) == Kept(Elements(d.tree, []), Answer(d, ts, context))
  {
    OutermostIsNode(d, ts, context);
    var o := Outermost(d, ts, context);
    ElementsKept(d.tree, o);
    KeptTwice(Elements(d.tree, []), Below(o), Chosen(d, ts, context), Answer(d, ts, context));
  }

  lemma {:induction false} KeptOnce(s: seq<Path>, f: Path -> bool)
    requires Ascending(s) && forall x, y :: x in s && y in s && f(x) && f(y) ==> x == y
    ensures |Kept(s, f)| <= 1
  {
    if s != [] {
      var n := |s| - 1;
      KeptOnce(s[..n], f);
      if f(s[n]) && Kept(s[..n], f) != [] {
        var y := Kept(s[..n], f)[0];
        KeptIn(s[..n], f, y);
        PrecedesIrreflexive(y);
      }
    }
  }

  lemma IdFoundOnce(d: Page, f: Filter, context: Path)
    requires UniqueIds(d) && d.lex.find(f) == ById && IsNode(d.tree, context) && !d.xml
    ensures |Kept(Elements(d.tree, context), Fetched(d, f))| <= 1
  {
    var listed := Elements(d.tree, context);
    ElementsKept(d.tree, context);
    OffspringAscends(Subtree(d.tree, context), context, 0, false);
    KeptOnce(listed, Fetched(d, f));
  }

  /** The seed elements that pass the rest of the selector, as a test on the elements of the whole tree. */
  ghost function SeedAnswer(d: Page, f: Filter, ts: seq<Token>, context: Path): Path -> bool {
    x => Under(context, x) && d.fetched(f, x) && Selects(EnvOf(d, context), Parse(ts), x)
  }

  lemma SeedFromRoot(d: Page, f: Filter, ts: seq<Token>, context: Path)
    requires Searchable(d.tree, context) && UniqueIds(d) && Found(d, f, context).Some?
    ensures Found(d, f, context).value == Kept(Elements(d.tree, context), Fetched(d, f))
    ensures Kept(Found(d, f, context).value, Chosen(d, ts, context)) ==
            Kept(Elements(d.tree, []), SeedAnswer(d, f, ts, context))
  {
    if d.lex.find(f) == ById { IdFoundOnce(d, f, context); }
    ElementsKept(d.tree, context);
    hide UniqueIds, Elements, Kept, Searchable;
    TestedFromRoot(d, f, ts, context);
  }

  lemma TestedFromRoot(d: Page, f: Filter, ts: seq<Token>, context: Path)
    requires IsNode(d.tree, context) && Elements(d.tree, context) == Kept(Elements(d.tree, []), Below(context))
    ensures Kept(Kept(Elements(d.tree, context), Fetched(d, f)), Chosen(d, ts, context)) ==
            Kept(Elements(d.tree, []), SeedAnswer(d, f, ts, context))
  {
    var all, listed := Elements(d.tree, []), Elements(d.tree, context);
    ghost var both := p => d.fetched(f, p) && Selects(EnvOf(d, context), Parse(ts), p);
    hide Elements, Kept, Selects, Parse, EnvOf;
    KeptTwice(listed, Fetched(d, f), Chosen(d, ts, context), both);
    KeptTwice(all, Below(context), both, SeedAnswer(d, f, ts, context));
  }

  /** The shortcut's guard. */
  predicate LeadsWithId(d: Page, ts: seq<Token>, context: Path) {
    |ts| > 2 && ts[0].Simple? && d.lex.find(ts[0].filter) == ById && ts[1].Rel? && IsDocument(d.tree, context) && !d.xml
  }

  lemma ShortcutKeepsQuery(d: Page, ts: seq<Token>)
    requires WellFormed(d.tree) && UniqueIds(d) && LeadsWithId(d, ts, [])
    ensures var found := Found(d, ts[0].filter, []);
            found.Some? && if found.value == [] then Query(d, ts, []) == []
                           else IsElement(d.tree, found.value[0]) && found.value[0] != [] &&
                                IsNode(d.tree, found.value[0]) &&
                                IsNode(d.tree, Outermost(d, ts[1..], found.value[0])) &&
                                Query(d, ts, []) == Query(d, ts[1..], found.value[0])
  {
    hide Parse, Selects;
    var f, all := ts[0].filter, Elements(d.tree, []);
    var found := Found(d, f, []).value;
    QueryFromRoot(d, ts, []);
    ElementsKept(d.tree, []);
    IdFoundOnce(d, f, []);
    assert ts == [Simple(f)] + ts[1..];
    if found == [] {
      forall p | p in all ensures !Answer(d, ts, [])(p) { NoId(d, f, ts[1..], p); }
      KeptAll(all, Answer(d, ts, []), false);
    } else {
      var x := found[0];
      KeptIn(all, Fetched(d, f), x);
      ElementIsNode(d.tree, x);
      QueryFromRoot(d, ts[1..], x);
      forall p | p in all ensures Answer(d, ts, [])(p) == Answer(d, ts[1..], x)(p) {
        IdShortcut(d, f, ts[1..], x, p);
        if Selects(EnvOf(d, x), Parse(ts[1..]), p) { SelectedBelowOutermost(d, ts[1..], x, p); }
      }
      KeptSame(all, Answer(d, ts, []), Answer(d, ts[1..], x));
    }
  }

  lemma NoId(d: Page, f: Filter, ts: seq<Token>, p: Path)
    requires ts != [] && ts[0].Rel? && IsDocument(d.tree, []) && UniqueIds(d) && !d.xml && d.lex.find(f) == ById
    requires Kept(Elements(d.tree, []), Fetched(d, f)) == []
    ensures !Selects(EnvOf(d, []), Parse([Simple(f)] + ts), p)
  {
    var e, s := EnvOf(d, []), Parse([Simple(f)] + ts);
    ParseIdFirst(f, ts);
    if Selects(e, s, p) {
      var ns :| Assigns(e, s, ns) && ns[|ns| - 1] == p;
      assert Node(e, s, ns, 0) && s.parts[0] == [f] && s.parts[0][0] == f;
      ElementsKept(d.tree, []);
      KeptIn(Elements(d.tree, []), Fetched(d, f), ns[0]);
      assert false;
    }
  }

  lemma SelectedBelowOutermost(d: Page, ts: seq<Token>, context: Path, p: Path)
    requires ts != [] && Searchable(d.tree, context) && (context != [] ==> IsDocument(d.tree, [])) && !d.xml
    requires Selects(EnvOf(d, context), Parse(ts), p)
    ensures Under(Outermost(d, ts, context), p)
  {
    SelectedLiesUnder(d, ts, context, p);
    LeadIsFirst(ts);
    if ts[0].Rel? && ts[0].comb.dir.PreviousSibling? {
      assert HasSibling(d, ts);
    } else if context != [] {
      assert p[..|context|][..|context| - 1] == p[..|context| - 1];
    }
  }

  // ---------------------------------------------------------------- what a query finds

  /** A plus or tilde in one of the selectors. */
  ghost predicate LooksSideways(d: Page, selectors: seq<seq<Token>>) {
    exists ts, i :: ts in selectors && 0 <= i < |ts| &&
                    match ts[i]
                    case Rel(c) => c.dir == PreviousSibling
                    case Simple(f) => d.lex.hasSiblingChar(f)
  }

  /** That, and a parent to search, let the search begin at the context's parent. */
  ghost predicate WithinReach(d: Page, selectors: seq<seq<Token>>, context: Path, p: Path) {
    if context != [] && (|context| > 1 || !d.tree.kind.Fragment?) && LooksSideways(d, selectors)
    then |context| <= |p| && p[..|context| - 1] == context[..|context| - 1]
    else |context| < |p| && p[..|context|] == context
  }

  /** In an HTML document that loses nothing. */
  lemma SelectedWithinReach(d: Page, selectors: seq<seq<Token>>, ts: seq<Token>, context: Path, p: Path)
    requires ts in selectors && ts != [] && IsDocument(d.tree, []) && !d.xml && Searchable(d.tree, context)
    requires Selects(EnvOf(d, context), Parse(ts), p)
    ensures WithinReach(d, selectors, context, p)
  {
    SelectedLiesUnder(d, ts, context, p);
    LeadIsFirst(ts);
    hide Selects, Searchable;
    if Under(context, p) {
      assert context != [] ==> p[..|context| - 1] == p[..|context|][..|context| - 1];
    } else {
      assert ts[0].Rel? && ts[0].comb.dir == PreviousSibling;
    }
  }

  lemma {:induction false} KeptAscends(s: seq<Path>, f: Path -> bool)
    requires Ascending(s)
    ensures Ascending(Kept(s, f))
  {
    if s != [] {
      var n := |s| - 1;
      KeptAscends(s[..n], f);
      forall x | x in Kept(s[..n], f) ensures Precedes(x, s[n]) { KeptIn(s[..n], f, x); }
    }
  }

  /** A query finds the elements in reach that the selector selects, in document order. */
  lemma QueryFinds(d: Page, ts: seq<Token>, context: Path)
    requires ts != [] && Searchable(d.tree, context)
    ensures IsNode(d.tree, Outermost(d, ts, context)) && Ascending(Query(d, ts, context))
    ensures forall p :: p in Query(d, ts, context) <==>
              IsElement(d.tree, p) && WithinReach(d, [ts], context, p) && Selects(EnvOf(d, context), Parse(ts), p)
    ensures IsDocument(d.tree, []) && !d.xml ==>
              forall p :: p in Query(d, ts, context) <==>
                IsElement(d.tree, p) && Selects(EnvOf(d, context), Parse(ts), p)
  {
    OutermostIsNode(d, ts, context);
    var o := Outermost(d, ts, context);
    OffspringAscends(Subtree(d.tree, o), o, 0, false);
    KeptAscends(Elements(d.tree, o), Chosen(d, ts, context));
    ElementsKept(d.tree, o);
    ReachIsUnder(d, ts, context);
    hide Selects, Parse, Outermost, Elements, Kept, WithinReach, Under, IsElement, Precedes;
    forall p ensures p in Query(d, ts, context) <==>
        IsElement(d.tree, p) && WithinReach(d, [ts], context, p) && Selects(EnvOf(d, context), Parse(ts), p)
    {
      KeptIn(Elements(d.tree, o), Chosen(d, ts, context), p);
    }
    if IsDocument(d.tree, []) && !d.xml {
      forall p | Selects(EnvOf(d, context), Parse(ts), p) ensures WithinReach(d, [ts], context, p) {
        SelectedWithinReach(d, [ts], ts, context, p);
      }
    }
  }

  lemma LooksSidewaysIf(d: Page, selectors: seq<seq<Token>>)
    ensures LooksSideways(d, selectors) <==> exists k :: 0 <= k < |selectors| && HasSibling(d, selectors[k])
  {
    if LooksSideways(d, selectors) {
      var ts, i :| ts in selectors && 0 <= i < |ts| && match ts[i]
                                                       case Rel(c) => c.dir == PreviousSibling
                                                       case Simple(f) => d.lex.hasSiblingChar(f);
      assert HasSibling(d, ts);
      var k :| 0 <= k < |selectors| && selectors[k] == ts;
    }
    if k :| 0 <= k < |selectors| && HasSibling(d, selectors[k]) { assert selectors[k] in selectors; }
  }

  lemma ReachIsUnder(d: Page, ts: seq<Token>, context: Path)
    ensures forall p :: WithinReach(d, [ts], context, p) <==> Under(Outermost(d, ts, context), p)
  {
    LooksSidewaysIf(d, [ts]);
    assert [ts][0] == ts;
    hide HasSibling, LooksSideways;
  }

  // ---------------------------------------------------------------- what select answers

  /** The last of the first n tokens to be looked up, if it comes behind their last combinator. */
  function SeedFrom(d: Page, ts: seq<Token>, n: nat, context: Path): Option<nat>
    requires n <= |ts| && IsNode(d.tree, context)
  {
    if n == 0 || ts[n - 1].Rel? then None
    else if Found(d, ts[n - 1].filter, context).Some? then Some(n - 1)
    else SeedFrom(d, ts, n - 1, context)
  }

  /** The seeding token. */
  function SeedIndex(d: Page, ts: seq<Token>, context: Path): Option<nat>
    requires IsNode(d.tree, context)
  {
    if NeedsContext(d, ts) then None else SeedFrom(d, ts, |ts|, context)
  }

  lemma {:induction false} SeedFromMeans(d: Page, ts: seq<Token>, n: nat, context: Path)
    requires n <= |ts| && IsNode(d.tree, context) && SeedFrom(d, ts, n, context).Some?
    ensures var i := SeedFrom(d, ts, n, context).value;
            i < n && (forall k :: i <= k < n ==> ts[k].Simple?) && Found(d, ts[i].filter, context).Some?
  {
    if Found(d, ts[n - 1].filter, context).None? { SeedFromMeans(d, ts, n - 1, context); }
  }

  /** The page looks such tokens up here: tags anywhere; IDs and classes in HTML, below nodes that have the method. */
  predicate LookedUp(d: Page, f: Filter, context: Path) {
    match d.lex.find(f)
    case ByTag => true
    case ById => !d.xml && context == [] && (d.tree.kind.Document? || (d.tree.kind.Fragment? && d.fragmentIds))
    case ByClass => !d.xml && (IsElement(d.tree, context) || (context == [] && d.tree.kind.Document?))
    case NoFind => false
  }

  /** An element below the context that the lookup fetches. */
  ghost predicate FetchedBelow(d: Page, f: Filter, context: Path, p: Path) {
    IsElement(d.tree, p) && Under(context, p) && d.fetched(f, p)
  }

  lemma AllFetched(d: Page, f: Filter, context: Path)
    requires IsNode(d.tree, context)
    ensures var all := Kept(Elements(d.tree, context), Fetched(d, f));
            Ascending(all) && forall p :: p in all <==> FetchedBelow(d, f, context, p)
  {
    var all := Kept(Elements(d.tree, context), Fetched(d, f));
    OffspringAscends(Subtree(d.tree, context), context, 0, false);
    KeptAscends(Elements(d.tree, context), Fetched(d, f));
    ElementsKept(d.tree, context);
    forall p ensures p in all <==> FetchedBelow(d, f, context, p) {
      KeptIn(Elements(d.tree, context), Fetched(d, f), p);
    }
  }

  ghost predicate FirstFetched(d: Page, f: Filter, context: Path, p: Path) {
    FetchedBelow(d, f, context, p) && forall q :: FetchedBelow(d, f, context, q) ==> !Precedes(q, p)
  }

  /** What comes back: the first match of an ID, of the others every match, in document order. */
  lemma {:induction false} FoundMeans(d: Page, f: Filter, context: Path)
    requires IsNode(d.tree, context)
    ensures Found(d, f, context).Some? <==> LookedUp(d, f, context)
    ensures LookedUp(d, f, context) ==>
              Ascending(Found(d, f, context).value) &&
              forall p :: p in Found(d, f, context).value <==>
                if d.lex.find(f).ById? then FirstFetched(d, f, context, p) else FetchedBelow(d, f, context, p)
  {
    var all := Kept(Elements(d.tree, context), Fetched(d, f));
    AllFetched(d, f, context);
    FoundIs(d, f, context);
    FirstIs(d, f, context, all);
    hide *;
    if all != [] { OneAscends(all[0]); }
  }

  lemma OneAscends(p: Path)
    ensures Ascending([p])
  {
  }

  lemma FirstIs(d: Page, f: Filter, context: Path, all: seq<Path>)
    requires Ascending(all) && forall p :: p in all <==> FetchedBelow(d, f, context, p)
    ensures forall p :: FirstFetched(d, f, context, p) <==> all != [] && p == all[0]
  {
    hide FetchedBelow;
    if all != [] { FirstAlone(all); }
    hide Precedes;
    forall p ensures FirstFetched(d, f, context, p) <==> all != [] && p == all[0] {
      if all != [] { assert p == all[0] <==> p in all && forall q :: q in all ==> !Precedes(q, p); }
    }
  }

  lemma FoundIs(d: Page, f: Filter, context: Path)
    requires IsNode(d.tree, context)
    ensures Found(d, f, context).Some? <==> LookedUp(d, f, context)
    ensures var all := Kept(Elements(d.tree, context), Fetched(d, f));
            LookedUp(d, f, context) ==>
              Found(d, f, context).value == if d.lex.find(f).ById? && all != [] then [all[0]] else all
  {
    hide Kept, Elements;
  }

  lemma FirstAlone(all: seq<Path>)
    requires Ascending(all) && all != []
    ensures forall p :: p == all[0] <==> p in all && forall q :: q in all ==> !Precedes(q, p)
  {
    var first := all[0];
    forall q | q in all ensures !Precedes(q, first) {
      FirstPrecedes(all, q);
    }
    forall p | p in all && p != first ensures Precedes(first, p) {
      FirstPrecedes(all, p);
    }
    assert first in all;
    hide Precedes;
  }

  lemma FirstPrecedes(all: seq<Path>, q: Path)
    requires Ascending(all) && q in all
    ensures q != all[0] ==> Precedes(all[0], q)
    ensures !Precedes(q, all[0])
  {
    var i :| 0 <= i < |all| && all[i] == q;
    if q == all[0] { PrecedesIrreflexive(q); } else { PrecedesTotal(all[0], q); }
  }

  /** The seeding token: the last one that can be looked up, behind the last combinator. */
  lemma {:induction false} SeedIndexMeans(d: Page, ts: seq<Token>, context: Path, i: nat)
    requires ts != [] && IsNode(d.tree, context)
    ensures SeedIndex(d, ts, context) == Some(i) <==>
            && (ts[0].Rel? ==> ts[0].comb == DESCENDANT)
            && (forall k :: 0 <= k < |ts| && ts[k].Simple? ==> !d.lex.needsContext(ts[k].filter))
            && SeedsHere(d, ts, |ts|, context, i)
  {
    hide SeedFrom, LookedUp;
    SeedFromIs(d, ts, |ts|, context, i);
  }

  ghost predicate SeedsHere(d: Page, ts: seq<Token>, n: nat, context: Path, i: nat) {
    i < n <= |ts| && (forall k :: i <= k < n ==> ts[k].Simple?) && LookedUp(d, ts[i].filter, context) &&
    forall k :: i < k < n ==> !LookedUp(d, ts[k].filter, context)
  }

  lemma {:induction false} SeedFromIs(d: Page, ts: seq<Token>, n: nat, context: Path, i: nat)
    requires n <= |ts| && IsNode(d.tree, context)
    ensures SeedFrom(d, ts, n, context) == Some(i) <==> SeedsHere(d, ts, n, context, i)
  {
    if n > 0 && ts[n - 1].Simple? {
      LookedUpIf(d, ts[n - 1].filter, context);
      hide LookedUp, Found;
      SeedFromIs(d, ts, n - 1, context, i);
    }
  }

  lemma LookedUpIf(d: Page, f: Filter, context: Path)
    requires IsNode(d.tree, context)
    ensures Found(d, f, context).Some? <==> LookedUp(d, f, context)
  {
  }

  function Rest(ts: seq<Token>, i: nat): seq<Token>
    requires i < |ts|
  {
    ts[..i] + ts[i + 1..]
  }

  /** The elements fetched for the seeding token that the rest of the selector selects; or the query, without a seed. */
  ghost function Answered(d: Page, ts: seq<Token>, context: Path): seq<Path>
    requires IsNode(d.tree, context) && IsNode(d.tree, Outermost(d, ts, context))
  {
    match SeedIndex(d, ts, context)
    case None => Query(d, ts, context)
    case Some(i) =>
      SeedFromMeans(d, ts, |ts|, context);
      Kept(Found(d, ts[i].filter, context).value, Chosen(d, Rest(ts, i), context))
  }

  lemma SeedIsAnswer(d: Page, f: Filter, context: Path)
    requires Searchable(d.tree, context) && UniqueIds(d) && Found(d, f, context).Some?
    ensures var seed := Found(d, f, context).value; Kept(seed, Chosen(d, [], context)) == seed
  {
    var seed := Found(d, f, context).value;
    SeedFromRoot(d, f, [], context);
    ElementsKept(d.tree, context);
    forall p | p in seed ensures Chosen(d, [], context)(p) {
      KeptIn(Elements(d.tree, context), Fetched(d, f), p);
      NoTokens(d, context, p);
    }
    KeptAll(seed, Chosen(d, [], context), true);
  }

  // ---------------------------------------------------------------- when that is the query's answer

  /** Of the elements below the context that the rest selects, those are fetched for which the token's filter holds. */
  ghost predicate SeedAgrees(d: Page, ts: seq<Token>, context: Path, i: nat)
    requires i < |ts| && ts[i].Simple?
  {
    forall p :: IsElement(d.tree, p) && Under(context, p) && Selects(EnvOf(d, context), Parse(Rest(ts, i)), p) ==>
                  d.fetched(ts[i].filter, p) == d.holds(ts[i].filter, p)
  }

  /** Nothing the selector selects lies outside the context. */
  ghost predicate StaysBelow(d: Page, ts: seq<Token>, context: Path) {
    forall p :: IsElement(d.tree, p) && Under(Outermost(d, ts, context), p) && !Under(context, p) ==>
                  !Selects(EnvOf(d, context), Parse(ts), p)
  }

  /** Where an unseeded run would be held below the context: in XML it is tested for only by a leading combinator. */
  predicate ContextBounds(d: Page, ts: seq<Token>, context: Path)
    requires ts != []
  {
    !d.xml || ts[0].Rel? || Outermost(d, ts, context) == context
  }

  lemma BoundedStaysBelow(d: Page, ts: seq<Token>, context: Path)
    requires ts != [] && Searchable(d.tree, context) && !NeedsContext(d, ts) && ContextBounds(d, ts, context)
    ensures StaysBelow(d, ts, context)
  {
    forall p | IsElement(d.tree, p) && Under(Outermost(d, ts, context), p) && Selects(EnvOf(d, context), Parse(ts), p)
      ensures Under(context, p)
    {
      if Outermost(d, ts, context) != context || !d.xml {
        SelectedLiesUnder(d, ts, context, p);
        LeadIsFirst(ts);
      }
    }
  }

  /** Dropping the seeding token leaves its own filter to be tested. */
  lemma {:induction false} SeedTokenDrops(e: Env, ts: seq<Token>, i: nat, p: Path)
    requires i < |ts| && forall k :: i <= k < |ts| ==> ts[k].Simple?
    ensures Selects(e, Parse(ts), p) <==> e.holds(ts[i].filter, p) && Selects(e, Parse(Rest(ts, i)), p)
  {
    if |ts| > 1 {
      WithoutSimple(e, ts, i, p);
    } else {
      assert ts == [Simple(ts[0].filter)] && Rest(ts, i) == [];
      OnlySimple(e, ts[0].filter, p);
    }
  }

  lemma {:induction false} KeptExactly<T>(s: seq<T>, f: T -> bool, g: T -> bool)
    ensures Kept(s, f) == Kept(s, g) <==> forall x :: x in s ==> f(x) == g(x)
  {
    if Kept(s, f) == Kept(s, g) {
      forall x | x in s ensures f(x) == g(x) {
        KeptIn(s, f, x);
        KeptIn(s, g, x);
      }
    }
    if forall x :: x in s ==> f(x) == g(x) { KeptSame(s, f, g); }
  }

  /** The seeded run and the query agree on this element. */
  ghost predicate AgreesOn(d: Page, ts: seq<Token>, context: Path, i: nat, p: Path)
    requires i < |ts| && ts[i].Simple?
  {
    if Under(context, p)
    then Selects(EnvOf(d, context), Parse(Rest(ts, i)), p) ==> d.fetched(ts[i].filter, p) == d.holds(ts[i].filter, p)
    else Under(Outermost(d, ts, context), p) ==> !Selects(EnvOf(d, context), Parse(ts), p)
  }

  lemma SeededElement(d: Page, ts: seq<Token>, context: Path, i: nat, p: Path)
    requires IsElement(d.tree, p) && i < |ts| && forall k :: i <= k < |ts| ==> ts[k].Simple?
    ensures Answer(d, ts, context)(p) == SeedAnswer(d, ts[i].filter, Rest(ts, i), context)(p) <==>
            AgreesOn(d, ts, context, i, p)
  {
    SeedTokenDrops(EnvOf(d, context), ts, i, p);
    hide Selects, Parse;
    if Under(context, p) { UnderOutermost(d, ts, context, p); }
    hide Under, Outermost;
  }

  lemma UnderOutermost(d: Page, ts: seq<Token>, context: Path, p: Path)
    requires Under(context, p)
    ensures Under(Outermost(d, ts, context), p)
  {
    if context != [] { assert p[..|context|][..|context| - 1] == p[..|context| - 1]; }
  }

  lemma AgreesOnEach(d: Page, ts: seq<Token>, context: Path, i: nat)
    requires i < |ts| && ts[i].Simple?
    ensures SeedAgrees(d, ts, context, i) && StaysBelow(d, ts, context) <==>
            forall p :: IsElement(d.tree, p) && (Under(context, p) || Under(Outermost(d, ts, context), p)) ==>
              AgreesOn(d, ts, context, i, p)
  {
    hide Selects, Parse, Outermost, EnvOf, IsElement, Under, Rest;
    if forall p :: IsElement(d.tree, p) && (Under(context, p) || Under(Outermost(d, ts, context), p)) ==>
                     AgreesOn(d, ts, context, i, p)
    {
      forall p | IsElement(d.tree, p) && Under(context, p) && Selects(EnvOf(d, context), Parse(Rest(ts, i)), p)
        ensures d.fetched(ts[i].filter, p) == d.holds(ts[i].filter, p)
      {
        assert AgreesOn(d, ts, context, i, p);
      }
      forall p | IsElement(d.tree, p) && Under(Outermost(d, ts, context), p) && !Under(context, p)
        ensures !Selects(EnvOf(d, context), Parse(ts), p)
      {
        assert AgreesOn(d, ts, context, i, p);
      }
    }
  }

  /** With the seeding token known. */
  lemma {:induction false} SeededIsQuery(d: Page, ts: seq<Token>, context: Path, i: nat)
    requires ts != [] && Searchable(d.tree, context) && UniqueIds(d)
    requires i < |ts| && (forall k :: i <= k < |ts| ==> ts[k].Simple?) && Found(d, ts[i].filter, context).Some?
    ensures IsNode(d.tree, Outermost(d, ts, context))
    ensures Kept(Found(d, ts[i].filter, context).value, Chosen(d, Rest(ts, i), context)) == Query(d, ts, context) <==>
            SeedAgrees(d, ts, context, i) && StaysBelow(d, ts, context)
  {
    hide *;
    QueryFromRoot(d, ts, context);
    SeedFromRoot(d, ts[i].filter, Rest(ts, i), context);
    SeededWhereAgreed(d, ts, context, i);
    AgreesOnEach(d, ts, context, i);
  }

  /** In terms of the elements of the whole tree. */
  lemma SeededWhereAgreed(d: Page, ts: seq<Token>, context: Path, i: nat)
    requires i < |ts| && forall k :: i <= k < |ts| ==> ts[k].Simple?
    ensures Kept(Elements(d.tree, []), SeedAnswer(d, ts[i].filter, Rest(ts, i), context)) ==
            Kept(Elements(d.tree, []), Answer(d, ts, context)) <==>
            forall p :: IsElement(d.tree, p) && (Under(context, p) || Under(Outermost(d, ts, context), p)) ==>
              AgreesOn(d, ts, context, i, p)
  {
    var all, f, rest := Elements(d.tree, []), ts[i].filter, Rest(ts, i);
    KeptExactly(all, Answer(d, ts, context), SeedAnswer(d, f, rest, context));
    forall p ensures p in all <==> IsElement(d.tree, p) && p != [] { InElements(d.tree, p); }
    forall p | p in all
      ensures Answer(d, ts, context)(p) == SeedAnswer(d, f, rest, context)(p) <==> AgreesOn(d, ts, context, i, p)
    {
      SeededElement(d, ts, context, i, p);
    }
    forall p | !Under(context, p) && !Under(Outermost(d, ts, context), p) ensures AgreesOn(d, ts, context, i, p) {
      OutsideAgrees(d, ts, context, i, p);
    }
    NotUnderItself();
    hide *;
  }

  lemma InElements(t: Tree, p: Path)
    ensures p in Elements(t, []) <==> IsElement(t, p) && p != []
  {
    ElementsKept(t, []);
    assert Under([], p) <==> p != [];
  }

  lemma NotUnderItself()
    ensures forall r: Path :: !Under(r, [])
  {
  }

  lemma OutsideAgrees(d: Page, ts: seq<Token>, context: Path, i: nat, p: Path)
    requires i < |ts| && ts[i].Simple? && !Under(context, p) && !Under(Outermost(d, ts, context), p)
    ensures AgreesOn(d, ts, context, i, p)
  {
    hide Selects, Parse, Outermost, Under;
  }

  ghost predicate SeedIsFaithful(d: Page, ts: seq<Token>, context: Path)
    requires IsNode(d.tree, context)
  {
    match SeedIndex(d, ts, context)
    case None => true
    case Some(i) => i < |ts| && ts[i].Simple? && SeedAgrees(d, ts, context, i) && StaysBelow(d, ts, context)
  }

  /**
   Select answers the query exactly when two things hold of the run it seeds: no element below the context that
   passes the rest of the selector is fetched without holding or holds without being fetched, and nothing
   outside the context is selected.
  */
  lemma AnsweredIsQuery(d: Page, ts: seq<Token>, context: Path)
    requires ts != [] && Searchable(d.tree, context) && UniqueIds(d)
    ensures IsNode(d.tree, Outermost(d, ts, context))
    ensures Answered(d, ts, context) == Query(d, ts, context) <==>
            SeedIsFaithful(d, ts, context)
  {
    OutermostIsNode(d, ts, context);
    if SeedIndex(d, ts, context).Some? {
      SeedFromMeans(d, ts, |ts|, context);
      SeededIsQuery(d, ts, context, SeedIndex(d, ts, context).value);
      hide SeedAgrees, StaysBelow, Query, Found, SeedFrom, Chosen;
    }
  }

  /**
   So it does wherever lookups and filters agree and the context bounds the query: in HTML, on the first account
   alone.
  */
  lemma AgreeingLookupsAnswerQuery(d: Page, ts: seq<Token>, context: Path)
    requires ts != [] && Searchable(d.tree, context) && UniqueIds(d)
    requires LookupsAgree(d) && (SeedIndex(d, ts, context).None? || ContextBounds(d, ts, context))
    ensures IsNode(d.tree, Outermost(d, ts, context))
    ensures Answered(d, ts, context) == Query(d, ts, context)
  {
    AnsweredIsQuery(d, ts, context);
    if SeedIndex(d, ts, context).Some? {
      SeedFromMeans(d, ts, |ts|, context);
      BoundedStaysBelow(d, ts, context);
    }
  }

  /** The seed loop: the last compound's simple selectors from the right, until one can be looked up. */
  method FetchSeed(d: Page, tokens: seq<Token>, context: Path) returns (seed: Option<seq<Path>>, rest: seq<Token>)
    requires tokens != [] && Searchable(d.tree, context) && UniqueIds(d)
    ensures IsNode(d.tree, Outermost(d, tokens, context))
    ensures seed.Some? <==> SeedIndex(d, tokens, context).Some?
    ensures seed.None? ==> rest == tokens && Answered(d, tokens, context) == Query(d, tokens, context)
    ensures seed.Some? ==> forall p :: p in seed.value ==> IsElement(d.tree, p)
    ensures seed.Some? ==>
              Answered(d, tokens, context) ==
              if rest == [] then seed.value else Kept(seed.value, Chosen(d, rest, context))
  {
    OutermostIsNode(d, tokens, context);
    SeedIndexIs(d, tokens, context);
    assert IsNode(d.tree, context);
    hide *;
    var i := if NeedsContext(d, tokens) then 0 else |tokens|;
    while i > 0
      invariant 0 <= i <= |tokens| && (NeedsContext(d, tokens) ==> i == 0)
      invariant !NeedsContext(d, tokens) ==> SeedIndex(d, tokens, context) == SeedFrom(d, tokens, i, context)
    {
      SeedFromStep(d, tokens, i, context);
      i := i - 1;
      if tokens[i].Rel? { break; }
      seed := Found(d, tokens[i].filter, context);
      if seed.Some? {
        rest := tokens[..i] + tokens[i + 1..];
        SeedFetched(d, tokens, context, i, rest);
        return;
      }
    }
    SeedFromStart(d, tokens, context);
    NothingFetched(d, tokens, context);
    return None, tokens;
  }

  lemma SeedIndexIs(d: Page, ts: seq<Token>, context: Path)
    requires IsNode(d.tree, context)
    ensures SeedIndex(d, ts, context) == if NeedsContext(d, ts) then None else SeedFrom(d, ts, |ts|, context)
  {
  }

  lemma SeedFromStart(d: Page, ts: seq<Token>, context: Path)
    requires IsNode(d.tree, context)
    ensures SeedFrom(d, ts, 0, context).None?
  {
  }

  lemma SeedFromStep(d: Page, ts: seq<Token>, n: nat, context: Path)
    requires 0 < n <= |ts| && IsNode(d.tree, context)
    ensures SeedFrom(d, ts, n, context) == if ts[n - 1].Rel? then None
                                           else if Found(d, ts[n - 1].filter, context).Some? then Some(n - 1)
                                           else SeedFrom(d, ts, n - 1, context)
  {
    hide Found;
  }

  lemma NothingFetched(d: Page, ts: seq<Token>, context: Path)
    requires IsNode(d.tree, context) && IsNode(d.tree, Outermost(d, ts, context))
    requires SeedIndex(d, ts, context).None?
    ensures Answered(d, ts, context) == Query(d, ts, context)
  {
    hide SeedIndex, Query;
  }

  /** The token at i is the one to seed with. */
  lemma SeedFetched(d: Page, ts: seq<Token>, context: Path, i: nat, rest: seq<Token>)
    requires Searchable(d.tree, context) && UniqueIds(d) && i < |ts| && ts[i].Simple? && rest == ts[..i] + ts[i + 1..]
    requires SeedIndex(d, ts, context) == Some(i) && Found(d, ts[i].filter, context).Some?
    ensures IsNode(d.tree, Outermost(d, ts, context))
    ensures var seed := Found(d, ts[i].filter, context).value;
            Answered(d, ts, context) == if rest == [] then seed else Kept(seed, Chosen(d, rest, context))
    ensures forall p :: p in Found(d, ts[i].filter, context).value ==> IsElement(d.tree, p)
  {
    var f := ts[i].filter;
    OutermostIsNode(d, ts, context);
    if rest == [] { SeedIsAnswer(d, f, context); }
    SeedFromRoot(d, f, rest, context);
    ElementsKept(d.tree, context);
    forall p | p in Found(d, f, context).value ensures IsElement(d.tree, p) {
      KeptIn(Elements(d.tree, context), Fetched(d, f), p);
    }
    assert rest == Rest(ts, i);
    hide SeedIndex, Found, Kept, Elements, Chosen, Outermost, UniqueIds;
  }

  /** Running one compiled selector over the candidates. */
  method RunOne(engine: Sizzle, d: Page, tokens: seq<Token>, context: Path, elems: seq<Path>)
    returns (results: seq<Path>)
    requires engine.Valid() && tokens != [] && WellFormed(d.tree)
    requires forall p :: p in elems ==> IsElement(d.tree, p)
    modifies engine
    ensures engine.Valid()
    ensures results == Kept(elems, Chosen(d, tokens, context))
  {
    var e := EnvOf(d, context);
    results := engine.Run(e, [tokens], elems);
    forall p | p in elems ensures Selected(e, [tokens], p) == Chosen(d, tokens, context)(p) {
      assert [tokens][0] == tokens;
    }
    KeptSame(elems, p => Selected(e, [tokens], p), Chosen(d, tokens, context));
  }

  /**
   Where the shortcut leaves the search: at an element, without the leading token; None if there is none with
   that ID.
  */
  function StartOf(d: Page, ts: seq<Token>, context: Path): Option<(seq<Token>, Path)>
    requires IsNode(d.tree, context)
  {
    if !LeadsWithId(d, ts, context) then Some((ts, context))
    else
      var found := Found(d, ts[0].filter, context);
      if found.None? || found.value == [] then None else Some((ts[1..], found.value[0]))
  }

  /** The shortcut loses nothing. */
  lemma {:induction false} StartKeepsQuery(d: Page, ts: seq<Token>, context: Path)
    requires WellFormed(d.tree) && UniqueIds(d) && Searchable(d.tree, context) && ts != []
    ensures IsNode(d.tree, Outermost(d, ts, context))
    ensures match StartOf(d, ts, context)
            case None => Query(d, ts, context) == []
            case Some((rest, start)) =>
              rest != [] && Searchable(d.tree, start) && IsNode(d.tree, Outermost(d, rest, start)) &&
              Query(d, ts, context) == Query(d, rest, start)
    ensures d.xml ==> StartOf(d, ts, context) == Some((ts, context))
  {
    OutermostIsNode(d, ts, context);
    if LeadsWithId(d, ts, context) { ShortcutKeepsQuery(d, ts); }
  }

  /** select, for one selector: exactly when its result is the query's answer, in document order */
  method Select(engine: Sizzle, d: Page, selector: seq<Token>, context0: Path) returns (results: seq<Path>)
    requires engine.Valid() && selector != []
    requires WellFormed(d.tree) && UniqueIds(d) && Searchable(d.tree, context0)
    modifies engine
    ensures engine.Valid()
    ensures IsNode(d.tree, Outermost(d, selector, context0))
    ensures results == Query(d, selector, context0) <==>
            match StartOf(d, selector, context0)
            case None => true
            case Some((tokens, context)) => IsNode(d.tree, context) && SeedIsFaithful(d, tokens, context)
    ensures LookupsAgree(d) &&
            (d.xml ==> SeedIndex(d, selector, context0).None? || ContextBounds(d, selector, context0)) ==>
              results == Query(d, selector, context0)
    ensures var start := StartOf(d, selector, context0);
            start.Some? ==>
              IsNode(d.tree, start.value.1) && IsNode(d.tree, Outermost(d, start.value.0, start.value.1)) &&
                            results == Answered(d, start.value.0, start.value.1)
    ensures context0 == [] ==> results == FromDocument(d, selector)
  {
    StartKeepsQuery(d, selector, context0);
    var tokens, context := selector, context0;
    if LeadsWithId(d, tokens, context) {
      ShortcutKeepsQuery(d, tokens);
      var found := Found(d, tokens[0].filter, context).value;
      if found == [] { return []; }
      context := found[0];
      tokens := tokens[1..];
    }
    assert StartOf(d, selector, context0) == Some((tokens, context));
    AnsweredIsQuery(d, tokens, context);
    if LookupsAgree(d) && (SeedIndex(d, tokens, context).None? || ContextBounds(d, tokens, context)) {
      AgreeingLookupsAnswerQuery(d, tokens, context);
    }
    hide SeedIsFaithful, LookupsAgree, Answered, Query, StartOf, Found;
    results := RunFrom(engine, d, tokens, context);
  }

  /** The seed, and the compiled rest run on it. */
  method RunFrom(engine: Sizzle, d: Page, tokens: seq<Token>, context: Path) returns (results: seq<Path>)
    requires engine.Valid() && tokens != []
    requires WellFormed(d.tree) && UniqueIds(d) && Searchable(d.tree, context)
    modifies engine
    ensures engine.Valid()
    ensures IsNode(d.tree, Outermost(d, tokens, context)) && results == Answered(d, tokens, context)
  {
    var seed, rest := FetchSeed(d, tokens, context);
    if seed.Some? && (seed.value == [] || rest == []) { return seed.value; }
    ElementsKept(d.tree, Outermost(d, tokens, context));
    var elems := if seed.Some? then seed.value else Elements(d.tree, Outermost(d, rest, context));
    hide Answered;
    results := RunOne(engine, d, rest, context, elems);
  }

  // ---------------------------------------------------------------- all selectors on one page

  /** What select returns from the document. */
  ghost function FromDocument(d: Page, ts: seq<Token>): seq<Path>
    requires WellFormed(d.tree) && UniqueIds(d) && ts != []
  {
    StartKeepsQuery(d, ts, []);
    match StartOf(d, ts, [])
    case None => []
    case Some((rest, start)) => Answered(d, rest, start)
  }

  /** A filter that a seed of the document can be fetched for. */
  predicate Seeds(d: Page, f: Filter) {
    !d.lex.needsContext(f) && Found(d, f, []).Some?
  }

  ghost predicate FetchedWhereItHolds(d: Page, f: Filter) {
    forall p | IsElement(d.tree, p) :: d.fetched(f, p) == d.holds(f, p)
  }

  lemma AllBelowDocument(d: Page, ts: seq<Token>)
    requires IsDocument(d.tree, [])
    ensures Outermost(d, ts, []) == [] && StaysBelow(d, ts, [])
  {
    forall p | IsElement(d.tree, p) ensures Under([], p) {}
  }

  /** One element below the context that the rest selects, and on which lookup and filter differ. */
  lemma {:induction false} OneDiffers(d: Page, ts: seq<Token>, context: Path, i: nat, p: Path)
    requires ts != [] && Searchable(d.tree, context) && UniqueIds(d)
    requires SeedIndex(d, ts, context) == Some(i) && i < |ts| && ts[i].Simple?
    requires IsElement(d.tree, p) && Under(context, p) && Selects(EnvOf(d, context), Parse(Rest(ts, i)), p)
    requires d.fetched(ts[i].filter, p) != d.holds(ts[i].filter, p)
    ensures IsNode(d.tree, Outermost(d, ts, context)) && Answered(d, ts, context) != Query(d, ts, context)
  {
    AnsweredIsQuery(d, ts, context);
    hide Answered, Query, SeedIndex;
  }

  /** The selector of one such filter alone shows where lookup and filter differ. */
  lemma LoneDiffers(d: Page, f: Filter, p: Path)
    requires UniqueIds(d) && IsDocument(d.tree, []) && Seeds(d, f)
    requires IsElement(d.tree, p) && d.fetched(f, p) != d.holds(f, p)
    ensures Answered(d, [Simple(f)], []) != Query(d, [Simple(f)], [])
  {
    var ts := [Simple(f)];
    assert Rest(ts, 0) == [];
    assert SeedIndex(d, ts, []) == Some(0);
    NoTokens(d, [], p);
    assert Under([], p);
    hide SeedIndex, Found, Answered, Query, IsElement, Selects, Seeds, UniqueIds;
    OneDiffers(d, ts, [], 0, p);
  }

  lemma LoneFilterShows(d: Page, f: Filter)
    requires WellFormed(d.tree) && UniqueIds(d) && IsDocument(d.tree, []) && Seeds(d, f)
    requires FromDocument(d, [Simple(f)]) == Query(d, [Simple(f)], [])
    ensures FetchedWhereItHolds(d, f)
  {
    forall p | IsElement(d.tree, p) ensures d.fetched(f, p) == d.holds(f, p) {
      if d.fetched(f, p) != d.holds(f, p) { LoneDiffers(d, f, p); }
    }
  }

  lemma SeededRunIsRight(d: Page, ts: seq<Token>, context: Path)
    requires UniqueIds(d) && ts != [] && Searchable(d.tree, context) && IsDocument(d.tree, [])
    requires context == [] || !d.xml
    requires forall f | Seeds(d, f) :: FetchedWhereItHolds(d, f)
    ensures IsNode(d.tree, Outermost(d, ts, context)) && Answered(d, ts, context) == Query(d, ts, context)
  {
    AnsweredIsQuery(d, ts, context);
    if SeedIndex(d, ts, context).Some? {
      SeedFromMeans(d, ts, |ts|, context);
      var f := ts[SeedIndex(d, ts, context).value].filter;
      assert Seeds(d, f) && FetchedWhereItHolds(d, f);
      if context == [] { AllBelowDocument(d, ts); } else { BoundedStaysBelow(d, ts, context); }
    }
  }

  /**
   From the document all selectors are answered right exactly when every filter that can seed the search is fetched
   where it holds and nowhere else.
  */
  lemma DocumentIsAnsweredRight(d: Page)
    requires WellFormed(d.tree) && UniqueIds(d) && IsDocument(d.tree, [])
    ensures (forall ts | ts != [] :: Outermost(d, ts, []) == [] && FromDocument(d, ts) == Query(d, ts, [])) <==>
            forall f | Seeds(d, f) :: FetchedWhereItHolds(d, f)
  {
    forall ts ensures Outermost(d, ts, []) == [] { AllBelowDocument(d, ts); }
    if forall f | Seeds(d, f) :: FetchedWhereItHolds(d, f) {
      forall ts | ts != [] ensures FromDocument(d, ts) == Query(d, ts, []) {
        StartKeepsQuery(d, ts, []);
        if StartOf(d, ts, []).Some? {
          var (rest, start) := StartOf(d, ts, []).value;
          SeededRunIsRight(d, rest, start);
        }
      }
    }
    if forall ts | ts != [] :: Outermost(d, ts, []) == [] && FromDocument(d, ts) == Query(d, ts, []) {
      forall f | Seeds(d, f) ensures FetchedWhereItHolds(d, f) {
        assert FromDocument(d, [Simple(f)]) == Query(d, [Simple(f)], []);
        LoneFilterShows(d, f);
      }
    }
  }

  // ---------------------------------------------------------------- pages where it is not

  /** A document with one element inside another. */
  function SmallPage(xml: bool, lex: Lexicon, holds: (Filter, Path) -> bool, fetched: (Filter, Path) -> bool): Page {
    Page(Tree(Document, [Tree(Element, [Tree(Element, [])])]), xml, lex, holds, fetched, true)
  }

  lemma SmallTree(d: Page)
    requires d.tree == Tree(Document, [Tree(Element, [Tree(Element, [])])])
    ensures WellFormed(d.tree) && Searchable(d.tree, []) && IsElement(d.tree, [0, 0]) && Under([], [0, 0])
  {
    assert [0, 0][1..] == [0] && [0][1..] == [] && [0, 0][..0] == [];
  }

  /**
   XML, from the document: <r><Item/></r> and the selector item.  The filter minds no case, the lookup does, and
   the element the query answers is not fetched.
  */
  lemma {:induction false} XmlTagCase()
    ensures var d := SmallPage(true, Lexicon(_ => ByTag, _ => false, _ => false), (_, p) => p == [0, 0],
                               (_, _) => false);
            WellFormed(d.tree) && UniqueIds(d) && ContextBounds(d, [Simple(0)], []) &&
            Answered(d, [Simple(0)], []) != Query(d, [Simple(0)], [])
  {
    var d := SmallPage(true, Lexicon(_ => ByTag, _ => false, _ => false), (_, p) => p == [0, 0], (_, _) => false);
    SmallTree(d);
    assert Found(d, 0, []).Some?;
    hide Answered, Query, IsElement, WellFormed, Found;
    LoneDiffers(d, 0, [0, 0]);
  }

  /**
   HTML in quirks mode: .Foo:contains(x) where the class is foo.  The lookup ignores case, the filter would not,
   and the token is not tested any more.
  */
  lemma QuirksClassCase()
    ensures var d := SmallPage(false, Lexicon(f => if f == 0 then ByClass else NoFind, _ => false, _ => false),
                               (f, _) => f == 1, (f, _) => f == 0);
            WellFormed(d.tree) && UniqueIds(d) &&
            Answered(d, [Simple(0), Simple(1)], []) != Query(d, [Simple(0), Simple(1)], [])
  {
    var d := SmallPage(false, Lexicon(f => if f == 0 then ByClass else NoFind, _ => false, _ => false),
                       (f, _) => f == 1, (f, _) => f == 0);
    var ts, p: Path := [Simple(0), Simple(1)], [0, 0];
    SmallTree(d);
    assert Rest(ts, 0) == [Simple(1)];
    NoTokens(d, [], p);
    OnlySimple(EnvOf(d, []), 1, p);
    assert SeedFrom(d, ts, 1, []) == Some(0);
    assert SeedIndex(d, ts, []) == Some(0);
    hide Answered, Query, IsElement, SeedIndex, Selects;
    OneDiffers(d, ts, [], 0, p);
  }

  /** The same page with other filters, each fetched where it holds. */
  function With(d: Page, h: (Filter, Path) -> bool): Page {
    d.(holds := h, fetched := h)
  }

  function Every(): (Filter, Path) -> bool {
    (_, _) => true
  }

  lemma MoreHolds(d: Page, h: (Filter, Path) -> bool, ts: seq<Token>, context: Path, p: Path)
    requires Selects(EnvOf(With(d, h), context), Parse(ts), p)
    ensures Selects(EnvOf(With(d, Every()), context), Parse(ts), p)
  {
    var e, e', s := EnvOf(With(d, h), context), EnvOf(With(d, Every()), context), Parse(ts);
    var ns :| Assigns(e, s, ns) && ns[|ns| - 1] == p;
    forall i | 0 <= i < |ns| ensures Node(e', s, ns, i) { assert Node(e, s, ns, i); }
    forall i | 0 <= i < |s.rels| ensures Link(e', s, ns, i) { assert Link(e, s, ns, i); }
    assert ContextAllows(e', s.lead, ns[0]);
    assert Assigns(e', s, ns);
  }

  /**
   In XML the context decides it: whatever the filters are, as long as lookups agree with them, select answers
   the query exactly when there is no seed or no element outside the context can be reached by the selector's
   combinators alone.
  */
  lemma XmlAnswersQueryForAllFilters(d: Page, ts: seq<Token>, context: Path)
    requires d.xml && ts != [] && Searchable(d.tree, context)
    ensures IsNode(d.tree, Outermost(d, ts, context))
    ensures (forall h :: Answered(With(d, h), ts, context) == Query(With(d, h), ts, context))
            <==> SeedIndex(d, ts, context).None? || StaysBelow(With(d, Every()), ts, context)
  {
    OutermostIsNode(d, ts, context);
    forall h ensures SeedIndex(With(d, h), ts, context) == SeedIndex(d, ts, context) {
      SeedKeepsIndex(d, h, ts, context);
    }
    if SeedIndex(d, ts, context).Some? {
      forall h
        ensures Answered(With(d, h), ts, context) == Query(With(d, h), ts, context) <==>
                StaysBelow(With(d, h), ts, context)
      {
        AnsweredIsQuery(With(d, h), ts, context);
        SeedKeepsIndex(d, h, ts, context);
        SeedFromMeans(With(d, h), ts, |ts|, context);
      }
      if StaysBelow(With(d, Every()), ts, context) {
        forall h ensures StaysBelow(With(d, h), ts, context) { StaysBelowForLess(d, h, ts, context); }
      }
    }
  }

  lemma StaysBelowForLess(d: Page, h: (Filter, Path) -> bool, ts: seq<Token>, context: Path)
    requires StaysBelow(With(d, Every()), ts, context)
    ensures StaysBelow(With(d, h), ts, context)
  {
    assert Outermost(With(d, h), ts, context) == Outermost(With(d, Every()), ts, context);
    forall p | IsElement(d.tree, p) && Under(Outermost(With(d, h), ts, context), p) && !Under(context, p)
      ensures !Selects(EnvOf(With(d, h), context), Parse(ts), p)
    {
      if Selects(EnvOf(With(d, h), context), Parse(ts), p) { MoreHolds(d, h, ts, context, p); }
    }
  }

  lemma {:induction false} SeedKeepsFrom(d: Page, h: (Filter, Path) -> bool, ts: seq<Token>, n: nat, context: Path)
    requires n <= |ts| && IsNode(d.tree, context)
    ensures SeedFrom(With(d, h), ts, n, context) == SeedFrom(d, ts, n, context)
  {
    if n > 0 {
      SeedKeepsFrom(d, h, ts, n - 1, context);
      hide Kept, Elements;
    }
  }

  lemma SeedKeepsIndex(d: Page, h: (Filter, Path) -> bool, ts: seq<Token>, context: Path)
    requires IsNode(d.tree, context)
    ensures SeedIndex(With(d, h), ts, context) == SeedIndex(d, ts, context)
  {
    SeedKeepsFrom(d, h, ts, |ts|, context);
    assert NeedsContext(With(d, h), ts) == NeedsContext(d, ts);
  }

  /** Without combinators every element below the outermost node can be reached. */
  lemma CompoundReachesAll(d: Page, ts: seq<Token>, context: Path)
    requires d.xml && ts != [] && forall k :: 0 <= k < |ts| ==> ts[k].Simple?
    ensures StaysBelow(With(d, Every()), ts, context) <==>
            forall p :: IsElement(d.tree, p) && Under(Outermost(d, ts, context), p) ==> Under(context, p)
  {
    var d' := With(d, Every());
    assert Outermost(d', ts, context) == Outermost(d, ts, context);
    forall p | IsElement(d.tree, p) ensures Selects(EnvOf(d', context), Parse(ts), p) {
      CompoundSelects(d', ts, context, p);
    }
    hide Selects, Parse, Outermost, EnvOf, IsElement, Under;
  }

  lemma {:induction false} CompoundSelects(d: Page, ts: seq<Token>, context: Path, p: Path)
    requires d.xml && (forall k :: 0 <= k < |ts| ==> ts[k].Simple?) && IsElement(d.tree, p) &&
             forall f, q :: d.holds(f, q)
    ensures Selects(EnvOf(d, context), Parse(ts), p)
  {
    var e := EnvOf(d, context);
    if ts == [] {
      assert Assigns(e, Parse([]), [p]);
    } else {
      var n := |ts| - 1;
      CompoundSelects(d, ts[..n], context, p);
      SelectsSimple(e, Parse(ts[..n]), ts[n].filter, p);
    }
  }

  /** One element outside the context that the selector selects, while a seed is fetched below it. */
  lemma OneOutside(d: Page, ts: seq<Token>, context: Path, i: nat, p: Path)
    requires ts != [] && Searchable(d.tree, context) && UniqueIds(d) && SeedIndex(d, ts, context) == Some(i)
    requires IsElement(d.tree, p) && Under(Outermost(d, ts, context), p) && !Under(context, p)
    requires Selects(EnvOf(d, context), Parse(ts), p)
    ensures IsNode(d.tree, Outermost(d, ts, context)) && Answered(d, ts, context) != Query(d, ts, context)
  {
    AnsweredIsQuery(d, ts, context);
    hide Answered, Query, SeedIndex, Selects, SeedAgrees;
  }

  /**
   XML with lookups that agree: y[a~=b] from the first of two siblings that are both y and [a~=b].  The ~ in its
   text widens the query to the parent, but the seed is fetched from the context alone.
  */
  lemma {:induction false} XmlSeedNarrows()
    ensures var y := Tree(Element, []);
            var d := Page(Tree(Document, [Tree(Element, [y, y])]), true,
                          Lexicon(f => if f == 0 then ByTag else NoFind, f => f == 1, _ => false),
                          Every(), Every(), true);
            LookupsAgree(d) && Searchable(d.tree, [0, 0]) &&
            IsNode(d.tree, Outermost(d, [Simple(0), Simple(1)], [0, 0])) &&
            Answered(d, [Simple(0), Simple(1)], [0, 0]) != Query(d, [Simple(0), Simple(1)], [0, 0])
  {
    var y := Tree(Element, []);
    var d := Page(Tree(Document, [Tree(Element, [y, y])]), true,
                  Lexicon(f => if f == 0 then ByTag else NoFind, f => f == 1, _ => false),
                  Every(), Every(), true);
    var ts, context, p: Path := [Simple(0), Simple(1)], [0, 0], [0, 1];
    Siblings(d.tree, y);
    assert ts[1] == Simple(1) && HasSibling(d, ts) && Outermost(d, ts, context) == [0];
    CompoundSelects(d, ts, context, p);
    assert SeedFrom(d, ts, 1, context) == Some(0) && SeedIndex(d, ts, context) == Some(0);
    hide Answered, Query, SeedIndex, SeedAgrees, IsElement, IsNode, Selects, Parse, HasSibling, Outermost, Under;
    OneOutside(d, ts, context, 0, p);
  }

  lemma Siblings(t: Tree, y: Tree)
    requires y == Tree(Element, []) && t == Tree(Document, [Tree(Element, [y, y])])
    ensures Searchable(t, [0, 0]) && IsElement(t, [0, 1]) && Under([0], [0, 1]) && !Under([0, 0], [0, 1])
  {
    var z := Tree(Element, [y, y]);
    assert t.kids[0] == z && z.kids[0] == y && z.kids[1] == y;
    assert [0, 0][1..] == [0] && [0, 1][1..] == [1] && [0][1..] == [] && [1][1..] == [];
    assert IsNode(z, [0]) && IsElement(z, [0]) && IsElement(z, [1]) && [0, 1][..1] == [0];
  }
}
