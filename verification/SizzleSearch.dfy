/**
 A whole search, from the selector's text to the elements found: read through the token cache, cut down by
 select's edits, compiled through compile's cache and run on the seed.
*/
module SizzleSearch {
  import opened Lists
  import opened Dom
  import opened DomListing
  import opened SizzleMatcher
  import opened SizzleEngine
  import opened SizzleSelect
  import opened SizzleSelectTokens
  import opened SizzleReread
  import opened SizzleCompile
  import T = SizzleTokenize

  /** A page, and how a selector's text is understood on it. */
  datatype Setting = Setting(page: Page, reading: Reading, relative: string -> bool, needsContext: string -> bool)
  {
    /** What the page's lookups find for a token, from this node. */
    function Lookups(context: Path): T.Lookup
      requires IsNode(page.tree, context)
    {
      t => match reading(t) case Rel(_) => None case Simple(f) => Found(page, f, context)
    }

    /** The tokens' kinds say what they stand for. */
    ghost predicate KindsFit() {
      !relative("ID") &&
      forall t: T.TextToken ::
        (reading(t).Rel? <==> relative(t.kind)) &&
        (reading(t).Simple? ==> (t.kind == "ID" <==> page.lex.find(reading(t).filter) == ById))
    }

    /** The test on the text comes to that on the tokens. */
    ghost predicate ContextFits(tokens: seq<T.TextToken>) {
      needsContext(T.Text(tokens)) <==> NeedsContext(page, Meaning(reading, tokens))
    }

    function Start(tokens: seq<T.TextToken>, context: Path): Option<(seq<Token>, Path)>
      requires IsNode(page.tree, context)
    {
      StartOf(page, Meaning(reading, tokens), context)
    }

    function Shortened(tokens: seq<T.TextToken>, context: Path): seq<T.TextToken> {
      T.Shortened(tokens, IsDocument(page.tree, context) && !page.xml, relative)
    }

    /** These tokens, and this seed, are what select's edits leave from this context. */
    ghost predicate CutTo(before: seq<T.TextToken>, after: seq<T.TextToken>, left: string, seed: Option<T.Nodes>,
                          context: Path)
      requires IsNode(page.tree, context)
    {
      T.Edited(before, after, T.Go(left), needsContext, relative, Lookups(context)) &&
      T.SeedIs(before, seed, needsContext, relative, Lookups(context))
    }

    lemma LookupsFit(context: Path)
      requires IsNode(page.tree, context) && KindsFit()
      ensures Fits(page, context, reading, relative, Lookups(context))
    {
      hide Found;
    }
  }

  // ---------------------------------------------------------------- what is run, and on which elements

  /** The elements fetched for the seeding token, or all in question. */
  function Candidates(d: Page, ts: seq<Token>, context: Path): seq<Path>
    requires IsNode(d.tree, context) && IsNode(d.tree, Outermost(d, ts, context))
  {
    match SeedIndex(d, ts, context)
    case None => Elements(d.tree, Outermost(d, ts, context))
    case Some(i) =>
      SeedFromMeans(d, ts, |ts|, context);
      Found(d, ts[i].filter, context).value
  }

  /** The tokens left to be tested. */
  function Untested(d: Page, ts: seq<Token>, context: Path): seq<Token>
    requires IsNode(d.tree, context)
  {
    match SeedIndex(d, ts, context)
    case None => ts
    case Some(i) =>
      SeedFromMeans(d, ts, |ts|, context);
      Rest(ts, i)
  }

  lemma AnsweredIs(d: Page, ts: seq<Token>, context: Path)
    requires IsNode(d.tree, context) && IsNode(d.tree, Outermost(d, ts, context))
    ensures Answered(d, ts, context) == Kept(Candidates(d, ts, context), Chosen(d, Untested(d, ts, context), context))
  {
    hide Found, Outermost, Chosen;
  }

  /** On these elements both groups of tokens select the same. */
  ghost predicate AlikeOn(d: Page, reading: Reading, context: Path, elems: seq<Path>, g: Groups, g': Groups) {
    forall p :: p in elems ==>
      (Selected(EnvOf(d, context), Meanings(reading, g), p) <==> Selected(EnvOf(d, context), Meanings(reading, g'), p))
  }

  lemma RunsTheSame(d: Page, reading: Reading, context: Path, elems: seq<Path>, g: Groups, g': Groups)
    ensures Kept(elems, KeptBy(reading, EnvOf(d, context), g)) ==
            Kept(elems, KeptBy(reading, EnvOf(d, context), g')) <==>
            AlikeOn(d, reading, context, elems, g, g')
  {
    hide Selected, EnvOf, Meanings;
    KeptExactly(elems, KeptBy(reading, EnvOf(d, context), g), KeptBy(reading, EnvOf(d, context), g'));
  }

  lemma OneGroupKept(d: Page, reading: Reading, context: Path, elems: seq<Path>, after: seq<T.TextToken>)
    ensures Kept(elems, KeptBy(reading, EnvOf(d, context), [after])) ==
            Kept(elems, Chosen(d, Meaning(reading, after), context))
  {
    var e := EnvOf(d, context);
    forall p ensures Selected(e, Meanings(reading, [after]), p) <==> Selects(e, Parse(Meaning(reading, after)), p) {
      assert Meanings(reading, [after])[0] == Meaning(reading, after);
    }
    hide EnvOf, Selects, Parse, Meanings, Meaning, Selected;
    KeptSame(elems, KeptBy(reading, e, [after]), Chosen(d, Meaning(reading, after), context));
  }

  // ---------------------------------------------------------------- select's edits on this page

  /** The seed is what is fetched for the seeding token. */
  lemma SeedIsFound(s: Setting, before: seq<T.TextToken>, seed: Option<T.Nodes>, context: Path)
    requires IsNode(s.page.tree, context) && s.KindsFit() && s.ContextFits(before)
    requires T.SeedIs(before, seed, s.needsContext, s.relative, s.Lookups(context))
    ensures var i := SeedIndex(s.page, Meaning(s.reading, before), context);
            match seed
            case None => i.None?
            case Some(nodes) =>
              i.Some? && i.value < |before| && Meaning(s.reading, before)[i.value].Simple? &&
              Found(s.page, Meaning(s.reading, before)[i.value].filter, context) == Some(nodes)
  {
    var find := s.Lookups(context);
    s.LookupsFit(context);
    SeedFromSeeds(s.page, context, s.reading, s.relative, find, before, |before|);
    if seed.Some? && !NeedsContext(s.page, Meaning(s.reading, before)) {
      var i :| T.SeedsAt(before, i, s.relative, find) && find(before[i]) == seed;
      var k := SeedIndex(s.page, Meaning(s.reading, before), context);
      assert k.Some? && T.SeedsAt(before, k.value, s.relative, find);
      SeedsOnce(before, i, k.value, s.relative, find);
      assert s.reading(before[i]) == Meaning(s.reading, before)[i];
    }
    hide Found, NeedsContext, T.Text;
  }

  /** What is left to run, and on which elements. */
  lemma CutIsUntested(s: Setting, before: seq<T.TextToken>, after: seq<T.TextToken>, left: string,
                      seed: Option<T.Nodes>, context: Path)
    requires IsNode(s.page.tree, context) && s.KindsFit() && s.ContextFits(before) && T.NoneEmpty(before)
    requires s.CutTo(before, after, left, seed, context)
    ensures var ts := Meaning(s.reading, before);
            IsNode(s.page.tree, Outermost(s.page, ts, context)) &&
            Meaning(s.reading, after) == Untested(s.page, ts, context) &&
            Candidates(s.page, ts, context) ==
              if seed.Some? then seed.value else Elements(s.page.tree, Outermost(s.page, ts, context))
  {
    var ts := Meaning(s.reading, before);
    OutermostIsNode(s.page, ts, context);
    s.LookupsFit(context);
    SeedIsFound(s, before, seed, context);
    EditIsSeeding(s.page, context, s.reading, s.relative, s.Lookups(context), s.needsContext, before, after,
                  T.Go(left));
    hide Found, Outermost, SeedIndex, Meaning, T.Edited, T.SeedIs, Fits, NeedsContext;
    if seed.Some? { SeedFromMeans(s.page, ts, |ts|, context); }
  }

  /** A seed that is all there is answers the query as far as the seed can. */
  lemma SeedIsAnswered(s: Setting, before: seq<T.TextToken>, nodes: T.Nodes, context: Path)
    requires Searchable(s.page.tree, context) && UniqueIds(s.page)
    requires s.KindsFit() && s.ContextFits(before) && T.NoneEmpty(before)
    requires T.Edited(before, [], T.SeedOnly(nodes), s.needsContext, s.relative, s.Lookups(context))
    ensures var ts := Meaning(s.reading, before);
            IsNode(s.page.tree, Outermost(s.page, ts, context)) && nodes == Answered(s.page, ts, context)
  {
    var ts := Meaning(s.reading, before);
    OutermostIsNode(s.page, ts, context);
    s.LookupsFit(context);
    EditIsSeeding(s.page, context, s.reading, s.relative, s.Lookups(context), s.needsContext, before, [],
                  T.SeedOnly(nodes));
    var i := SeedIndex(s.page, ts, context).value;
    if Rest(ts, i) == [] { SeedIsAnswer(s.page, ts[i].filter, context); }
    hide Found, Outermost, SeedIndex, Meaning, T.Edited, T.SeedIs, Fits, NeedsContext, Chosen;
  }

  // ---------------------------------------------------------------- select, up to the compiled function

  /** What is to be done for a selector: nothing more, or a run of compiled tokens under a text. */
  datatype Plan = Fails | Done(results: seq<Path>)
                | RunOn(left: string, groups: Groups, context: Path, elems: seq<Path>)

  /** The search that is left behind the shortcut. */
  ghost predicate StartsAt(s: Setting, tokens: seq<T.TextToken>, context0: Path, ts: seq<Token>, context: Path)
    requires IsNode(s.page.tree, context0)
  {
    && s.Start(tokens, context0) == Some((ts, context))
    && ts != [] && Searchable(s.page.tree, context) && IsNode(s.page.tree, Outermost(s.page, ts, context))
    && ts == Meaning(s.reading, s.Shortened(tokens, context0))
    && Query(s.page, ts, context) == Wanted(s, tokens, context0)
  }

  /** The full selector asked of every candidate. */
  ghost function Wanted(s: Setting, tokens: seq<T.TextToken>, context0: Path): seq<Path>
    requires IsNode(s.page.tree, context0)
  {
    OutermostIsNode(s.page, Meaning(s.reading, tokens), context0);
    Query(s.page, Meaning(s.reading, tokens), context0)
  }

  lemma Started(s: Setting, tokens: seq<T.TextToken>, context0: Path)
    requires WellFormed(s.page.tree) && UniqueIds(s.page) && Searchable(s.page.tree, context0) && tokens != []
    requires s.KindsFit()
    ensures T.LeadsWithIdToken(tokens, IsDocument(s.page.tree, context0) && !s.page.xml, s.relative) ||
            s.Start(tokens, context0) == Some((Meaning(s.reading, tokens), context0))
    ensures match s.Start(tokens, context0)
            case None =>
              T.LeadsWithIdToken(tokens, IsDocument(s.page.tree, context0) && !s.page.xml, s.relative) &&
              Wanted(s, tokens, context0) == []
            case Some((ts, context)) => StartsAt(s, tokens, context0, ts, context)
  {
    var ts := Meaning(s.reading, tokens);
    StartKeepsQuery(s.page, ts, context0);
    ShortcutIsStart(s.page, context0, s.reading, s.relative, tokens);
    hide Found, Query, Outermost, Meaning, T.LeadsWithIdToken, UniqueIds, LeadsWithId;
  }

  /** What a lone selector's plan comes to. */
  ghost predicate LonePlan(s: Setting, tokens: seq<T.TextToken>, context0: Path, plan: Plan)
    requires IsNode(s.page.tree, context0)
  {
    match plan
    case Fails => false
    case Done(results) =>
      (match s.Start(tokens, context0)
       case None => results == [] && Wanted(s, tokens, context0) == []
       case Some((ts, context)) =>
         StartsAt(s, tokens, context0, ts, context) && results == Answered(s.page, ts, context))
    case RunOn(left, groups, context, elems) =>
      IsNode(s.page.tree, context) && |groups| == 1 && groups[0] != [] &&
      T.Edited(s.Shortened(tokens, context0), groups[0], T.Go(left), s.needsContext, s.relative, s.Lookups(context)) &&
      exists ts: seq<Token> {:trigger StartsAt(s, tokens, context0, ts, context)} ::
        StartsAt(s, tokens, context0, ts, context) && Meaning(s.reading, groups[0]) == Untested(s.page, ts, context) &&
        elems == Candidates(s.page, ts, context)
  }

  /** The tokens cannot be misread on this page. */
  ghost predicate Legible(s: Setting, tokens: seq<T.TextToken>, context0: Path) {
    s.KindsFit() && tokens != [] && T.NoneEmpty(tokens) && s.ContextFits(s.Shortened(tokens, context0))
  }

  lemma SeededPlan(s: Setting, tokens: seq<T.TextToken>, context0: Path, ts: seq<Token>, context: Path, nodes: T.Nodes)
    requires Searchable(s.page.tree, context0) && UniqueIds(s.page) && Legible(s, tokens, context0)
    requires StartsAt(s, tokens, context0, ts, context)
    requires T.Edited(s.Shortened(tokens, context0), [], T.SeedOnly(nodes), s.needsContext, s.relative,
                      s.Lookups(context))
    ensures LonePlan(s, tokens, context0, Done(nodes))
  {
    hide T.Edited, UniqueIds, Found, Answered, Query;
    FewerNotEmpty(s, tokens, context0);
    SeedIsAnswered(s, s.Shortened(tokens, context0), nodes, context);
  }

  lemma FewerNotEmpty(s: Setting, tokens: seq<T.TextToken>, context0: Path)
    requires T.NoneEmpty(tokens)
    ensures T.NoneEmpty(s.Shortened(tokens, context0))
  {
  }

  lemma RunPlan(s: Setting, tokens: seq<T.TextToken>, context0: Path, ts: seq<Token>, context: Path,
                after: seq<T.TextToken>, left: string, seed: Option<T.Nodes>, elems: seq<Path>)
    requires Searchable(s.page.tree, context0) && Legible(s, tokens, context0)
    requires StartsAt(s, tokens, context0, ts, context)
    requires s.CutTo(s.Shortened(tokens, context0), after, left, seed, context)
    requires elems == if seed.Some? then seed.value else Elements(s.page.tree, Outermost(s.page, ts, context))
    ensures LonePlan(s, tokens, context0, RunOn(left, [after], context, elems))
  {
    hide T.Edited, T.SeedIs, Found, Candidates, Untested, Query, Outermost, NeedsContext;
    var before := s.Shortened(tokens, context0);
    FewerNotEmpty(s, tokens, context0);
    CutIsUntested(s, before, after, left, seed, context);
    assert before != [];
    EditLeavesSome(before, after, left, s.needsContext, s.relative, s.Lookups(context));
  }

  /** select, for a selector of one group, up to where it compiles. */
  method PlanLone(s: Setting, list: T.GroupList, selector: string, context0: Path) returns (plan: Plan)
    requires |list.groups| == 1 && T.Text(list.groups[0].tokens) == selector
    requires WellFormed(s.page.tree) && UniqueIds(s.page) && Searchable(s.page.tree, context0)
    requires Legible(s, list.groups[0].tokens, context0)
    modifies list
    ensures LonePlan(s, old(list.groups[0].tokens), context0, plan)
  {
    ghost var tokens := list.groups[0].tokens;
    Started(s, tokens, context0);
    var start := s.Start(list.groups[0].tokens, context0);
    var context := if start.Some? then start.value.1 else context0;
    var onDocument := IsDocument(s.page.tree, context0) && !s.page.xml;
    hide T.Edited, T.SeedIs, Found, UniqueIds, Legible, StartsAt, LonePlan, Outermost, T.LeadsWithIdToken, StartOf;
    var reduction := T.ReduceAlone(list, selector, onDocument, start.Some?, s.needsContext, s.relative,
                                   s.Lookups(context));
    match reduction
    case NoContext => plan := Done([]); DonePlan(s, tokens, context0);
    case Seeded(nodes) =>
      SeededPlan(s, tokens, context0, start.value.0, context, nodes);
      plan := Done(nodes);
    case Run(left, _, seed) =>
      var after := list.groups[0].tokens;
      StartIsNode(s, tokens, context0, start.value.0, context);
      var elems := if seed.Some? then seed.value
                   else Elements(s.page.tree, Outermost(s.page, start.value.0, context));
      RunPlan(s, tokens, context0, start.value.0, context, after, left, seed, elems);
      plan := RunOn(left, [after], context, elems);
  }

  lemma DonePlan(s: Setting, tokens: seq<T.TextToken>, context0: Path)
    requires IsNode(s.page.tree, context0) && s.Start(tokens, context0).None? && Wanted(s, tokens, context0) == []
    ensures LonePlan(s, tokens, context0, Done([]))
  {
  }

  lemma StartIsNode(s: Setting, tokens: seq<T.TextToken>, context0: Path, ts: seq<Token>, context: Path)
    requires IsNode(s.page.tree, context0) && StartsAt(s, tokens, context0, ts, context)
    ensures IsNode(s.page.tree, Outermost(s.page, ts, context))
  {
  }

  lemma CandidatesAreElements(d: Page, ts: seq<Token>, context: Path)
    requires Searchable(d.tree, context) && UniqueIds(d) && IsNode(d.tree, Outermost(d, ts, context))
    ensures forall p :: p in Candidates(d, ts, context) ==> IsElement(d.tree, p)
  {
    match SeedIndex(d, ts, context)
    case None => ElementsKept(d.tree, Outermost(d, ts, context));
    case Some(i) =>
      SeedFromMeans(d, ts, |ts|, context);
      SeedFromRoot(d, ts[i].filter, [], context);
      ElementsKept(d.tree, context);
      forall p | p in Found(d, ts[i].filter, context).value ensures IsElement(d.tree, p) {
        KeptIn(Elements(d.tree, context), Fetched(d, ts[i].filter), p);
      }
      hide Found, IsElement, UniqueIds, Outermost, Searchable;
  }

  /** What is planned to run can be. */
  ghost predicate CanRun(s: Setting, plan: Plan)
    requires plan.RunOn?
  {
    (forall p :: p in plan.elems ==> IsElement(s.page.tree, p)) && forall g :: g in plan.groups ==> g != []
  }

  lemma LoneRuns(s: Setting, tokens: seq<T.TextToken>, context0: Path, plan: Plan)
    requires UniqueIds(s.page) && IsNode(s.page.tree, context0) && LonePlan(s, tokens, context0, plan) && plan.RunOn?
    ensures CanRun(s, plan)
  {
    hide UniqueIds, IsElement, Candidates, Untested, T.Edited, Query, Outermost, Meaning, StartOf;
    var ts: seq<Token> :| StartsAt(s, tokens, context0, ts, plan.context) &&
                          plan.elems == Candidates(s.page, ts, plan.context);
    CandidatesAreElements(s.page, ts, plan.context);
  }

  // ---------------------------------------------------------------- the whole search

  /** The seeded run answers the query, wherever the shortcut left it to start. */
  ghost predicate FaithfulFrom(s: Setting, tokens: seq<T.TextToken>, context0: Path)
    requires IsNode(s.page.tree, context0)
  {
    match s.Start(tokens, context0)
    case None => true
    case Some((ts, context)) => IsNode(s.page.tree, context) && SeedIsFaithful(s.page, ts, context)
  }

  /**
   Whether this is what should be found.  Without a run: exactly if the seed is faithful.  With one: if also the tokens
   that the matchers were compiled from select the same of the elements run as the tokens left do; and not with one of
   the two alone.
  */
  ghost predicate RightExactly(s: Setting, tokens: seq<T.TextToken>, context0: Path, plan: Plan, origin: Groups,
                               found: seq<Path>)
    requires IsNode(s.page.tree, context0)
  {
    var right, faithful := found == Wanted(s, tokens, context0), FaithfulFrom(s, tokens, context0);
    match plan
    case Fails => false
    case Done(_) => right <==> faithful
    case RunOn(_, groups, context, elems) =>
      var alike := AlikeOn(s.page, s.reading, context, elems, origin, groups);
      (faithful && alike ==> right) && (right ==> (faithful <==> alike))
  }

  lemma DoneIsRight(s: Setting, tokens: seq<T.TextToken>, context0: Path, plan: Plan)
    requires UniqueIds(s.page) && IsNode(s.page.tree, context0) && LonePlan(s, tokens, context0, plan) && plan.Done?
    ensures RightExactly(s, tokens, context0, plan, [], plan.results)
  {
    if s.Start(tokens, context0).Some? {
      var (ts, context) := s.Start(tokens, context0).value;
      AnsweredIsQuery(s.page, ts, context);
    }
    hide Answered, SeedIsFaithful, Query, UniqueIds, Outermost;
  }

  lemma RunIsRight(s: Setting, tokens: seq<T.TextToken>, context0: Path, plan: Plan, origin: Groups, found: seq<Path>)
    requires UniqueIds(s.page) && IsNode(s.page.tree, context0) && LonePlan(s, tokens, context0, plan) && plan.RunOn?
    requires found == Kept(plan.elems, KeptBy(s.reading, EnvOf(s.page, plan.context), origin))
    ensures RightExactly(s, tokens, context0, plan, origin, found)
  {
    var (ts, context) := s.Start(tokens, context0).value;
    assert StartsAt(s, tokens, context0, ts, context) && context == plan.context;
    assert plan.groups == [plan.groups[0]];
    AnsweredIsQuery(s.page, ts, context);
    AnsweredIs(s.page, ts, context);
    RunsTheSame(s.page, s.reading, context, plan.elems, origin, plan.groups);
    OneGroupKept(s.page, s.reading, context, plan.elems, plan.groups[0]);
    hide Answered, SeedIsFaithful, Query, UniqueIds, Outermost, AlikeOn, KeptBy, Chosen, Candidates, Untested, T.Edited,
         EnvOf, Kept;
  }

  /** With matchers whose origin selects alike on every page, as for texts read back so, it is the seed alone. */
  lemma SeedDecides(s: Setting, tokens: seq<T.TextToken>, context0: Path, plan: Plan, origin: Groups, found: seq<Path>)
    requires WellFormed(s.page.tree) && UniqueIds(s.page) && IsNode(s.page.tree, context0)
    requires LonePlan(s, tokens, context0, plan) && RightExactly(s, tokens, context0, plan, origin, found)
    requires plan.RunOn? ==> SelectAlike(s.reading, origin, plan.groups)
    ensures found == Wanted(s, tokens, context0) <==> FaithfulFrom(s, tokens, context0)
  {
    hide FaithfulFrom, Wanted, LonePlan, Selected, UniqueIds, WellFormed, Meanings, IsElement;
    if plan.RunOn? {
      LoneRuns(s, tokens, context0, plan);
      var e := EnvOf(s.page, plan.context);
      assert e.tree == s.page.tree;
      hide EnvOf;
      forall p | p in plan.elems
        ensures Selected(e, Meanings(s.reading, origin), p) <==> Selected(e, Meanings(s.reading, plan.groups), p)
      {
      }
    }
  }

  /** HTML in quirks mode, as for QuirksClassCase. */
  function QuirksPage(): Page {
    SmallPage(false, Lexicon(f => if f == 0 then ByClass else NoFind, _ => false, _ => false),
              (f, _) => f == 1, (f, _) => f == 0)
  }

  /**
   Two wrongs can make a right: .Foo:contains(x) where the class is foo, and the matchers found under the text left
   accept nothing.  The seed brings elements that it should not, and the matchers drop them.
  */
  lemma TwoWrongs(reading: Reading, after: seq<T.TextToken>, other: seq<T.TextToken>)
    requires Meaning(reading, after) == [Simple(1)] && Meaning(reading, other) == [Simple(2)]
    ensures var d, ts := QuirksPage(), [Simple(0), Simple(1)];
            && IsNode(d.tree, []) && IsNode(d.tree, Outermost(d, ts, []))
            && !SeedIsFaithful(d, ts, []) && !AlikeOn(d, reading, [], Candidates(d, ts, []), [other], [after])
            && Kept(Candidates(d, ts, []), KeptBy(reading, EnvOf(d, []), [other])) == Query(d, ts, [])
  {
    var d, ts := QuirksPage(), [Simple(0), Simple(1)];
    QuirksAnswer();
    AnsweredIs(d, ts, []);
    assert forall p :: !d.holds(0, p) && !d.holds(2, p);
    var elems := Candidates(d, ts, []);
    var query := Query(d, ts, []);
    assert query == Kept(Elements(d.tree, Outermost(d, ts, [])), Chosen(d, ts, []));
    hide *;
    OneGroupKept(d, reading, [], elems, other);
    OneGroupKept(d, reading, [], elems, after);
    RunsTheSame(d, reading, [], elems, [other], [after]);
    NothingHolds(d, ts, 2, Elements(d.tree, Outermost(d, ts, [])), elems);
  }

  lemma QuirksAnswer()
    ensures var d, ts := QuirksPage(), [Simple(0), Simple(1)];
            && IsNode(d.tree, []) && IsNode(d.tree, Outermost(d, ts, []))
            && Untested(d, ts, []) == [Simple(1)]
            && !SeedIsFaithful(d, ts, []) && Answered(d, ts, []) != Query(d, ts, [])
  {
    var d, ts := QuirksPage(), [Simple(0), Simple(1)];
    QuirksClassCase();
    QuirksSeeds();
    assert Rest(ts, 0) == [Simple(1)];
    assert Untested(d, ts, []) == Rest(ts, 0) by { hide SeedIndex, SmallPage, Rest; }
    hide *;
    AnsweredIsQuery(d, ts, []);
  }

  lemma QuirksSeeds()
    ensures var d, ts := QuirksPage(), [Simple(0), Simple(1)];
            IsNode(d.tree, []) && Searchable(d.tree, []) && SeedIndex(d, ts, []) == Some(0)
  {
    var d, ts := QuirksPage(), [Simple(0), Simple(1)];
    SmallTree(d);
    hide Elements, Kept, IsElement, WellFormed;
    assert Found(d, 1, []).None? && Found(d, 0, []).Some?;
    hide Found;
    assert SeedFrom(d, ts, 1, []) == Some(0);
  }

  lemma NothingHolds(d: Page, ts: seq<Token>, f: Filter, all: seq<Path>, elems: seq<Path>)
    requires ts == [Simple(0), Simple(1)] && forall p :: !d.holds(0, p) && !d.holds(f, p)
    ensures Kept(all, Chosen(d, ts, [])) == [] && Kept(elems, Chosen(d, [Simple(f)], [])) == []
  {
    forall p ensures !Chosen(d, ts, [])(p) && !Chosen(d, [Simple(f)], [])(p) {
      SeedTokenDrops(EnvOf(d, []), ts, 0, p);
      OnlySimple(EnvOf(d, []), f, p);
    }
    hide Chosen;
    KeptAll(all, Chosen(d, ts, []), false);
    KeptAll(elems, Chosen(d, [Simple(f)], []), false);
  }

  /** The node whose elements are tested for a selector of several groups. */
  function OutermostOfAll(s: Setting, groups: Groups, context: Path): Path {
    if (exists i :: 0 <= i < |groups| && HasSibling(s.page, Meaning(s.reading, groups[i]))) &&
       HasSearchableParent(s.page.tree, context)
    then Parent(context) else context
  }

  function AllPlan(s: Setting, selector: string, groups: Groups, context: Path): Plan
    requires IsNode(s.page.tree, context)
  {
    OutermostIsNode(s.page, [], context);
    AboveIsNode(s, groups, context);
    RunOn(selector, groups, context, Elements(s.page.tree, OutermostOfAll(s, groups, context)))
  }

  lemma AboveIsNode(s: Setting, groups: Groups, context: Path)
    requires IsNode(s.page.tree, context)
    ensures IsNode(s.page.tree, OutermostOfAll(s, groups, context))
  {
    if context != [] { AncestorIsNode(s.page.tree, context, |context| - 1); }
  }

  ghost predicate OneSelects(s: Setting, groups: Groups, context: Path, p: Path) {
    exists g :: g in groups && Selects(EnvOf(s.page, context), Parse(Meaning(s.reading, g)), p)
  }

  /**
   What should be found for several groups, if the tokens that the matchers were compiled from select the same elements:
   those in reach that one of the groups selects, in document order; of an HTML document, all that one selects.
  */
  ghost predicate GroupsRight(s: Setting, groups: Groups, context: Path, origin: Groups, found: seq<Path>) {
    && Ascending(found)
    && ((forall p | IsElement(s.page.tree, p) ::
           Selected(EnvOf(s.page, context), Meanings(s.reading, origin), p) ==
           Selected(EnvOf(s.page, context), Meanings(s.reading, groups), p)) ==>
          && (forall p :: p in found <==>
                IsElement(s.page.tree, p) && WithinReach(s.page, Meanings(s.reading, groups), context, p) &&
                OneSelects(s, groups, context, p))
          && (IsDocument(s.page.tree, []) && !s.page.xml ==>
                forall p :: p in found <==> IsElement(s.page.tree, p) && OneSelects(s, groups, context, p)))
  }

  lemma AnySelects(s: Setting, groups: Groups, context: Path)
    ensures forall p :: Selected(EnvOf(s.page, context), Meanings(s.reading, groups), p) <==>
                        OneSelects(s, groups, context, p)
  {
    hide Selects, Parse, Meaning, EnvOf;
    var e, tss := EnvOf(s.page, context), Meanings(s.reading, groups);
    forall p ensures Selected(e, tss, p) <==> OneSelects(s, groups, context, p) {
      if Selected(e, tss, p) {
        var k :| 0 <= k < |tss| && Selects(e, Parse(tss[k]), p);
        assert groups[k] in groups && tss[k] == Meaning(s.reading, groups[k]);
      }
      if g :| g in groups && Selects(e, Parse(Meaning(s.reading, g)), p) {
        var k :| 0 <= k < |groups| && groups[k] == g;
        assert tss[k] == Meaning(s.reading, g);
      }
    }
  }

  lemma ReachOfAll(s: Setting, groups: Groups, context: Path)
    ensures forall p :: WithinReach(s.page, Meanings(s.reading, groups), context, p) <==>
                        Under(OutermostOfAll(s, groups, context), p)
  {
    var tss := Meanings(s.reading, groups);
    LooksSidewaysIf(s.page, tss);
    assert forall i :: 0 <= i < |groups| ==> tss[i] == Meaning(s.reading, groups[i]);
    hide HasSibling, LooksSideways, Meaning, Meanings;
  }

  /** Each element found is in reach and selected by the tokens that were compiled, and the other way round. */
  lemma FoundInReach(s: Setting, selector: string, groups: Groups, context: Path, test: Path -> bool)
    requires Searchable(s.page.tree, context)
    ensures var found := Kept(AllPlan(s, selector, groups, context).elems, test);
            Ascending(found) &&
            forall p :: p in found <==>
              IsElement(s.page.tree, p) && WithinReach(s.page, Meanings(s.reading, groups), context, p) && test(p)
  {
    AboveIsNode(s, groups, context);
    var o := OutermostOfAll(s, groups, context);
    var all := Elements(s.page.tree, o);
    assert AllPlan(s, selector, groups, context).elems == all;
    OffspringAscends(Subtree(s.page.tree, o), o, 0, false);
    assert Ascending(all);
    hide *;
    KeptAscends(all, test);
    ElementsKept(s.page.tree, o);
    ReachOfAll(s, groups, context);
    forall p { KeptIn(all, test, p); }
  }

  lemma GroupsInReach(s: Setting, groups: Groups, context: Path, p: Path)
    requires IsDocument(s.page.tree, []) && !s.page.xml && Searchable(s.page.tree, context)
    requires OneSelects(s, groups, context, p) && forall g :: g in groups ==> g != []
    ensures WithinReach(s.page, Meanings(s.reading, groups), context, p)
  {
    var tss := Meanings(s.reading, groups);
    var g :| g in groups && Selects(EnvOf(s.page, context), Parse(Meaning(s.reading, g)), p);
    var k :| 0 <= k < |groups| && groups[k] == g;
    assert tss[k] == Meaning(s.reading, g) != [];
    hide *;
    SelectedWithinReach(s.page, tss, tss[k], context, p);
  }

  lemma GroupsAreRight(s: Setting, selector: string, groups: Groups, context: Path, origin: Groups, found: seq<Path>)
    requires Searchable(s.page.tree, context) && forall g :: g in groups ==> g != []
    requires found == Kept(AllPlan(s, selector, groups, context).elems,
                           KeptBy(s.reading, EnvOf(s.page, context), origin))
    ensures GroupsRight(s, groups, context, origin, found)
  {
    hide AllPlan, EnvOf, Selected, OneSelects, Meanings, WithinReach, IsElement, Searchable, Ascending, Kept;
    assert forall p :: KeptBy(s.reading, EnvOf(s.page, context), origin)(p) ==
                       Selected(EnvOf(s.page, context), Meanings(s.reading, origin), p);
    hide KeptBy;
    FoundInReach(s, selector, groups, context, KeptBy(s.reading, EnvOf(s.page, context), origin));
    AnySelects(s, groups, context);
    if forall p | IsElement(s.page.tree, p) :: Selected(EnvOf(s.page, context), Meanings(s.reading, origin), p) ==
                                               Selected(EnvOf(s.page, context), Meanings(s.reading, groups), p)
    {
      assert forall p :: p in found <==> IsElement(s.page.tree, p) && OneSelects(s, groups, context, p) &&
                                         WithinReach(s.page, Meanings(s.reading, groups), context, p);
      if IsDocument(s.page.tree, []) && !s.page.xml {
        forall p | OneSelects(s, groups, context, p)
          ensures WithinReach(s.page, Meanings(s.reading, groups), context, p)
        {
          GroupsInReach(s, groups, context, p);
        }
      }
    }
  }

  /** What the selector reads as, and what is planned for it. */
  ghost predicate PlanFits(s: Setting, read: T.Parse, selector: string, context0: Path, plan: Plan)
    requires IsNode(s.page.tree, context0)
  {
    if read.rest != "" then plan.Fails?
    else if T.Alone(read) then LonePlan(s, read.groups[0], context0, plan)
    else plan == AllPlan(s, selector, read.groups, context0)
  }

  /** select, up to where it compiles */
  method PlanFor(s: Setting, tokenizer: T.Tokenizer, selector: string, context0: Path) returns (plan: Plan)
    requires tokenizer.Valid()
    requires WellFormed(s.page.tree) && UniqueIds(s.page) && Searchable(s.page.tree, context0)
    requires var read := T.Tokens(tokenizer.lex, selector); T.Alone(read) ==> Legible(s, read.groups[0], context0)
    modifies tokenizer
    ensures tokenizer.Valid() && tokenizer.footprint >= old(tokenizer.footprint)
    ensures fresh(tokenizer.footprint - old(tokenizer.footprint))
    ensures PlanFits(s, T.Tokens(tokenizer.lex, selector), selector, context0, plan)
  {
    ghost var read := T.Tokens(tokenizer.lex, selector);
    assert tokenizer.lex.Sound();
    var outcome := tokenizer.Tokenize(selector, false);
    if outcome.SyntaxError? { return Fails; }
    var list := outcome.list;
    hide T.Tokens, T.Tokenizer.Valid, LonePlan, Legible, UniqueIds;
    if |list.groups| != 1 {
      var groups := GroupsOf(list);
      HeldIs(list, read.groups);
      return AllPlan(s, selector, groups, context0);
    }
    T.OneGroupText(tokenizer.lex, selector);
    plan := PlanLone(s, list, selector, context0);
  }

  lemma AllRun(s: Setting, lex: T.Lexer, selector: string, context: Path)
    requires lex.Sound() && IsNode(s.page.tree, context) && T.Tokens(lex, selector).rest == ""
    ensures CanRun(s, AllPlan(s, selector, T.Tokens(lex, selector).groups, context))
  {
    var groups := T.Tokens(lex, selector).groups;
    NoEmptyGroup(lex, selector);
    AboveIsNode(s, groups, context);
    ElementsKept(s.page.tree, OutermostOfAll(s, groups, context));
    hide T.Tokens, IsElement, OutermostOfAll;
  }

  lemma PlanRuns(s: Setting, lex: T.Lexer, selector: string, context0: Path, plan: Plan)
    requires lex.Sound() && UniqueIds(s.page) && IsNode(s.page.tree, context0) && plan.RunOn?
    requires PlanFits(s, T.Tokens(lex, selector), selector, context0, plan)
    ensures CanRun(s, plan)
  {
    hide T.Tokens, UniqueIds, LonePlan, CanRun, AllPlan;
    if T.Alone(T.Tokens(lex, selector)) {
      LoneRuns(s, T.Tokens(lex, selector).groups[0], context0, plan);
    } else {
      AllRun(s, lex, selector, context0);
    }
  }

  lemma AllAreRight(s: Setting, lex: T.Lexer, selector: string, context: Path, plan: Plan, origin: Groups,
                    found: seq<Path>)
    requires lex.Sound() && Searchable(s.page.tree, context) && !T.Alone(T.Tokens(lex, selector)) && plan.RunOn?
    requires PlanFits(s, T.Tokens(lex, selector), selector, context, plan)
    requires found == Kept(plan.elems, KeptBy(s.reading, EnvOf(s.page, plan.context), origin))
    ensures plan.left == selector && GroupsRight(s, T.Tokens(lex, selector).groups, context, origin, found)
  {
    var read := T.Tokens(lex, selector);
    assert read.rest == "" && plan == AllPlan(s, selector, read.groups, context);
    AllPlanIs(s, selector, read.groups, context);
    hide *;
    NoEmptyGroup(lex, selector);
    GroupsAreRight(s, selector, read.groups, context, origin, found);
  }

  lemma PlanShape(s: Setting, read: T.Parse, selector: string, context: Path, plan: Plan)
    requires IsNode(s.page.tree, context) && PlanFits(s, read, selector, context, plan)
    ensures plan.Fails? <==> read.rest != ""
    ensures T.Alone(read) <==> read.rest == "" && |read.groups| == 1
    ensures plan.Done? ==> T.Alone(read)
    ensures T.Alone(read) ==> LonePlan(s, read.groups[0], context, plan)
    ensures plan.RunOn? && !T.Alone(read) ==> plan.left == selector
  {
    hide OutermostOfAll, Elements, StartsAt, T.Edited, Answered, Candidates, Untested, Meaning;
  }

  lemma RunMeans(s: Setting, plan: Plan)
    requires plan.RunOn? && CanRun(s, plan)
    ensures EnvOf(s.page, plan.context).tree == s.page.tree && forall p :: p in plan.elems ==> IsElement(s.page.tree, p)
    ensures forall g :: g in plan.groups ==> g != []
  {
  }

  /** What is found by a run is right as far as what it runs is. */
  lemma RanRight(s: Setting, lex: T.Lexer, selector: string, context: Path, plan: Plan, origin: Groups,
                 found: seq<Path>)
    requires lex.Sound() && Searchable(s.page.tree, context) && UniqueIds(s.page) && plan.RunOn?
    requires PlanFits(s, T.Tokens(lex, selector), selector, context, plan)
    requires found == Kept(plan.elems, KeptBy(s.reading, EnvOf(s.page, plan.context), origin))
    ensures var read := T.Tokens(lex, selector);
            if T.Alone(read) then RightExactly(s, read.groups[0], context, plan, origin, found)
            else plan.left == selector && GroupsRight(s, read.groups, context, origin, found)
  {
    assert IsNode(s.page.tree, context);
    hide *;
    PlanShape(s, T.Tokens(lex, selector), selector, context, plan);
    if T.Alone(T.Tokens(lex, selector)) {
      RunIsRight(s, T.Tokens(lex, selector).groups[0], context, plan, origin, found);
    } else {
      AllAreRight(s, lex, selector, context, plan, origin, found);
    }
  }

  lemma AllPlanIs(s: Setting, selector: string, groups: Groups, context: Path)
    requires IsNode(s.page.tree, context)
    ensures var plan := AllPlan(s, selector, groups, context);
            plan.RunOn? && plan.left == selector && plan.context == context
  {
  }

  /**
   Sizzle's search for a selector: what is found, None if the selector cannot be read.  A selector that is to run gets
   the matchers kept under the text its tokens leave, whatever they were compiled from.
  */
  method Search(s: Setting, tokenizer: T.Tokenizer, compiler: Compiler, selector: string, context0: Path)
    returns (found: Option<seq<Path>>, ghost plan: Plan)
    requires tokenizer.Valid() && compiler.Valid() && compiler.reading == s.reading
    requires compiler !in tokenizer.footprint && compiler.engine !in tokenizer.footprint
    requires WellFormed(s.page.tree) && UniqueIds(s.page) && Searchable(s.page.tree, context0)
    requires var read := T.Tokens(tokenizer.lex, selector); T.Alone(read) ==> Legible(s, read.groups[0], context0)
    modifies tokenizer, compiler, compiler.engine
    ensures tokenizer.Valid() && compiler.Valid()
    ensures compiler !in tokenizer.footprint && compiler.engine !in tokenizer.footprint
    ensures PlanFits(s, T.Tokens(tokenizer.lex, selector), selector, context0, plan)
    ensures compiler.View() == if plan.RunOn? then Served(old(compiler.View()), Request(plan.left, plan.groups))
                               else old(compiler.View())
    ensures match plan
            case Fails => found == None
            case Done(results) => found == Some(results)
            case RunOn(left, _, context, elems) =>
              found == Some(Kept(elems, KeptBy(s.reading, EnvOf(s.page, context), compiler.View().origins[left])))
    ensures var read := T.Tokens(tokenizer.lex, selector);
            T.Alone(read) ==>
              var origin := if plan.RunOn? then compiler.View().origins[plan.left] else [];
              found.Some? && RightExactly(s, read.groups[0], context0, plan, origin, found.value)
    ensures var read := T.Tokens(tokenizer.lex, selector);
            read.rest == "" && |read.groups| != 1 ==>
              found.Some? && selector in compiler.View().origins &&
              GroupsRight(s, read.groups, context0, compiler.View().origins[selector], found.value)
  {
    ghost var lex, read := tokenizer.lex, T.Tokens(tokenizer.lex, selector);
    assert lex.Sound() && IsNode(s.page.tree, context0) && T.Tokens(lex, selector) == read;
    hide *;
    var todo := PlanFor(s, tokenizer, selector, context0);
    plan := todo;
    PlanShape(s, read, selector, context0, plan);
    match todo
    case Fails => found := None;
    case Done(results) =>
      found := Some(results);
      DoneIsRight(s, read.groups[0], context0, plan);
    case RunOn(left, groups, context, elems) =>
      PlanRuns(s, lex, selector, context0, plan);
      RunMeans(s, plan);
      var results := compiler.Run(EnvOf(s.page, context), left, groups, elems);
      found := Some(results);
      RanRight(s, lex, selector, context0, plan, compiler.View().origins[left], results);
  }
}
