/**
 compile's own cache.  It knows a selector by its text alone, whichever tokens it was compiled from.
*/
module SizzleCompile {
  import opened Lists
  import opened Dom
  import opened SizzleMatcher
  import opened SizzleEngine
  import opened SizzleSelect
  import opened SizzleSelectTokens
  import opened SizzleReread
  import T = SizzleTokenize

  type Groups = seq<seq<T.TextToken>>

  function Meanings(reading: Reading, groups: Groups): (meanings: seq<seq<Token>>)
    ensures |meanings| == |groups| && forall i :: 0 <= i < |groups| ==> meanings[i] == Meaning(reading, groups[i])
  {
    seq(|groups|, i requires 0 <= i < |groups| => Meaning(reading, groups[i]))
  }

  lemma MeaningsOfSome(reading: Reading, groups: Groups)
    requires forall g :: g in groups ==> g != []
    ensures forall ts :: ts in Meanings(reading, groups) ==> ts != []
  {
    forall i | 0 <= i < |groups| ensures Meanings(reading, groups)[i] != [] { assert groups[i] in groups; }
  }

  // ---------------------------------------------------------------- whose matchers a text gets

  /** A call of compile: the text, and the tokens that are to be compiled if nothing is kept under it. */
  datatype Request = Request(text: string, groups: Groups)

  /** The texts kept, the oldest first, and what each was compiled from. */
  datatype Memory = Memory(keys: seq<string>, origins: map<string, Groups>)

  function Served(m: Memory, r: Request): (m': Memory)
    ensures r.text in m'.origins
  {
    if r.text in m.origins then m
    else if |m.keys| < T.CACHE_LENGTH then Memory(m.keys + [r.text], m.origins[r.text := r.groups])
    else Memory(m.keys[1..] + [r.text], (m.origins - {m.keys[0]})[r.text := r.groups])
  }

  function After(history: seq<Request>): Memory {
    if history == [] then Memory([], map[]) else Served(After(history[..|history| - 1]), history[|history| - 1])
  }

  /** What the matchers that a request gets were compiled from. */
  function Origin(history: seq<Request>, r: Request): Groups {
    Served(After(history), r).origins[r.text]
  }

  ghost predicate AllOf(requests: Request -> bool, history: seq<Request>) {
    forall r :: r in history ==> requests(r)
  }

  /** It is always what some request asked for under the same text. */
  lemma {:induction false} KeptWasAsked(requests: Request -> bool, history: seq<Request>)
    requires AllOf(requests, history)
    ensures forall k :: k in After(history).origins ==> requests(Request(k, After(history).origins[k]))
  {
    if history != [] {
      var n := |history| - 1;
      assert history[n] in history;
      KeptWasAsked(requests, history[..n]);
    }
  }

  /** Whether any two requests under one text agree. */
  ghost predicate OnePerText(requests: Request -> bool, agree: (Groups, Groups) -> bool) {
    forall r, r' :: requests(r) && requests(r') && r.text == r'.text ==> agree(r.groups, r'.groups)
  }

  /** In every history of such requests each agrees with what it gets. */
  ghost predicate AlwaysServed(requests: Request -> bool, agree: (Groups, Groups) -> bool) {
    forall history, r :: AllOf(requests, history) && requests(r) ==> agree(Origin(history, r), r.groups)
  }

  lemma FirstKeeps(r: Request, r': Request)
    requires r.text == r'.text
    ensures Origin([r], r') == r.groups
  {
    assert [r][..0] == [] && After([r]) == Served(After([]), r);
  }

  lemma ServedExactly(requests: Request -> bool, agree: (Groups, Groups) -> bool)
    ensures AlwaysServed(requests, agree) <==> OnePerText(requests, agree)
  {
    if OnePerText(requests, agree) {
      forall history, r | AllOf(requests, history) && requests(r) ensures agree(Origin(history, r), r.groups) {
        KeptWasAsked(requests, history);
        assert requests(Request(r.text, Origin(history, r)));
      }
    }
    if AlwaysServed(requests, agree) {
      forall r, r' | requests(r) && requests(r') && r.text == r'.text ensures agree(r.groups, r'.groups) {
        FirstKeeps(r, r');
        assert AllOf(requests, [r]);
      }
    }
  }

  // ---------------------------------------------------------------- the cache

  /** What is kept under a text is compiled from what is said to be its origin. */
  ghost predicate AllCompiled(reading: Reading, names: map<nat, Matcher>, done: nat, cache: map<string, seq<Matcher>>,
                              origins: map<string, Groups>)
  {
    cache.Keys == origins.Keys &&
    forall k :: k in cache ==> CompiledFrom(names, done, cache[k], Meanings(reading, origins[k]))
  }

  lemma AllStillCompiled(reading: Reading, names: map<nat, Matcher>, done: nat, names': map<nat, Matcher>, done': nat,
                         cache: map<string, seq<Matcher>>, origins: map<string, Groups>)
    requires AllCompiled(reading, names, done, cache, origins) && done <= done' && Grown(names, names')
    ensures AllCompiled(reading, names', done', cache, origins)
  {
    hide CompiledFrom;
    forall k | k in cache ensures CompiledFrom(names', done', cache[k], Meanings(reading, origins[k])) {
      StillCompiled(names, done, names', done', cache[k], Meanings(reading, origins[k]));
    }
  }

  lemma CompiledMore(reading: Reading, names: map<nat, Matcher>, done: nat, cache: map<string, seq<Matcher>>,
                     origins: map<string, Groups>, selector: string, matchers: seq<Matcher>, groups: Groups)
    requires AllCompiled(reading, names, done, cache, origins)
    requires CompiledFrom(names, done, matchers, Meanings(reading, groups))
    ensures AllCompiled(reading, names, done, cache[selector := matchers], origins[selector := groups])
    ensures forall k :: AllCompiled(reading, names, done, (cache - {k})[selector := matchers],
                                    (origins - {k})[selector := groups])
  {
    hide CompiledFrom;
  }

  class Compiler {
    const reading: Reading
    const engine: Sizzle
    var keys: seq<string>
    var cache: map<string, seq<Matcher>>
    /** What each of the matchers kept was compiled from. */
    ghost var origins: map<string, Groups>

    ghost predicate Valid()
      reads this, engine
    {
      engine.Valid() && T.Indexed(keys, cache) && AllCompiled(reading, engine.names, engine.done, cache, origins)
    }

    ghost function View(): Memory
      reads this
    {
      Memory(keys, origins)
    }

    constructor (reading: Reading)
      ensures Valid() && this.reading == reading && View() == After([]) && fresh(engine)
    {
      this.reading := reading;
      engine := new Sizzle();
      keys, cache, origins := [], map[], map[];
    }

    /** compile: from the cache, if there is something under the text, else from the tokens given */
    method Compile(selector: string, groups: Groups) returns (matchers: seq<Matcher>)
      requires Valid() && forall g :: g in groups ==> g != []
      modifies this, engine`done, engine`names
      ensures Valid() && View() == Served(old(View()), Request(selector, groups))
      ensures selector in cache && cache[selector] == matchers
      ensures CompiledFrom(engine.names, engine.done, matchers, Meanings(reading, View().origins[selector]))
    {
      if selector in cache { return cache[selector]; }
      hide T.Indexed, AllCompiled;
      ghost var names, done := engine.names, engine.done;
      MeaningsOfSome(reading, groups);
      matchers := engine.Compile(Meanings(reading, groups));
      hide CompiledFrom, Meanings;
      AllStillCompiled(reading, names, done, engine.names, engine.done, cache, origins);
      CompiledMore(reading, engine.names, engine.done, cache, origins, selector, matchers, groups);
      Remember(selector, matchers, groups);
    }

    /** compilerCache(selector, ...) */
    method Remember(selector: string, matchers: seq<Matcher>, ghost groups: Groups)
      requires T.Indexed(keys, cache) && selector !in cache && cache.Keys == origins.Keys
      modifies this
      ensures T.Indexed(keys, cache) && View() == Served(old(View()), Request(selector, groups))
      ensures cache ==
              (if |old(keys)| < 50 then old(cache) else old(cache) - {old(keys)[0]})[selector := matchers]
    {
      T.PushedKeys(keys, cache, selector, matchers);
      keys := keys + [selector];
      if |keys| > T.CACHE_LENGTH {
        cache, origins := cache - {keys[0]}, origins - {keys[0]};
        keys := keys[1..];
      }
      cache, origins := cache[selector := matchers], origins[selector := groups];
    }

    /** compile without tokens: they are read if nothing is kept under the text, which can fail */
    method CompileText(tokenizer: T.Tokenizer, selector: string) returns (failed: bool, matchers: seq<Matcher>)
      requires Valid() && tokenizer.Valid() && this !in tokenizer.footprint && engine !in tokenizer.footprint
      modifies this, tokenizer, engine`done, engine`names
      ensures Valid() && tokenizer.Valid() && this !in tokenizer.footprint && engine !in tokenizer.footprint
      ensures failed <==> selector !in old(cache) && T.Tokens(tokenizer.lex, selector).rest != ""
      ensures View() == if failed then old(View())
                        else Served(old(View()), Request(selector, T.Tokens(tokenizer.lex, selector).groups))
      ensures !failed ==>
                selector in cache && cache[selector] == matchers &&
                CompiledFrom(engine.names, engine.done, matchers, Meanings(reading, View().origins[selector]))
    {
      if selector in cache { return false, cache[selector]; }
      var outcome := tokenizer.Tokenize(selector, false);
      if outcome.SyntaxError? { return true, []; }
      var groups := GroupsOf(outcome.list);
      HeldIs(outcome.list, T.Tokens(tokenizer.lex, selector).groups);
      NoEmptyGroup(tokenizer.lex, selector);
      failed := false;
      matchers := Compile(selector, groups);
    }

    /** compile(selector, match)(seed, ...): what is kept of the candidates is what the matchers' origin selects */
    method Run(e: Env, selector: string, groups: Groups, elems: seq<Path>) returns (results: seq<Path>)
      requires Valid() && forall g :: g in groups ==> g != []
      requires WellFormed(e.tree) && forall p :: p in elems ==> IsElement(e.tree, p)
      modifies this, engine
      ensures Valid() && View() == Served(old(View()), Request(selector, groups))
      ensures var origin := View().origins[selector]; results == Kept(elems, KeptBy(reading, e, origin))
    {
      var matchers := Compile(selector, groups);
      ghost var origin := View().origins[selector];
      assert forall m :: m in matchers ==> WellNamed(engine.names, m) && NamesBelow(m, engine.done);
      RunKeeps(reading, e, matchers, origin, elems, engine.names, engine.done);
      hide CompiledFrom, AllCompiled, KeptBy, Served;
      results := engine.SuperMatcher(e, matchers, elems);
    }
  }

  ghost function KeptBy(reading: Reading, e: Env, groups: Groups): Path -> bool {
    p => Selected(e, Meanings(reading, groups), p)
  }

  lemma RunKeeps(reading: Reading, e: Env, matchers: seq<Matcher>, groups: Groups, elems: seq<Path>,
                 names: map<nat, Matcher>, done: nat)
    requires CompiledFrom(names, done, matchers, Meanings(reading, groups)) && WellFormed(e.tree)
    requires forall p :: p in elems ==> IsElement(e.tree, p)
    ensures Kept(elems, p => AnyAccepts(e, matchers, p)) == Kept(elems, KeptBy(reading, e, groups))
  {
    KeptSame(elems, p => AnyAccepts(e, matchers, p), KeptBy(reading, e, groups));
  }

  lemma NoEmptyGroup(lex: T.Lexer, selector: string)
    requires lex.Sound() && T.Tokens(lex, selector).rest == ""
    ensures forall g :: g in T.Tokens(lex, selector).groups ==> g != []
  {
    T.TokensPrintBack(lex, selector);
  }

  /** The values in the arrays. */
  function GroupsOf(list: T.GroupList): (groups: Groups)
    reads list, list.groups
    ensures T.Holds(list, groups)
  {
    seq(|list.groups|, i requires 0 <= i < |list.groups| reads list, list.groups => list.groups[i].tokens)
  }

  lemma HeldIs(list: T.GroupList, groups: Groups)
    requires T.Holds(list, groups)
    ensures GroupsOf(list) == groups
  {
  }

  // ---------------------------------------------------------------- select's requests

  /** The tokens a selector runs with: one group as select's edits leave it, several as they were read. */
  ghost predicate CutDown(reading: T.Parse, selector: string, onDocument: bool, needsContext: string -> bool,
                          relative: string -> bool, find: T.Lookup, left: string,
                          groups: Groups) {
    if T.Alone(reading)
    then |groups| == 1 &&
         T.Edited(T.Shortened(reading.groups[0], onDocument, relative), groups[0], T.Go(left), needsContext, relative,
                  find)
    else groups == reading.groups && left == selector
  }

  /** What select's edits come to. */
  ghost predicate ReducedTo(reading: T.Parse, selector: string, onDocument: bool, contextFound: bool,
                            needsContext: string -> bool, relative: string -> bool,
                            find: T.Lookup, reduction: T.Reduction,
                            groups: Groups) {
    match reduction
    case Failed => reading.rest != ""
    case NoContext => T.Alone(reading) && T.LeadsWithIdToken(reading.groups[0], onDocument, relative) && !contextFound
    case Seeded(seed) =>
      T.Alone(reading) &&
      T.Edited(T.Shortened(reading.groups[0], onDocument, relative), [], T.SeedOnly(seed), needsContext, relative,
               find)
    case Run(left, _, _) =>
      reading.rest == "" && CutDown(reading, selector, onDocument, needsContext, relative, find, left, groups)
  }

  method ReduceToValues(tokenizer: T.Tokenizer, selector: string, onDocument: bool, contextFound: bool,
                        needsContext: string -> bool, relative: string -> bool, find: T.Lookup)
    returns (reduction: T.Reduction, groups: Groups)
    requires tokenizer.Valid()
    modifies tokenizer
    ensures tokenizer.Valid() && tokenizer.footprint >= old(tokenizer.footprint)
    ensures fresh(tokenizer.footprint - old(tokenizer.footprint))
    ensures ReducedTo(T.Tokens(tokenizer.lex, selector), selector, onDocument, contextFound, needsContext, relative,
                      find, reduction, groups)
  {
    ghost var reading := T.Tokens(tokenizer.lex, selector);
    hide T.Edited, T.Tokens, T.LeadsWithIdToken, T.Tokenizer.Valid, T.Shortened;
    reduction := tokenizer.Reduce(selector, onDocument, contextFound, needsContext, relative, find);
    groups := [];
    if reduction.Run? {
      groups := GroupsOf(reduction.list);
      if |groups| != 1 { HeldIs(reduction.list, reading.groups); }
    }
  }

  /** What is left to run has a token in every group. */
  lemma ReducedIsSome(reading: T.Parse, selector: string, onDocument: bool, contextFound: bool,
                      needsContext: string -> bool, relative: string -> bool, find: T.Lookup,
                      reduction: T.Reduction, groups: Groups)
    requires reduction.Run? && forall g :: g in reading.groups ==> g != []
    requires ReducedTo(reading, selector, onDocument, contextFound, needsContext, relative, find, reduction, groups)
    ensures forall g :: g in groups ==> g != []
  {
    hide T.Edited;
    if T.Alone(reading) {
      assert reading.groups[0] in reading.groups;
      EditLeavesSome(T.Shortened(reading.groups[0], onDocument, relative), groups[0], reduction.selector, needsContext,
                     relative, find);
    }
  }

  lemma RunIsRead(reading: T.Parse, selector: string, onDocument: bool, contextFound: bool,
                  needsContext: string -> bool, relative: string -> bool, find: T.Lookup,
                  reduction: T.Reduction, groups: Groups)
    requires reduction.Run?
    requires ReducedTo(reading, selector, onDocument, contextFound, needsContext, relative, find, reduction, groups)
    ensures reading.rest == ""
  {
    hide T.Edited;
  }

  /**
   select up to its compiled function: a selector that is to run asks for its matchers with the text and the tokens it
   was cut down to, and gets those of the tokens that were first compiled under that text.
  */
  method CompileReduced(tokenizer: T.Tokenizer, compiler: Compiler, selector: string, onDocument: bool,
                        contextFound: bool, needsContext: string -> bool, relative: string -> bool,
                        find: T.Lookup)
    returns (reduction: T.Reduction, ghost groups: Groups, matchers: seq<Matcher>)
    requires tokenizer.Valid() && compiler.Valid()
    requires compiler !in tokenizer.footprint && compiler.engine !in tokenizer.footprint
    modifies tokenizer, compiler, compiler.engine
    ensures tokenizer.Valid() && compiler.Valid()
    ensures compiler !in tokenizer.footprint && compiler.engine !in tokenizer.footprint
    ensures ReducedTo(T.Tokens(tokenizer.lex, selector), selector, onDocument, contextFound, needsContext, relative,
                      find, reduction, groups)
    ensures !reduction.Run? ==> compiler.View() == old(compiler.View())
    ensures reduction.Run? ==>
              compiler.View() == Served(old(compiler.View()), Request(reduction.selector, groups)) &&
              CompiledFrom(compiler.engine.names, compiler.engine.done, matchers,
                           Meanings(compiler.reading, compiler.View().origins[reduction.selector]))
  {
    assert tokenizer.lex.Sound();
    hide *;
    var values;
    reduction, values := ReduceToValues(tokenizer, selector, onDocument, contextFound, needsContext, relative, find);
    groups, matchers := values, [];
    if reduction.Run? {
      ghost var reading := T.Tokens(tokenizer.lex, selector);
      RunIsRead(reading, selector, onDocument, contextFound, needsContext, relative, find, reduction, values);
      NoEmptyGroup(tokenizer.lex, selector);
      ReducedIsSome(reading, selector, onDocument, contextFound, needsContext, relative, find, reduction, values);
      matchers := compiler.Compile(reduction.selector, values);
    }
  }

  // ---------------------------------------------------------------- the requests of a page

  /** compile without tokens reads the text itself; select hands over what its edits left. */
  ghost function Requests(lex: T.Lexer, edits: Request -> bool): Request -> bool
    requires lex.Sound()
  {
    (r: Request) => ReadsAs(lex, r.text, r.groups) || edits(r)
  }

  predicate Same(g: Groups, g': Groups) {
    g == g'
  }

  /**
   Every request gets matchers of its own tokens, whatever came before, exactly if edits of readable texts leave what
   their text reads as, and edits that leave the same unreadable text leave the same tokens.
  */
  lemma OwnTokensExactly(lex: T.Lexer, edits: Request -> bool)
    requires lex.Sound()
    ensures AlwaysServed(Requests(lex, edits), Same) <==>
            (forall r :: edits(r) && T.Tokens(lex, r.text).rest == "" ==> ReadsAs(lex, r.text, r.groups)) &&
            (forall r, r' :: edits(r) && edits(r') && r.text == r'.text && T.Tokens(lex, r.text).rest != "" ==>
               r.groups == r'.groups)
  {
    var requests := Requests(lex, edits);
    ServedExactly(requests, Same);
    forall r ensures requests(r) <==> ReadsAs(lex, r.text, r.groups) || edits(r) {}
    hide T.Tokens, AlwaysServed, Requests, ReadsAs;
    forall r: Request ensures ReadsAs(lex, r.text, r.groups) <==>
                     T.Tokens(lex, r.text).rest == "" && T.Tokens(lex, r.text).groups == r.groups
    {
      OneReading(lex, r.text, r.groups);
    }
    if OnePerText(requests, Same) {
      forall r | edits(r) && T.Tokens(lex, r.text).rest == "" ensures ReadsAs(lex, r.text, r.groups) {
        assert requests(Request(r.text, T.Tokens(lex, r.text).groups)) && requests(r);
      }
    }
  }

  lemma OneReading(lex: T.Lexer, text: string, groups: Groups)
    requires lex.Sound()
    ensures ReadsAs(lex, text, groups) <==> T.Tokens(lex, text).rest == "" && T.Tokens(lex, text).groups == groups
  {
  }

  /** One search of the page among compilations of all other texts as they read. */
  lemma OneSearch(lex: T.Lexer, search: Request, agree: (Groups, Groups) -> bool)
    requires lex.Sound() && (forall g :: agree(g, g)) && forall g, g' :: agree(g, g') ==> agree(g', g)
    ensures AlwaysServed(Requests(lex, r => r == search), agree) <==>
            T.Tokens(lex, search.text).rest != "" || agree(T.Tokens(lex, search.text).groups, search.groups)
  {
    var requests, read := Requests(lex, r => r == search), T.Tokens(lex, search.text);
    ServedExactly(requests, agree);
    forall r ensures requests(r) <==> ReadsAs(lex, r.text, r.groups) || r == search { }
    hide T.Tokens, AlwaysServed, Requests, ReadsAs;
    forall r: Request ensures ReadsAs(lex, r.text, r.groups) <==>
                              T.Tokens(lex, r.text).rest == "" && T.Tokens(lex, r.text).groups == r.groups
    {
      OneReading(lex, r.text, r.groups);
    }
    if OnePerText(requests, agree) && read.rest == "" {
      assert requests(Request(search.text, read.groups)) && requests(search);
    }
    if read.rest != "" || agree(read.groups, search.groups) {
      forall r, r' | requests(r) && requests(r') && r.text == r'.text ensures agree(r.groups, r'.groups) {
        assert r.groups == r'.groups || r == search || r' == search;
      }
    }
  }

  /** Whether groups of tokens select the same elements, on every page. */
  ghost predicate SelectAlike(reading: Reading, g: Groups, g': Groups) {
    forall e: Env, p :: WellFormed(e.tree) && IsElement(e.tree, p) ==>
      (Selected(e, Meanings(reading, g), p) <==> Selected(e, Meanings(reading, g'), p))
  }

  /**
   A search gets matchers of its own tokens, whatever was compiled before, exactly when the text it leaves cannot be
   read or all tokens in front of the one taken out are still found there.
  */
  lemma SearchGetsItsOwn(lex: T.Lexer, selector: string, onDocument: bool, needsContext: string -> bool,
                         relative: string -> bool, find: T.Lookup, after: seq<T.TextToken>,
                         left: string)
    requires lex.Sound() && Exclusive(lex) && T.Alone(T.Tokens(lex, selector))
    requires T.Edited(T.Shortened(T.Tokens(lex, selector).groups[0], onDocument, relative), after, T.Go(left),
                      needsContext, relative, find)
    ensures var before := T.Shortened(T.Tokens(lex, selector).groups[0], onDocument, relative);
            AlwaysServed(Requests(lex, r => r == Request(left, [after])), Same) <==>
            T.Tokens(lex, left).rest != "" || Undisturbed(lex, before, after, relative, find)
  {
    EditsReread(lex, selector, onDocument, needsContext, relative, find, after, left);
    hide T.Tokens, T.Edited, T.Shortened, Undisturbed, AlwaysServed, Requests, Exclusive, T.Alone;
    OneSearch(lex, Request(left, [after]), Same);
  }

  /** And it is answered right exactly when the text cannot be read or what it reads as selects the same elements. */
  lemma SearchIsAnsweredRight(lex: T.Lexer, reading: Reading, after: seq<T.TextToken>, left: string)
    requires lex.Sound()
    ensures AlwaysServed(Requests(lex, r => r == Request(left, [after])), (g, g') => SelectAlike(reading, g, g')) <==>
            T.Tokens(lex, left).rest != "" || SelectAlike(reading, T.Tokens(lex, left).groups, [after])
  {
    hide T.Tokens, AlwaysServed, Requests, Selected, Meanings;
    OneSearch(lex, Request(left, [after]), (g, g') => SelectAlike(reading, g, g'));
  }

  // ---------------------------------------------------------------- a search that is answered wrong

  /** An element alone, in an XML document, for which the first filter only holds. */
  function Lone(): Env {
    Env(Tree(Element, []), true, {}, true, true, (f, _) => f == 0)
  }

  lemma {:induction false} ManySimple(fs: seq<Filter>, ts: seq<Token>)
    requires |ts| == |fs| && forall i :: 0 <= i < |fs| ==> ts[i] == Simple(fs[i])
    ensures Selects(Lone(), Parse(ts), []) <==> forall i :: 0 <= i < |fs| ==> fs[i] == 0
  {
    hide Selects, Parse;
    if ts == [] {
      NoneAsked(ts);
    } else {
      SeedTokenDrops(Lone(), ts, 0, []);
      assert Rest(ts, 0) == ts[1..];
      ManySimple(fs[1..], ts[1..]);
      assert fs == [fs[0]] + fs[1..];
    }
  }

  lemma NoneAsked(ts: seq<Token>)
    requires ts == []
    ensures Selects(Lone(), Parse(ts), [])
  {
    assert Assigns(Lone(), Parse(ts), [[]]);
  }

  /**
   After a search for the text left, the search for the whole text gets its matchers, and finds no element that it
   should find and that search should not.
  */
  lemma AnsweredWithOthers(w: Pieces, reading: Reading)
    requires w.near != w.far && w.far != []
    requires forall t: T.TextToken :: reading(t) == Simple(if t.matches == w.far then 1 else 0)
    ensures var before, search := Request(w.Left(), [w.AsReread()]), Request(w.Left(), [w.AsLeft()]);
            Origin([before], search) == before.groups && !SelectAlike(reading, before.groups, search.groups)
  {
    hide *;
    FirstKeeps(Request(w.Left(), [w.AsReread()]), Request(w.Left(), [w.AsLeft()]));
    RereadSelects(w, reading);
    LeftSelects(w, reading);
    OneGroup(reading, w.AsReread());
    OneGroup(reading, w.AsLeft());
    NotAlike(reading, [w.AsReread()], [w.AsLeft()]);
  }

  lemma RereadSelects(w: Pieces, reading: Reading)
    requires forall t: T.TextToken :: reading(t) == Simple(if t.matches == w.far then 1 else 0)
    ensures !Selects(Lone(), Parse(Meaning(reading, w.AsReread())), [])
  {
    var fs: seq<Filter> := [1, if w.far == [] then 1 else 0];
    ManySimple(fs, Meaning(reading, w.AsReread()));
    hide Selects, Parse;
    assert fs[0] != 0;
  }

  lemma LeftSelects(w: Pieces, reading: Reading)
    requires w.near != w.far && w.far != []
    requires forall t: T.TextToken :: reading(t) == Simple(if t.matches == w.far then 1 else 0)
    ensures Selects(Lone(), Parse(Meaning(reading, w.AsLeft())), [])
  {
    ManySimple([0, 0, 0], Meaning(reading, w.AsLeft()));
    hide Selects, Parse;
  }

  lemma NotAlike(reading: Reading, g: Groups, g': Groups)
    requires Selected(Lone(), Meanings(reading, g), []) != Selected(Lone(), Meanings(reading, g'), [])
    ensures !SelectAlike(reading, g, g')
  {
    hide Selected, Meanings;
    assert WellFormed(Lone().tree) && IsElement(Lone().tree, []);
  }

  lemma OneGroup(reading: Reading, ts: seq<T.TextToken>)
    ensures Selected(Lone(), Meanings(reading, [ts]), []) <==> Selects(Lone(), Parse(Meaning(reading, ts)), [])
  {
    assert Meanings(reading, [ts])[0] == Meaning(reading, ts);
  }

  /**
   :contains(()x\:y.c\).d in an XML document: read as said, its search leaves :contains(().c\).d with tokens of its own,
   and there are pages on which it is answered wrong after a search for that text.
  */
  lemma ContainsAnsweredWrong(reading: Reading)
    requires forall t: T.TextToken :: reading(t) == Simple(if t.matches == CONTAINS.far then 1 else 0)
    ensures var lex, left := CONTAINS.LookAhead(), CONTAINS.Left();
            lex.Sound() && Exclusive(lex) && ReadsAs(lex, CONTAINS.Searched(), [CONTAINS.AsSearched()]) &&
            T.Edited(T.Shortened(CONTAINS.AsSearched(), false, _ => false), CONTAINS.AsLeft(), T.Go(left), _ => false,
                     _ => false, FindTags) &&
            !AlwaysServed(Requests(lex, r => r == Request(left, [CONTAINS.AsLeft()])),
                          (g, g') => SelectAlike(reading, g, g'))
  {
    ContainsIsSized();
    assert CONTAINS.near != CONTAINS.far && CONTAINS.far != [];
    hide *;
    ReadOtherwise(CONTAINS);
    LeftOfSearch(CONTAINS);
    OneReading(CONTAINS.LookAhead(), CONTAINS.Left(), [CONTAINS.AsReread()]);
    AnsweredWithOthers(CONTAINS, reading);
    SearchIsAnsweredRight(CONTAINS.LookAhead(), reading, CONTAINS.AsLeft(), CONTAINS.Left());
  }
}
