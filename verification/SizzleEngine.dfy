/**
 The running engine: compilation with globally numbered climbs, matching with the climb cache,
 and the element loop over a list of candidates.
*/
module SizzleEngine {
  import opened Dom
  import opened Lists
  import opened SizzleMatcher

  /** A run, a combinator and the result it found; one entry is stored on every node of a climb. */
  class CacheEntry {
    const run: nat
    const done: nat
    var result: Option<bool>

    constructor (run: nat, done: nat)
      ensures this.run == run && this.done == done && result == None
    {
      this.run, this.done, result := run, done, None;
    }
  }

  /** Every climb in m is the one registered under its name, and nests only lower names. */
  ghost predicate WellNamed(names: map<nat, Matcher>, m: Matcher) {
    match m
    case InContext => true
    case Test(_) => true
    case Gate(_, single, many) => WellNamed(names, single) && WellNamed(names, many)
    case All(parts) => forall i :: 0 <= i < |parts| ==> WellNamed(names, parts[i])
    case Climb(_, _, done, inner) =>
      done in names && names[done] == m && NamesBelow(inner, done) && WellNamed(names, inner)
  }

  ghost predicate NamesBelow(m: Matcher, bound: nat) {
    match m
    case InContext => true
    case Test(_) => true
    case Gate(_, single, many) => NamesBelow(single, bound) && NamesBelow(many, bound)
    case All(parts) => forall i :: 0 <= i < |parts| ==> NamesBelow(parts[i], bound)
    case Climb(_, _, done, inner) => done < bound && NamesBelow(inner, bound)
  }

  lemma {:induction false} NamesGrow(names: map<nat, Matcher>, names': map<nat, Matcher>, m: Matcher, b: nat, b': nat)
    requires WellNamed(names, m) && NamesBelow(m, b) && b <= b'
    requires forall d :: d in names ==> d in names' && names'[d] == names[d]
    ensures WellNamed(names', m) && NamesBelow(m, b')
  {
    match m
    case InContext =>
    case Test(_) =>
    case Gate(_, single, many) =>
      NamesGrow(names, names', single, b, b');
      NamesGrow(names, names', many, b, b');
    case All(parts) =>
      forall i | 0 <= i < |parts| ensures WellNamed(names', parts[i]) && NamesBelow(parts[i], b') {
        NamesGrow(names, names', parts[i], b, b');
      }
    case Climb(_, _, done, inner) =>
      NamesGrow(names, names', inner, b, b');
      NamesGrow(names, names', inner, done, done);
  }

  lemma GateNamed(names: map<nat, Matcher>, lead: Option<Combinator>, done: nat)
    requires var g := GateOf(lead, done);
             done in names && names[done] == g.single && done + 1 in names && names[done + 1] == g.many
    ensures WellNamed(names, GateOf(lead, done)) && NamesBelow(GateOf(lead, done), done + 2)
  {
    var g := GateOf(lead, done);
    assert WellNamed(names, InContext) && NamesBelow(InContext, done);
    assert WellNamed(names, g.single) && WellNamed(names, g.many);
    assert NamesBelow(g.single, done + 2) && NamesBelow(g.many, done + 2);
  }

  lemma ElementMatcherNamed(names: map<nat, Matcher>, ms: seq<Matcher>, b: nat)
    requires ms != [] && forall k :: 0 <= k < |ms| ==> WellNamed(names, ms[k]) && NamesBelow(ms[k], b)
    ensures WellNamed(names, ElementMatcher(ms)) && NamesBelow(ElementMatcher(ms), b)
  {
  }

  lemma TestNamed(names: map<nat, Matcher>, f: Filter, b: nat)
    ensures WellNamed(names, Test(f)) && NamesBelow(Test(f), b)
  {
  }

  lemma ClimbNamed(names: map<nat, Matcher>, names': map<nat, Matcher>, m: Matcher)
    requires m.Climb? && WellNamed(names, m.inner) && NamesBelow(m.inner, m.done)
    requires m.done !in names && names' == names[m.done := m]
    ensures WellNamed(names', m) && NamesBelow(m, m.done + 1)
  {
    NamesGrow(names, names', m.inner, m.done, m.done + 1);
    NamesGrow(names, names', m.inner, m.done, m.done);
  }

  function MatchersSoFar(ts: seq<Token>, done: nat): seq<Matcher> {
    if ts == [] then [GateOf(None, done)] else Matchers(ts, done)
  }

  lemma MatchersStep(ts: seq<Token>, i: nat, done: nat)
    requires i < |ts| && (i == 0 ==> ts[0].Simple?)
    ensures var ms := MatchersSoFar(ts[..i], done);
            MatchersSoFar(ts[..i + 1], done) ==
            if ts[i].Rel? then [Climb(ts[i].comb, false, done + Named(ts[..i]), ElementMatcher(ms))]
            else ms + [Test(ts[i].filter)]
    ensures Named(ts[..i + 1]) == Named(ts[..i]) + if ts[i].Rel? then 1 else 0
  {
    assert ts[..i + 1][..i] == ts[..i];
    if i == 0 { assert ts[..1] == [ts[0]]; }
  }

  lemma FirstMatchers(ts: seq<Token>, done: nat)
    requires ts != []
    ensures var lead, i := if ts[0].Rel? then Some(ts[0].comb) else None, if ts[0].Rel? then 1 else 0;
            Built(ts, i, done, [GateOf(lead, done)], done + 2)
  {
    assert ts[..1] == [ts[0]] && [ts[0]][..0] == [] && ts[..0] == [];
  }

  /** What the loop of matcherFromTokens has collected, and named, once it has read i tokens. */
  ghost predicate Built(ts: seq<Token>, i: nat, start: nat, matchers: seq<Matcher>, done: nat) {
    i <= |ts| && matchers == MatchersSoFar(ts[..i], start) && done == start + Named(ts[..i])
  }

  lemma BuildStep(ts: seq<Token>, i: nat, start: nat, matchers: seq<Matcher>, done: nat)
    requires i < |ts| && (i == 0 ==> ts[0].Simple?) && Built(ts, i, start, matchers, done) && matchers != []
    ensures match ts[i]
            case Rel(c) => Built(ts, i + 1, start, [Climb(c, false, done, ElementMatcher(matchers))], done + 1)
            case Simple(f) => Built(ts, i + 1, start, matchers + [Test(f)], done)
  {
    MatchersStep(ts, i, start);
  }

  lemma AllMatchers(ts: seq<Token>, start: nat, matchers: seq<Matcher>, done: nat)
    requires ts != [] && Built(ts, |ts|, start, matchers, done)
    ensures matchers == Matchers(ts, start) && done == start + Named(ts)
  {
    assert ts[..|ts|] == ts;
  }

  type Cell = (Path, Dir)

  class Sizzle {
    var dirruns: nat
    var done: nat
    var cells: map<Cell, CacheEntry>
    ghost var names: map<nat, Matcher>

    constructor ()
      ensures Valid() && names == map[]
    {
      dirruns, done, cells, names := 0, 0, map[], map[];
    }

    ghost predicate Valid()
      reads this
    {
      && (forall d :: d in names ==> d < done)
      && (forall k :: k in cells ==> cells[k].run <= dirruns)
    }

    /**
     The cell of a node that the climb `done` of the current run filled holds the climb's answer from that node
     up.
    */
    ghost predicate EntryOk(e: Env, k: Cell, entry: CacheEntry)
      reads this, entry
    {
      entry.run == dirruns && entry.done in names ==>
        match names[entry.done] {
          case Climb(c, base, _, inner) =>
            k.1 == c.dir && entry.result == Some(AtOrAbove(e, base, c.dir, inner, k.0))
          case _ => true
        }
    }

    ghost predicate CacheOk(e: Env, level: nat)
      reads this, cells.Values
    {
      forall k :: k in cells && cells[k].done < level ==> EntryOk(e, k, cells[k])
    }

    /** matcherFromTokens */
    method MatcherFromTokens(tokens: seq<Token>) returns (m: Matcher)
      requires Valid() && tokens != []
      modifies this`done, this`names
      ensures Valid()
      ensures m == ElementMatcher(Matchers(tokens, old(done)))
      ensures done == old(done) + Named(tokens)
      ensures WellNamed(names, m) && NamesBelow(m, done)
      ensures forall d :: d in old(names) ==> d in names && names[d] == old(names)[d]
    {
      var lead := if tokens[0].Rel? then Some(tokens[0].comb) else None;
      var i := if tokens[0].Rel? then 1 else 0;
      var gate := NewGate(lead);
      var matchers := [gate];
      FirstMatchers(tokens, old(done));
      hide WellNamed, NamesBelow, Built, ElementMatcher, GateOf, Matchers, Named;
      while i < |tokens|
        invariant i <= |tokens| && (i == 0 ==> tokens[0].Simple?)
        invariant Built(tokens, i, old(done), matchers, done) && matchers != []
        invariant Valid()
        invariant forall d :: d in old(names) ==> d in names && names[d] == old(names)[d]
        invariant forall k :: 0 <= k < |matchers| ==> WellNamed(names, matchers[k]) && NamesBelow(matchers[k], done)
      {
        BuildStep(tokens, i, old(done), matchers, done);
        if tokens[i].Rel? {
          var climb := NewClimb(tokens[i].comb, matchers);
          matchers := [climb];
        } else {
          TestNamed(names, tokens[i].filter, done);
          matchers := matchers + [Test(tokens[i].filter)];
        }
        i := i + 1;
      }
      AllMatchers(tokens, old(done), matchers, done);
      ElementMatcherNamed(names, matchers, done);
      m := ElementMatcher(matchers);
    }

    /** The two addCombinator calls in front of the loop, with names of their own */
    method NewGate(lead: Option<Combinator>) returns (gate: Matcher)
      requires Valid()
      modifies this`done, this`names
      ensures Valid() && gate == GateOf(lead, old(done)) && done == old(done) + 2
      ensures WellNamed(names, gate) && NamesBelow(gate, done)
      ensures forall d :: d in old(names) ==> d in names && names[d] == old(names)[d]
    {
      gate := GateOf(lead, done);
      names := names[done := gate.single][done + 1 := gate.many];
      done := done + 2;
      GateNamed(names, lead, done - 2);
    }

    /** addCombinator around what has been collected */
    method NewClimb(comb: Combinator, matchers: seq<Matcher>) returns (m: Matcher)
      requires Valid() && matchers != []
      requires forall k :: 0 <= k < |matchers| ==> WellNamed(names, matchers[k]) && NamesBelow(matchers[k], done)
      modifies this`done, this`names
      ensures Valid() && m == Climb(comb, false, old(done), ElementMatcher(matchers)) && done == old(done) + 1
      ensures WellNamed(names, m) && NamesBelow(m, done)
      ensures forall d :: d in old(names) ==> d in names && names[d] == old(names)[d]
    {
      hide WellNamed, NamesBelow, ElementMatcher;
      ElementMatcherNamed(names, matchers, done);
      m := Climb(comb, false, done, ElementMatcher(matchers));
      ghost var before := names;
      names := names[done := m];
      ClimbNamed(before, names, m);
      done := done + 1;
    }

    /** A matcher's closure applied to a node. */
    method Match(e: Env, m: Matcher, p: Path, ghost level: nat) returns (r: bool)
      requires Valid() && WellNamed(names, m) && NamesBelow(m, level) && CacheOk(e, level)
      modifies this`cells
      ensures Valid() && CacheOk(e, level)
      ensures r == Accepts(e, m, p)
      ensures Written(old(cells), level)
      decreases m, 3
    {
      match m
      case InContext => r := p in e.context;
      case Test(f) => r := e.holds(f, p);
      case Gate(lead, single, many) =>
        if !lead && (e.xml || !e.gated) {
          r := true;
        } else if e.isNode {
          r := Match(e, single, p, level);
        } else {
          r := Match(e, many, p, level);
        }
      case All(parts) =>
        var i := |parts|;
        while i > 0
          invariant 0 <= i <= |parts|
          invariant forall j :: i <= j < |parts| ==> Accepts(e, parts[j], p)
          invariant Valid() && CacheOk(e, level) && Written(old(cells), level)
        {
          i := i - 1;
          var ok := Match(e, parts[i], p, level);
          if !ok { return false; }
        }
        r := true;
      case Climb(c, base, d, inner) =>
        if c.first {
          r := MatchClosest(e, m, p, level);
        } else if e.xml {
          r := MatchAboveXml(e, m, p, level);
        } else {
          r := MatchAbove(e, m, p, level);
        }
    }

    /** Cells are only overwritten with entries made meanwhile, under names below the level. */
    twostate predicate Written(before: map<Cell, CacheEntry>, level: nat)
      reads this
    {
      forall k :: k in cells ==>
        (k in before && cells[k] == before[k]) || (fresh(cells[k]) && cells[k].done < level)
    }

    /** addCombinator's function for `first` combinators */
    method MatchClosest(e: Env, m: Matcher, p: Path, ghost level: nat) returns (r: bool)
      requires m.Climb? && m.comb.first
      requires Valid() && WellNamed(names, m) && NamesBelow(m, level) && CacheOk(e, level)
      modifies this`cells
      ensures Valid() && CacheOk(e, level)
      ensures r == Accepts(e, m, p)
      ensures Written(old(cells), level)
      decreases m, 0
    {
      var dir := m.comb.dir;
      var elem := Follow(dir, p);
      ghost var last := p;
      while elem.Some?
        invariant elem == Follow(dir, last)
        invariant Closest(e, m.base, dir, m.inner, p) == Closest(e, m.base, dir, m.inner, last)
        invariant cells == old(cells)
        decreases Rank(dir, last)
      {
        if Visits(e.tree, m.base, dir, elem.value) {
          r := Match(e, m.inner, elem.value, level);
          return;
        }
        last := elem.value;
        elem := Follow(dir, elem.value);
      }
      r := false;
    }

    /**
     While a climb from below has visited everything up to and including `last` in vain, the cells
     that hold its own entry lie on the visited nodes and will all get the answer still to be found.
    */
    ghost predicate Climbing(e: Env, m: Matcher, last: Path, own: CacheEntry, level: nat)
      requires m.Climb?
      reads this, cells.Values, own
    {
      && (forall k :: k in cells && cells[k].done < level && cells[k] != own ==> EntryOk(e, k, cells[k]))
      && (forall k :: k in cells && cells[k] == own ==>
            own.result == Some(false) && k.1 == m.comb.dir && Rank(m.comb.dir, k.0) >= Rank(m.comb.dir, last) &&
            AtOrAbove(e, m.base, m.comb.dir, m.inner, k.0) == SomeAbove(e, m.base, m.comb.dir, m.inner, last))
    }

    /** The cells that hold the entry lie at or before q and have q's answer. */
    ghost predicate Shares(e: Env, m: Matcher, q: Path, own: CacheEntry)
      requires m.Climb?
      reads this
    {
      forall k :: k in cells && cells[k] == own ==>
        k.1 == m.comb.dir && Rank(m.comb.dir, k.0) >= Rank(m.comb.dir, q) &&
        AtOrAbove(e, m.base, m.comb.dir, m.inner, k.0) == AtOrAbove(e, m.base, m.comb.dir, m.inner, q)
    }

    /** The cached visit to one node of a climb: look its cell up, or claim it and run the inner matcher. */
    method Visit(e: Env, m: Matcher, ghost last: Path, q: Path, own: CacheEntry, ghost level: nat)
      returns (r: bool, stop: bool)
      requires m.Climb? && !m.comb.first && Follow(m.comb.dir, last) == Some(q)
      requires Visits(e.tree, m.base, m.comb.dir, q)
      requires Valid() && WellNamed(names, m) && NamesBelow(m, level)
      requires own.run == dirruns && own.done == m.done && Climbing(e, m, last, own, level)
      modifies this`cells, own
      ensures Valid()
      ensures forall k :: k in cells ==>
        (k in old(cells) && cells[k] == old(cells[k])) || cells[k] == own || (fresh(cells[k]) && cells[k].done < level)
      ensures stop ==> r == SomeAbove(e, m.base, m.comb.dir, m.inner, last) && CacheOk(e, level)
      ensures !stop ==> SomeAbove(e, m.base, m.comb.dir, m.inner, last) == SomeAbove(e, m.base, m.comb.dir, m.inner, q)
      ensures !stop ==> Climbing(e, m, q, own, level)
      decreases m, 1
    {
      var key := (q, m.comb.dir);
      if key in cells && cells[key].run == dirruns && cells[key].done == m.done {
        own.result := cells[key].result;
        return own.result == Some(true), true;
      }
      r := Claim(e, m, last, q, own, level);
      stop := r;
    }

    /**
     The node's cell is given the climb's own entry and the inner matcher run: afterwards the cells that hold the
     entry, which says what the matcher said, are all on nodes that have the same answer as q.
    */
    method Claim(e: Env, m: Matcher, ghost last: Path, q: Path, own: CacheEntry, ghost level: nat) returns (r: bool)
      requires m.Climb? && !m.comb.first && Follow(m.comb.dir, last) == Some(q)
      requires Visits(e.tree, m.base, m.comb.dir, q)
      requires Valid() && WellNamed(names, m) && NamesBelow(m, level)
      requires own.run == dirruns && own.done == m.done && Climbing(e, m, last, own, level)
      modifies this`cells, own
      ensures Valid() && r == Accepts(e, m.inner, q) && own.result == Some(r)
      ensures forall k :: k in cells ==>
        (k in old(cells) && cells[k] == old(cells[k])) || cells[k] == own || (fresh(cells[k]) && cells[k].done < level)
      ensures forall k :: k in cells && cells[k].done < level && cells[k] != own ==> EntryOk(e, k, cells[k])
      ensures Shares(e, m, q, own)
      decreases m, 0
    {
      cells := cells[(q, m.comb.dir) := own];
      assert Shares(e, m, q, own);
      assert CacheOk(e, m.done);
      ghost var claimed := cells;
      r := Match(e, m.inner, q, m.done);
      own.result := Some(r);
      forall k | k in cells && cells[k].done < level && cells[k] != own ensures EntryOk(e, k, cells[k]) {
        if cells[k].done >= m.done { assert k in claimed && cells[k] == claimed[k]; }
      }
      forall k | k in cells && cells[k] == own ensures k in claimed && claimed[k] == own {}
    }

    /** addCombinator's function for the other combinators on an XML document: no cache */
    method MatchAboveXml(e: Env, m: Matcher, p: Path, ghost level: nat) returns (r: bool)
      requires m.Climb? && !m.comb.first
      requires Valid() && WellNamed(names, m) && NamesBelow(m, level) && CacheOk(e, level)
      modifies this`cells
      ensures Valid() && CacheOk(e, level)
      ensures r == Accepts(e, m, p)
      ensures Written(old(cells), level)
      decreases m, 1
    {
      var dir := m.comb.dir;
      var elem := Follow(dir, p);
      ghost var last := p;
      while elem.Some?
        invariant elem == Follow(dir, last)
        invariant SomeAbove(e, m.base, dir, m.inner, p) == SomeAbove(e, m.base, dir, m.inner, last)
        invariant Valid() && Written(old(cells), level) && CacheOk(e, level)
        decreases Rank(dir, last)
      {
        if Visits(e.tree, m.base, dir, elem.value) {
          r := Match(e, m.inner, elem.value, level);
          if r { return; }
        }
        last := elem.value;
        elem := Follow(dir, elem.value);
      }
      r := false;
    }

    /** addCombinator's function for the other combinators, with the cache */
    method MatchAbove(e: Env, m: Matcher, p: Path, ghost level: nat) returns (r: bool)
      requires m.Climb? && !m.comb.first
      requires Valid() && WellNamed(names, m) && NamesBelow(m, level) && CacheOk(e, level)
      modifies this`cells
      ensures Valid() && CacheOk(e, level)
      ensures r == Accepts(e, m, p)
      ensures Written(old(cells), level)
      decreases m, 2
    {
      var dir := m.comb.dir;
      var newCache := new CacheEntry(dirruns, m.done);
      var elem := Follow(dir, p);
      ghost var last := p;
      while elem.Some?
        invariant elem == Follow(dir, last)
        invariant SomeAbove(e, m.base, dir, m.inner, p) == SomeAbove(e, m.base, dir, m.inner, last)
        invariant Valid() && Written(old(cells), level)
        invariant fresh(newCache) && newCache.run == dirruns && newCache.done == m.done
        invariant Climbing(e, m, last, newCache, level)
        decreases Rank(dir, last)
      {
        var q := elem.value;
        if Visits(e.tree, m.base, dir, q) {
          var stop;
          r, stop := Visit(e, m, last, q, newCache, level);
          if stop { return; }
        }
        last := q;
        elem := Follow(dir, q);
      }
      r := false;
    }

    /** compile: one element matcher per selector of the group, the last first */
    method Compile(groups: seq<seq<Token>>) returns (matchers: seq<Matcher>)
      requires Valid() && forall g :: g in groups ==> g != []
      modifies this`done, this`names
      ensures Valid()
      ensures done >= old(done) && Grown(old(names), names) && CompiledFrom(names, done, matchers, groups)
    {
      matchers := [];
      var i := |groups|;
      while i > 0
        invariant 0 <= i <= |groups|
        invariant Valid() && done >= old(done) && Grown(old(names), names)
        invariant CompiledFrom(names, done, matchers, groups[i..])
      {
        i := i - 1;
        assert groups[i..] == [groups[i]] + groups[i + 1..] && groups[i] in groups;
        ghost var before, named := names, done;
        var m := MatcherFromTokens(groups[i]);
        hide CompiledFrom, WellNamed, NamesBelow, ElementMatcher, Matchers, Named;
        StillCompiled(before, named, names, done, matchers, groups[i + 1..]);
        OneMoreCompiled(names, done, matchers, groups[i], groups[i + 1..], named);
        matchers := matchers + [m];
      }
      assert groups[0..] == groups;
    }

    /** The element loop of superMatcher, run as the outermost matcher. */
    method SuperMatcher(e: Env, matchers: seq<Matcher>, elems: seq<Path>) returns (results: seq<Path>)
      requires Valid() && forall m :: m in matchers ==> WellNamed(names, m) && NamesBelow(m, done)
      modifies this`dirruns, this`cells
      ensures Valid()
      ensures results == Kept(elems, p => AnyAccepts(e, matchers, p))
    {
      dirruns := dirruns + 1;
      results := [];
      ghost var accepted := p => AnyAccepts(e, matchers, p);
      var i := 0;
      while i < |elems|
        invariant 0 <= i <= |elems|
        invariant Valid() && CacheOk(e, done)
        invariant results == Kept(elems[..i], accepted)
      {
        var j, found := 0, false;
        while j < |matchers| && !found
          invariant 0 <= j <= |matchers|
          invariant Valid() && CacheOk(e, done)
          invariant found ==> AnyAccepts(e, matchers, elems[i])
          invariant !found ==> forall k :: 0 <= k < j ==> !Accepts(e, matchers[k], elems[i])
        {
          found := Match(e, matchers[j], elems[i], done);
          j := j + 1;
        }
        if found { results := results + [elems[i]]; }
        assert elems[..i + 1][..i] == elems[..i];
        i := i + 1;
      }
      assert elems[..i] == elems;
    }

    /** A compiled selector run over the candidates keeps, in order, those the selector selects. */
    method Run(e: Env, groups: seq<seq<Token>>, elems: seq<Path>) returns (results: seq<Path>)
      requires Valid() && forall g :: g in groups ==> g != []
      requires WellFormed(e.tree) && forall p :: p in elems ==> IsElement(e.tree, p)
      modifies this
      ensures Valid()
      ensures results == Kept(elems, p => Selected(e, groups, p))
    {
      var matchers := Compile(groups);
      results := SuperMatcher(e, matchers, elems);
      KeptSame(elems, p => AnyAccepts(e, matchers, p), p => Selected(e, groups, p));
    }
  }

  /** Names are never given anew. */
  ghost predicate Grown(names: map<nat, Matcher>, names': map<nat, Matcher>) {
    forall d :: d in names ==> d in names' && names'[d] == names[d]
  }

  /** The matchers accept what the groups select, and their climbs have names of their own. */
  ghost predicate CompiledFrom(names: map<nat, Matcher>, done: nat, matchers: seq<Matcher>, groups: seq<seq<Token>>) {
    && (forall m :: m in matchers ==> WellNamed(names, m) && NamesBelow(m, done))
    && forall e: Env, p :: WellFormed(e.tree) && IsElement(e.tree, p) ==>
         (AnyAccepts(e, matchers, p) <==> Selected(e, groups, p))
  }

  lemma StillCompiled(names: map<nat, Matcher>, done: nat, names': map<nat, Matcher>, done': nat,
                      matchers: seq<Matcher>, groups: seq<seq<Token>>)
    requires CompiledFrom(names, done, matchers, groups) && done <= done' && Grown(names, names')
    ensures CompiledFrom(names', done', matchers, groups)
  {
    forall m | m in matchers ensures WellNamed(names', m) && NamesBelow(m, done') {
      NamesGrow(names, names', m, done, done');
    }
  }

  lemma OneMoreCompiled(names: map<nat, Matcher>, done: nat, matchers: seq<Matcher>, group: seq<Token>,
                        rest: seq<seq<Token>>, start: nat)
    requires CompiledFrom(names, done, matchers, rest) && group != []
    requires var m := ElementMatcher(Matchers(group, start)); WellNamed(names, m) && NamesBelow(m, done)
    ensures CompiledFrom(names, done, matchers + [ElementMatcher(Matchers(group, start))], [group] + rest)
  {
    hide WellNamed, NamesBelow, ElementMatcher, Matchers, AnyAccepts, Selected;
    forall e: Env, p | WellFormed(e.tree) && IsElement(e.tree, p)
      ensures AnyAccepts(e, matchers + [ElementMatcher(Matchers(group, start))], p) <==> Selected(e, [group] + rest, p)
    {
      OneMoreGroup(e, group, rest, matchers, start, p);
    }
  }

  ghost predicate AnyAccepts(e: Env, matchers: seq<Matcher>, p: Path) {
    exists k :: 0 <= k < |matchers| && Accepts(e, matchers[k], p)
  }

  ghost predicate Selected(e: Env, groups: seq<seq<Token>>, p: Path) {
    exists k :: 0 <= k < |groups| && Selects(e, Parse(groups[k]), p)
  }

  lemma OneMoreGroup(e: Env, group: seq<Token>, rest: seq<seq<Token>>, matchers: seq<Matcher>, done: nat, p: Path)
    requires group != [] && WellFormed(e.tree) && IsElement(e.tree, p)
    requires AnyAccepts(e, matchers, p) <==> Selected(e, rest, p)
    ensures AnyAccepts(e, matchers + [ElementMatcher(Matchers(group, done))], p) <==> Selected(e, [group] + rest, p)
  {
    var m := ElementMatcher(Matchers(group, done));
    CompilationPreservesMeaning(e, group, done, p);
    var ms, gs := matchers + [m], [group] + rest;
    assert ms[|matchers|] == m && gs[0] == group;
    forall k | 0 <= k < |matchers| ensures ms[k] == matchers[k] {}
    forall k | 0 <= k < |rest| ensures gs[k + 1] == rest[k] {}
    if AnyAccepts(e, ms, p) {
      var k :| 0 <= k < |ms| && Accepts(e, ms[k], p);
      assert k < |matchers| ==> AnyAccepts(e, matchers, p);
    }
    if Selected(e, gs, p) {
      var k :| 0 <= k < |gs| && Selects(e, Parse(gs[k]), p);
      assert k > 0 ==> gs[k] == rest[k - 1];
    }
    if Selected(e, rest, p) {
      var k :| 0 <= k < |rest| && Selects(e, Parse(rest[k]), p);
      assert gs[k + 1] == rest[k];
    }
  }
}
