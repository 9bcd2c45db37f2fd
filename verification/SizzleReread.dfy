/**
 The tokens that select's edits leave are those that reading their own text afresh gives.  So compile may keep
 its results under the text alone.
*/
module SizzleReread {
  import Lists
  import opened SizzleTokenize

  // ---------------------------------------------------------------- reading by tokens instead of passes

  predicate IsCombinator(lex: Lexer, s: string, t: TextToken) {
    lex.combinator(s) == |t.value| && t.kind == lex.combinatorKind(t.value) && t.matches == []
  }

  predicate IsFilter(lex: Lexer, s: string, t: TextToken) {
    t.kind in lex.types && lex.filter(t.kind, s) == Lexeme(|t.value|, t.matches)
  }

  /** The text starts with this token. */
  predicate Starts(lex: Lexer, s: string, t: TextToken) {
    0 < |t.value| <= |s| && s[..|t.value|] == t.value && (IsCombinator(lex, s, t) || IsFilter(lex, s, t))
  }

  /** Where a filter's pattern matches, no other pattern does. */
  ghost predicate Exclusive(lex: Lexer) {
    forall s, kind :: kind in lex.types && lex.filter(kind, s).length > 0 ==>
      lex.comma(s) == 0 && lex.combinator(s) == 0 &&
      forall other :: other in lex.types && lex.filter(other, s).length > 0 ==> other == kind
  }

  /** Each token is read where its text stands in the whole; from the one at `from` on, no comma is in its way. */
  ghost predicate Chain(lex: Lexer, ts: seq<TextToken>, from: nat) {
    forall i :: 0 <= i < |ts| ==> Starts(lex, Text(ts[i..]), ts[i]) && (i >= from ==> lex.comma(Text(ts[i..])) == 0)
  }

  lemma ChainTail(lex: Lexer, ts: seq<TextToken>, from: nat)
    requires Chain(lex, ts, from) && ts != []
    ensures Chain(lex, ts[1..], if from == 0 then 0 else from - 1)
  {
    hide Text, Starts;
    forall i | 0 <= i < |ts| - 1 ensures ts[1..][i] == ts[i + 1] && ts[1..][i..] == ts[i + 1..] {}
  }

  lemma ChainAdds(lex: Lexer, s: string, t: TextToken, ts: seq<TextToken>, from: nat)
    requires Chain(lex, ts, 0) && Starts(lex, s, t) && s[|t.value|..] == Text(ts) && (from == 0 ==> lex.comma(s) == 0)
    ensures Chain(lex, [t] + ts, from) && Text([t] + ts) == s
  {
    var all := [t] + ts;
    hide Text, Chain;
    assert all[1..] == ts;
    TextHead(all);
    assert s == s[..|t.value|] + s[|t.value|..];
    hide Starts;
    ChainHead(lex, all, from);
  }

  lemma ChainHead(lex: Lexer, ts: seq<TextToken>, from: nat)
    requires ts != [] && Chain(lex, ts[1..], 0) && Starts(lex, Text(ts), ts[0])
    requires from == 0 ==> lex.comma(Text(ts)) == 0
    ensures Chain(lex, ts, from)
  {
    hide Text, Starts;
    assert ts[0..] == ts;
    forall i | 0 < i < |ts| ensures ts[1..][i - 1..] == ts[i..] && ts[1..][i - 1] == ts[i] {}
  }

  lemma TextHead(ts: seq<TextToken>)
    requires ts != []
    ensures Text(ts) == ts[0].value + Text(ts[1..])
  {
    assert ts == [ts[0]] + ts[1..];
    TextAppends([ts[0]], ts[1..]);
    assert Text([ts[0]]) == ts[0].value by { assert [ts[0]][..0] == []; }
  }

  // ---------------------------------------------------------------- what a reading reads is a chain

  lemma {:induction false} FiltersChain(lex: Lexer, k: nat, s: string, ts: seq<TextToken>)
    requires lex.Sound() && Exclusive(lex) && k <= |lex.types|
    requires Chain(lex, ts, 0) && Text(ts) == Filters(lex, k, s).rest
    ensures Chain(lex, Filters(lex, k, s).tokens + ts, 0) && Text(Filters(lex, k, s).tokens + ts) == s
    decreases |lex.types| - k
  {
    hide Text, Chain;
    if k == |lex.types| {
      assert [] + ts == ts;
    } else {
      var kind := lex.types[k];
      var x := lex.filter(kind, s);
      if x.length == 0 {
        FiltersChain(lex, k + 1, s, ts);
      } else {
        var t, more := TextToken(s[..x.length], kind, x.matches), Filters(lex, k + 1, s[x.length..]).tokens;
        FiltersChain(lex, k + 1, s[x.length..], ts);
        ChainAdds(lex, s, t, more + ts, 0);
        assert [t] + (more + ts) == [t] + more + ts;
      }
    }
  }

  lemma PassChain(lex: Lexer, s: string, ts: seq<TextToken>, from: nat)
    requires lex.Sound() && Exclusive(lex) && (from == 0 ==> lex.comma(s) == 0)
    requires Chain(lex, ts, 0) && Text(ts) == Pass(lex, s).rest
    ensures Chain(lex, Pass(lex, s).tokens + ts, from) && Text(Pass(lex, s).tokens + ts) == s
  {
    hide Text, Filters, Chain, Exclusive, Starts, Combinator;
    var c := Combinator(lex, s);
    var f := Filters(lex, 0, c.rest);
    CombinatorStarts(lex, s);
    FiltersChain(lex, 0, c.rest, ts);
    if lex.combinator(s) > 0 {
      ChainAdds(lex, s, c.tokens[0], f.tokens + ts, from);
      assert c.tokens + f.tokens + ts == [c.tokens[0]] + (f.tokens + ts);
    } else {
      assert c.tokens + f.tokens + ts == f.tokens + ts;
      LessComma(lex, f.tokens + ts, from);
    }
  }

  lemma CombinatorStarts(lex: Lexer, s: string)
    requires lex.Sound()
    ensures var c := Combinator(lex, s);
            if lex.combinator(s) == 0 then c == Scan([], s)
            else |c.tokens| == 1 && Starts(lex, s, c.tokens[0]) && s[|c.tokens[0].value|..] == c.rest
  {
  }

  lemma LessComma(lex: Lexer, ts: seq<TextToken>, from: nat)
    requires Chain(lex, ts, 0)
    ensures Chain(lex, ts, from)
  {
  }

  /** Groups are only ever opened. */
  lemma {:induction false} MoreGroups(lex: Lexer, st: Parse)
    requires lex.Sound()
    ensures |Finish(lex, st).groups| >= |st.groups|
    ensures st.rest != "" ==> |Finish(lex, st).groups| >= |Open(lex, st).groups|
    decreases |st.rest|
  {
    FinishStep(lex, st);
    hide Pass;
    if st.rest != "" && Pass(lex, Open(lex, st).rest).tokens != [] {
      StepShrinks(lex, st);
      MoreGroups(lex, Step(lex, st));
    }
    hide Finish;
  }

  lemma FirstRead(lex: Lexer, s: string)
    requires lex.Sound() && Pass(lex, s).tokens != []
    ensures var p := Pass(lex, s);
            s != "" && Step(lex, Parse([], [], s)) == Parse([p.tokens], [""], p.rest) &&
            Tokens(lex, s) == Finish(lex, Step(lex, Parse([], [], s)))
  {
    PassConsumes(lex, s);
    FinishStep(lex, Parse([], [], s));
    hide Finish, Pass;
    assert [] + Pass(lex, s).tokens == Pass(lex, s).tokens;
  }

  lemma StepRead(lex: Lexer, st: Parse)
    requires lex.Sound() && |st.groups| == 1 && st.rest != "" && lex.comma(st.rest) == 0
    requires Pass(lex, st.rest).tokens != []
    ensures var p := Pass(lex, st.rest);
            Step(lex, st) == Parse([st.groups[0] + p.tokens], st.commas, p.rest) &&
            Finish(lex, st) == Finish(lex, Step(lex, st))
  {
    assert Open(lex, st) == st;
    hide *;
    FinishStep(lex, st);
    StepIs(lex, st);
    OnlyGroup(st.groups, Pass(lex, st.rest).tokens);
  }

  lemma OnlyGroup(groups: seq<seq<TextToken>>, tokens: seq<TextToken>)
    requires |groups| == 1
    ensures AddTokens(groups, tokens) == [groups[0] + tokens]
  {
  }

  lemma NotAtComma(lex: Lexer, ts: seq<TextToken>)
    requires Chain(lex, ts, 0) && ts != []
    ensures Text(ts) != "" && lex.comma(Text(ts)) == 0
  {
    assert ts[0..] == ts;
    hide Text;
  }

  /** A lone group read whole has no comma ahead, and every pass finds something. */
  lemma GoesOn(lex: Lexer, st: Parse)
    requires lex.Sound() && |st.groups| == 1 && Alone(Finish(lex, st)) && st.rest != ""
    ensures lex.comma(st.rest) == 0 && Pass(lex, st.rest).tokens != []
  {
    MoreGroups(lex, st);
    PassStuck(lex, st.rest);
    FinishStep(lex, st);
    hide Finish, Pass;
  }

  /** From the second pass on. */
  lemma {:induction false} FinishChain(lex: Lexer, st: Parse)
    requires lex.Sound() && Exclusive(lex) && |st.groups| == 1 && Alone(Finish(lex, st))
    ensures var g, g' := st.groups[0], Finish(lex, st).groups[0];
            g <= g' && Chain(lex, g'[|g|..], 0) && Text(g'[|g|..]) == st.rest
    decreases |st.rest|
  {
    hide Exclusive, Chain, Pass, Text, Step, Open;
    if st.rest == "" {
      NoChain(lex, st.groups[0][|st.groups[0]|..]);
    } else {
      hide Finish;
      GoesOn(lex, st);
      StepRead(lex, st);
      PassConsumes(lex, st.rest);
      var p, next := Pass(lex, st.rest), Step(lex, st);
      FinishChain(lex, next);
      var g, g' := st.groups[0], Finish(lex, next).groups[0];
      var ts := g'[|g + p.tokens|..];
      PassChain(lex, st.rest, ts, 0);
      assert g'[|g|..] == p.tokens + ts;
    }
  }

  lemma NoChain(lex: Lexer, ts: seq<TextToken>)
    requires ts == []
    ensures Chain(lex, ts, 0) && Text(ts) == ""
  {
  }

  lemma PassStuck(lex: Lexer, s: string)
    requires lex.Sound()
    ensures Pass(lex, s).tokens == [] ==> Pass(lex, s).rest == s
  {
    PassPrints(lex, s);
  }

  lemma FirstPass(lex: Lexer, selector: string)
    requires lex.Sound() && Alone(Tokens(lex, selector))
    ensures Pass(lex, selector).tokens != []
  {
    FinishStep(lex, Parse([], [], selector));
    PassStuck(lex, selector);
    hide Finish, Pass;
  }

  lemma ReadingIsChain(lex: Lexer, selector: string)
    requires lex.Sound() && Exclusive(lex) && Alone(Tokens(lex, selector))
    ensures Tokens(lex, selector).groups[0] != [] && Chain(lex, Tokens(lex, selector).groups[0], 1)
  {
    hide Pass, Step, Finish, Chain, Text, Exclusive, Tokens;
    FirstPass(lex, selector);
    FirstRead(lex, selector);
    var p, next := Pass(lex, selector), Step(lex, Parse([], [], selector));
    FinishChain(lex, next);
    var g' := Finish(lex, next).groups[0];
    PassChain(lex, selector, g'[|p.tokens|..], 1);
    assert g' == p.tokens + g'[|p.tokens|..];
  }

  // ---------------------------------------------------------------- and a chain is read as it is

  /** Only the right filter's pattern reads on. */
  lemma OneFilter(lex: Lexer, k: nat, ts: seq<TextToken>)
    requires lex.Sound() && Exclusive(lex) && Chain(lex, ts, 1) && k < |lex.types|
    requires lex.filter(lex.types[k], Text(ts)).length > 0
    ensures ts != []
    ensures var more := Filters(lex, k + 1, Text(ts[1..]));
            Filters(lex, k, Text(ts)) == Scan([ts[0]] + more.tokens, more.rest)
  {
    var s := Text(ts);
    if ts != [] {
      assert ts[0..] == ts;
      assert Starts(lex, s, ts[0]);
      TextHead(ts);
      assert ts[0].kind == lex.types[k];
    }
    hide Text;
  }

  lemma ChainMiss(lex: Lexer, ts: seq<TextToken>)
    requires Chain(lex, ts, 1) && ts != [] && lex.combinator(Text(ts)) == 0
    ensures ts[0].kind in lex.types && lex.filter(ts[0].kind, Text(ts)).length > 0
  {
    assert ts[0..] == ts;
    hide Text;
  }

  lemma BehindFirst(ts: seq<TextToken>, n: nat)
    requires n < |ts|
    ensures ts[1..][n..] == ts[n + 1..] && [ts[0]] + ts[1..][..n] == ts[..n + 1]
  {
  }

  lemma FiltersNext(lex: Lexer, k: nat, s: string)
    requires lex.Sound() && k <= |lex.types|
    ensures k == |lex.types| ==> Filters(lex, k, s) == Scan([], s)
    ensures k < |lex.types| && lex.filter(lex.types[k], s).length == 0 ==> Filters(lex, k, s) == Filters(lex, k + 1, s)
  {
  }

  /** From filter k on, tokens are read off the chain; the first one if its filter is still to come. */
  lemma {:induction false} FiltersRead(lex: Lexer, k: nat, ts: seq<TextToken>) returns (n: nat)
    requires lex.Sound() && Exclusive(lex) && k <= |lex.types| && Chain(lex, ts, 1)
    ensures n <= |ts| && Filters(lex, k, Text(ts)) == Scan(ts[..n], Text(ts[n..])) && Chain(lex, ts[n..], 1)
    ensures n > 0 ==> Chain(lex, ts[n..], 0)
    ensures n == 0 ==> forall i :: k <= i < |lex.types| ==> lex.filter(lex.types[i], Text(ts)).length == 0
    decreases |lex.types| - k
  {
    hide *;
    var s := Text(ts);
    n := 0;
    assert ts[0..] == ts && ts[..0] == [];
    FiltersNext(lex, k, s);
    if k < |lex.types| {
      if lex.filter(lex.types[k], s).length == 0 {
        n := FiltersRead(lex, k + 1, ts);
      } else {
        OneFilter(lex, k, ts);
        ChainTail(lex, ts, 1);
        LessComma(lex, ts[1..], 1);
        n := FiltersRead(lex, k + 1, ts[1..]);
        BehindFirst(ts, n);
        n := n + 1;
      }
    }
  }

  lemma PassRead(lex: Lexer, ts: seq<TextToken>) returns (n: nat)
    requires lex.Sound() && Exclusive(lex) && Chain(lex, ts, 1) && ts != []
    ensures 0 < n <= |ts| && Pass(lex, Text(ts)) == Scan(ts[..n], Text(ts[n..])) && Chain(lex, ts[n..], 0)
  {
    hide Text, Chain, Filters;
    var s := Text(ts);
    if lex.combinator(s) > 0 {
      CombinatorRead(lex, ts);
      hide Combinator;
      ChainTail(lex, ts, 1);
      LessComma(lex, ts[1..], 1);
      n := FiltersRead(lex, 0, ts[1..]);
      BehindFirst(ts, n);
      n := n + 1;
    } else {
      ChainMiss(lex, ts);
      n := FiltersRead(lex, 0, ts);
      assert [] + ts[..n] == ts[..n];
    }
  }

  lemma CombinatorRead(lex: Lexer, ts: seq<TextToken>)
    requires lex.Sound() && Exclusive(lex) && Chain(lex, ts, 1) && ts != [] && lex.combinator(Text(ts)) > 0
    ensures Combinator(lex, Text(ts)) == Scan([ts[0]], Text(ts[1..]))
  {
    TextHead(ts);
    assert ts[0..] == ts;
    hide Text;
    assert Starts(lex, Text(ts), ts[0]);
  }

  lemma {:induction false} FinishRead(lex: Lexer, st: Parse, ts: seq<TextToken>)
    requires lex.Sound() && Exclusive(lex) && |st.groups| == 1 && Chain(lex, ts, 0) && st.rest == Text(ts)
    ensures Finish(lex, st) == Parse([st.groups[0] + ts], st.commas, "")
    decreases |ts|
  {
    hide Finish, Pass, Text, Chain, Exclusive, Step;
    if ts == [] {
      NothingToRead(lex, st, ts);
    } else {
      NotAtComma(lex, ts);
      LessComma(lex, ts, 1);
      var n := PassRead(lex, ts);
      StepRead(lex, st);
      FinishRead(lex, Step(lex, st), ts[n..]);
      assert st.groups[0] + ts[..n] + ts[n..] == st.groups[0] + ts;
    }
  }

  lemma NothingToRead(lex: Lexer, st: Parse, ts: seq<TextToken>)
    requires lex.Sound() && |st.groups| == 1 && ts == [] && st.rest == Text(ts)
    ensures Finish(lex, st) == Parse([st.groups[0] + ts], st.commas, "")
  {
    assert st.groups[0] + ts == st.groups[0];
  }

  /** Reading a chain's text gives the chain. */
  lemma ChainIsRead(lex: Lexer, ts: seq<TextToken>)
    requires lex.Sound() && Exclusive(lex) && Chain(lex, ts, 1) && ts != []
    ensures Tokens(lex, Text(ts)).groups == [ts] && Tokens(lex, Text(ts)).rest == ""
  {
    hide Pass, Text, Chain, Exclusive, Finish, Step;
    var n := PassRead(lex, ts);
    FirstRead(lex, Text(ts));
    var next := Step(lex, Parse([], [], Text(ts)));
    FinishRead(lex, next, ts[n..]);
    assert ts[..n] + ts[n..] == ts;
  }

  // ---------------------------------------------------------------- reading again what is left

  /** These groups are what the text reads as. */
  ghost predicate ReadsAs(lex: Lexer, selector: string, groups: seq<seq<TextToken>>)
    requires lex.Sound()
  {
    Tokens(lex, selector).groups == groups && Tokens(lex, selector).rest == ""
  }

  /** Tokens are read again from their own text exactly when they are a chain. */
  lemma RereadExactly(lex: Lexer, ts: seq<TextToken>)
    requires lex.Sound() && Exclusive(lex) && ts != []
    ensures ReadsAs(lex, Text(ts), [ts]) <==> Chain(lex, ts, 1)
  {
    hide Chain, Exclusive, Tokens, Text;
    if Chain(lex, ts, 1) { ChainIsRead(lex, ts); }
    if ReadsAs(lex, Text(ts), [ts]) { ReadingIsChain(lex, Text(ts)); }
  }

  /** With token i gone, the patterns still find each token in front of it where it now stands, and no comma there. */
  ghost predicate FrontStillRead(lex: Lexer, ts: seq<TextToken>, i: nat)
    requires i < |ts|
  {
    forall j :: 0 <= j < i ==>
      Starts(lex, Text(Without(ts, i)[j..]), ts[j]) && (j >= 1 ==> lex.comma(Text(Without(ts, i)[j..])) == 0)
  }

  lemma WithoutIsChain(lex: Lexer, ts: seq<TextToken>, i: nat)
    requires Chain(lex, ts, 1) && i < |ts|
    ensures Chain(lex, Without(ts, i), 1) <==> FrontStillRead(lex, ts, i)
  {
    hide Text, Starts;
    var after := Without(ts, i);
    forall j | 0 <= j < i ensures after[j] == ts[j] {}
    forall j | i <= j < |after| ensures after[j..] == ts[j + 1..] && after[j] == ts[j + 1] {}
  }

  // ---------------------------------------------------------------- select's edits

  /** Taking out the seed at i, if that is what an edit did, disturbs nothing in front of it. */
  ghost predicate Undisturbed(lex: Lexer, before: seq<TextToken>, after: seq<TextToken>, relative: string -> bool,
                              find: Lookup) {
    forall i :: SeedsAt(before, i, relative, find) && after == Without(before, i) ==> FrontStillRead(lex, before, i)
  }

  /**
   The tokens select leaves of a lone group are what reading their own text gives, exactly when each token in front
   of the one taken out is still found there.  Without a seed, or with the seed in front, they always are.
  */
  lemma EditsReread(lex: Lexer, selector: string, onDocument: bool, needsContext: string -> bool,
                    relative: string -> bool, find: Lookup, after: seq<TextToken>, left: string)
    requires lex.Sound() && Exclusive(lex) && Alone(Tokens(lex, selector))
    requires Edited(Shortened(Tokens(lex, selector).groups[0], onDocument, relative), after, Go(left), needsContext,
                    relative, find)
    ensures ReadsAs(lex, left, [after]) <==>
            Undisturbed(lex, Shortened(Tokens(lex, selector).groups[0], onDocument, relative), after, relative, find)
  {
    var ts := Tokens(lex, selector).groups[0];
    var before := Shortened(ts, onDocument, relative);
    hide *;
    ReadingIsChain(lex, selector);
    ShortenedChain(lex, ts, onDocument, relative);
    EditLeavesSome(before, after, left, needsContext, relative, find);
    EditedChain(lex, before, after, left, needsContext, relative, find);
    RereadExactly(lex, after);
  }

  lemma ShortenedChain(lex: Lexer, ts: seq<TextToken>, onDocument: bool, relative: string -> bool)
    requires Chain(lex, ts, 1) && ts != []
    ensures Chain(lex, Shortened(ts, onDocument, relative), 1) && Shortened(ts, onDocument, relative) != []
  {
    hide Chain;
    ChainTail(lex, ts, 1);
    LessComma(lex, ts[1..], 1);
  }

  lemma EditLeavesSome(before: seq<TextToken>, after: seq<TextToken>, left: string, needsContext: string -> bool,
                       relative: string -> bool, find: Lookup)
    requires before != [] && Edited(before, after, Go(left), needsContext, relative, find)
    ensures after != [] && left == Text(after)
  {
    if after != before { assert Text(after) != ""; }
  }

  lemma EditedChain(lex: Lexer, before: seq<TextToken>, after: seq<TextToken>, left: string,
                    needsContext: string -> bool, relative: string -> bool, find: Lookup)
    requires Chain(lex, before, 1) && Edited(before, after, Go(left), needsContext, relative, find)
    ensures Chain(lex, after, 1) <==> Undisturbed(lex, before, after, relative, find)
  {
    hide Text, Chain, FrontStillRead;
    if after != before {
      var i: nat :| SeedsAt(before, i, relative, find) && after == Without(before, i);
      WithoutIsChain(lex, before, i);
      forall k | SeedsAt(before, k, relative, find) ensures k == i {}
    } else {
      forall k: nat | k < |before| ensures |Without(before, k)| < |before| {}
    }
  }

  // ---------------------------------------------------------------- a pattern that looks far ahead

  /** A text in four pieces, the first with two arguments that its pattern may take out of what follows. */
  datatype Pieces = Pieces(pseudo: string, tag: string, first: string, second: string,
                           near: seq<string>, far: seq<string>)
  {
    function Classes(): string {
      first + second
    }

    function Behind(): string {
      tag + Classes()
    }

    function Searched(): string {
      pseudo + Behind()
    }

    /** Without the tag */
    function Left(): string {
      pseudo + Classes()
    }

    predicate Sized() {
      0 < |tag| < |pseudo| && first != "" && second != ""
    }

    /** Of the text searched the pseudo takes its own piece, of the text left the first class too. */
    function LookAhead(): Lexer {
      Lexer(s => 0, s => 0, s => s, ["TAG", "CLASS", "PSEUDO"],
            (kind, s) =>
              if kind == "PSEUDO" && s == Searched() then Lexeme(|pseudo|, near)
              else if kind == "TAG" && s == Behind() then Lexeme(|tag|, [])
              else if kind == "CLASS" && s == Classes() then Lexeme(|first|, [])
              else if kind == "CLASS" && s == second then Lexeme(|second|, [])
              else if kind == "PSEUDO" && s == Left() then Lexeme(|pseudo| + |first|, far)
              else Lexeme(0, []))
    }

    function AsSearched(): seq<TextToken> {
      [TextToken(pseudo, "PSEUDO", near), TextToken(tag, "TAG", []), TextToken(first, "CLASS", []),
       TextToken(second, "CLASS", [])]
    }

    function AsLeft(): seq<TextToken> {
      [TextToken(pseudo, "PSEUDO", near), TextToken(first, "CLASS", []), TextToken(second, "CLASS", [])]
    }

    function AsReread(): seq<TextToken> {
      [TextToken(pseudo + first, "PSEUDO", far), TextToken(second, "CLASS", [])]
    }

    lemma Sizes()
      requires Sized()
      ensures |second| < |Classes()| < |Behind()| < |Left()| < |Searched()|
      ensures |tag| <= |Behind()| && |first| <= |Classes()| && |pseudo| + |first| <= |Left()|
    {
    }

    lemma Fits()
      requires Sized()
      ensures LookAhead().Sound() && Exclusive(LookAhead())
    {
      Sizes();
      hide Classes, Behind, Left, Searched, Sized;
      var lex := LookAhead();
      forall s: string, kind: string ensures lex.filter(kind, s).length <= |s| {}
      forall s, kind | lex.filter(kind, s).length > 0
        ensures kind == if s == Behind() then "TAG" else if s == Classes() || s == second then "CLASS" else "PSEUDO"
      {
      }
    }

    lemma Texts()
      ensures var ts := AsSearched(); Text(ts) == Searched() && Text(ts[1..]) == Behind()
      ensures var ts := AsSearched(); Text(ts[2..]) == Classes() && Text(ts[3..]) == second
      ensures var ts := AsReread(); Text(ts) == Left() && Text(ts[1..]) == second
      ensures Text(AsLeft()) == Left()
    {
      hide Text;
      var ts, ls, rs := AsSearched(), AsLeft(), AsReread();
      TextOf(ts[3..], ts[3], []);
      TextOf(ts[2..], ts[2], ts[3..]);
      TextOf(ts[1..], ts[1], ts[2..]);
      TextOf(ts, ts[0], ts[1..]);
      TextOf(ls, ts[0], ts[2..]);
      TextOf(rs[1..], ts[3], []);
      TextOf(rs, rs[0], rs[1..]);
      assert (pseudo + first) + second == pseudo + (first + second);
    }

    lemma SomeTokens()
      ensures AsSearched() != [] && AsReread() != []
    {
    }

    /** What the patterns find at each place. */
    lemma Found()
      requires Sized()
      ensures Starts(LookAhead(), Searched(), TextToken(pseudo, "PSEUDO", near))
      ensures Starts(LookAhead(), Behind(), TextToken(tag, "TAG", []))
      ensures Starts(LookAhead(), Classes(), TextToken(first, "CLASS", []))
      ensures Starts(LookAhead(), second, TextToken(second, "CLASS", []))
      ensures Starts(LookAhead(), Left(), TextToken(pseudo + first, "PSEUDO", far))
    {
      Sizes();
      assert Left() == (pseudo + first) + second;
      hide Text;
    }

    lemma Behinds()
      ensures Searched()[|pseudo|..] == Behind() && Behind()[|tag|..] == Classes() && Classes()[|first|..] == second
      ensures Left()[|pseudo + first|..] == second && second[|second|..] == ""
    {
      assert Left() == (pseudo + first) + second;
    }

    lemma NothingYet(lex: Lexer)
      ensures Chain(lex, [], 0) && Text([]) == ""
    {
    }

    lemma SearchedChain()
      requires Sized()
      ensures Chain(LookAhead(), AsSearched(), 1)
    {
      var lex, ts := LookAhead(), AsSearched();
      assert forall s :: lex.comma(s) == 0;
      assert ts == [ts[0]] + ([ts[1]] + ([ts[2]] + ([ts[3]] + [])));
      assert ts[0] == TextToken(pseudo, "PSEUDO", near) && ts[1] == TextToken(tag, "TAG", []);
      assert ts[2] == TextToken(first, "CLASS", []) && ts[3] == TextToken(second, "CLASS", []);
      hide *;
      Found();
      Behinds();
      NothingYet(lex);
      ChainAdds(lex, second, ts[3], [], 0);
      ChainAdds(lex, Classes(), ts[2], [ts[3]] + [], 0);
      ChainAdds(lex, Behind(), ts[1], [ts[2]] + ([ts[3]] + []), 0);
      ChainAdds(lex, Searched(), ts[0], [ts[1]] + ([ts[2]] + ([ts[3]] + [])), 0);
      LessComma(lex, ts, 1);
    }

    lemma RereadChain()
      requires Sized()
      ensures Chain(LookAhead(), AsReread(), 1)
    {
      var lex, rs := LookAhead(), AsReread();
      assert forall s :: lex.comma(s) == 0;
      assert rs == [rs[0]] + ([rs[1]] + []);
      assert rs[0] == TextToken(pseudo + first, "PSEUDO", far) && rs[1] == TextToken(second, "CLASS", []);
      hide *;
      Found();
      Behinds();
      NothingYet(lex);
      ChainAdds(lex, second, rs[1], [], 0);
      ChainAdds(lex, Left(), rs[0], [rs[1]] + [], 0);
      LessComma(lex, rs, 1);
    }

    lemma Chains()
      requires Sized()
      ensures Chain(LookAhead(), AsSearched(), 1) && Chain(LookAhead(), AsReread(), 1)
    {
      hide *;
      SearchedChain();
      RereadChain();
    }
  }

  /** The search from an XML document has a lookup for tags only; here it finds the root. */
  function FindTags(t: TextToken): Lists.Option<Nodes> {
    if t.kind == "TAG" then Lists.Some([[]]) else Lists.None
  }

  lemma TextOf(ts: seq<TextToken>, t: TextToken, rest: seq<TextToken>)
    requires ts == [t] + rest
    ensures Text(ts) == t.value + (if rest == [] then "" else Text(rest))
  {
    TextHead(ts);
    assert ts[1..] == rest;
  }

  /** Both texts are read whole. */
  lemma ReadOtherwise(w: Pieces)
    requires w.Sized()
    ensures w.LookAhead().Sound() && Exclusive(w.LookAhead())
    ensures ReadsAs(w.LookAhead(), w.Searched(), [w.AsSearched()]) && ReadsAs(w.LookAhead(), w.Left(), [w.AsReread()])
  {
    hide *;
    w.Fits();
    w.Texts();
    w.Chains();
    w.SomeTokens();
    ChainIsRead(w.LookAhead(), w.AsSearched());
    ChainIsRead(w.LookAhead(), w.AsReread());
    ReadWhole(w.LookAhead(), w.AsSearched());
    ReadWhole(w.LookAhead(), w.AsReread());
  }

  lemma ReadWhole(lex: Lexer, ts: seq<TextToken>)
    requires lex.Sound() && Tokens(lex, Text(ts)).groups == [ts] && Tokens(lex, Text(ts)).rest == ""
    ensures ReadsAs(lex, Text(ts), [ts])
  {
  }

  /** With the tag as seed the search leaves tokens of the one under the text of the other. */
  lemma LeftOfSearch(w: Pieces)
    requires w.Sized()
    ensures Edited(Shortened(w.AsSearched(), false, _ => false), w.AsLeft(), Go(w.Left()), _ => false, _ => false,
                   FindTags)
    ensures w.AsLeft() != w.AsReread()
  {
    w.Texts();
    w.Sizes();
    var ts := w.AsSearched();
    assert Without(ts, 1) == w.AsLeft();
    hide Text;
    assert SeedsAt(ts, 1, _ => false, FindTags);
    assert !SeedSuffices(ts, 1, [[]]);
  }

  /**
   :contains(()x\:y.c\).d, as Sizzle reads it.  The :y makes the prefilter look inside the parentheses and give back
   all behind the first one.  Without x\:y there is no such sign, and :contains takes all up to the last
   parenthesis, which belongs to the class.
  */
  const CONTAINS := Pieces(":contains(()", "x\\:y", ".c\\)", ".d", ["contains", "("], ["contains", "().c\\"])

  lemma ContainsIsSized()
    ensures CONTAINS.Sized()
  {
  }
}
