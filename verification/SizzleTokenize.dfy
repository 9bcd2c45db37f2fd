/**
 Sizzle's tokenize, its token cache, and select's edits of what the cache handed out. The patterns are
 abstract: each says how much of the text ahead it matches, nothing being no match.
*/
module SizzleTokenize {
  import Dom
  import Lists

  datatype TextToken = TextToken(value: string, kind: string, matches: seq<string>)

  /** What a filter's pattern and prefilter make of the text ahead. */
  datatype Lexeme = Lexeme(length: nat, matches: seq<string>)

  datatype Lexer = Lexer(comma: string -> nat, combinator: string -> nat, combinatorKind: string -> string,
                         types: seq<string>, filter: (string, string) -> Lexeme)
  {
    /** Every match is a prefix of the text. */
    ghost predicate Sound() {
      forall s: string :: comma(s) <= |s| && combinator(s) <= |s| && forall t: string :: filter(t, s).length <= |s|
    }
  }

  /** The filters' patterns are each tried once, in order, on what is left. */
  datatype Scan = Scan(tokens: seq<TextToken>, rest: string)

  ghost function Filters(lex: Lexer, k: nat, s: string): Scan
    requires lex.Sound() && k <= |lex.types|
    decreases |lex.types| - k
  {
    if k == |lex.types| then Scan([], s)
    else
      var x := lex.filter(lex.types[k], s);
      if x.length == 0 then Filters(lex, k + 1, s)
      else
        var more := Filters(lex, k + 1, s[x.length..]);
        Scan([TextToken(s[..x.length], lex.types[k], x.matches)] + more.tokens, more.rest)
  }

  ghost function Combinator(lex: Lexer, s: string): Scan
    requires lex.Sound()
  {
    var n := lex.combinator(s);
    if n == 0 then Scan([], s) else Scan([TextToken(s[..n], lex.combinatorKind(s[..n]), [])], s[n..])
  }

  /** What one pass of the loop reads after its comma. */
  ghost function Pass(lex: Lexer, s: string): Scan
    requires lex.Sound()
  {
    var c := Combinator(lex, s);
    var f := Filters(lex, 0, c.rest);
    Scan(c.tokens + f.tokens, f.rest)
  }

  /** The groups so far, the comma text consumed before each, and the text left. */
  datatype Parse = Parse(groups: seq<seq<TextToken>>, commas: seq<string>, rest: string)

  /** The first pass and every comma open a group; a comma that ends the text is left unread. */
  ghost function Open(lex: Lexer, st: Parse): Parse
    requires lex.Sound()
  {
    if st.groups == [] then Parse([[]], [""], st.rest)
    else
      var n := lex.comma(st.rest);
      if n == 0 then st
      else if n == |st.rest| then Parse(st.groups + [[]], st.commas + [""], st.rest)
      else Parse(st.groups + [[]], st.commas + [st.rest[..n]], st.rest[n..])
  }

  function AddTokens(groups: seq<seq<TextToken>>, tokens: seq<TextToken>): seq<seq<TextToken>>
    requires groups != []
  {
    groups[|groups| - 1 := groups[|groups| - 1] + tokens]
  }

  /** One pass: what it opened, with the tokens it read. */
  ghost function Step(lex: Lexer, st: Parse): Parse
    requires lex.Sound()
  {
    var begun := Open(lex, st);
    var pass := Pass(lex, begun.rest);
    Parse(AddTokens(begun.groups, pass.tokens), begun.commas, pass.rest)
  }

  /** Passes until nothing is left or a pass reads nothing. */
  ghost function Finish(lex: Lexer, st: Parse): Parse
    requires lex.Sound()
    decreases |st.rest|
  {
    if st.rest == "" then st
    else
      StepShrinks(lex, st);
      if Pass(lex, Open(lex, st).rest).tokens == [] then Step(lex, st) else Finish(lex, Step(lex, st))
  }

  ghost function Tokens(lex: Lexer, selector: string): Parse
    requires lex.Sound()
  {
    Finish(lex, Parse([], [], selector))
  }

  // ---------------------------------------------------------------- printing undoes reading

  /** toSelector */
  function Text(tokens: seq<TextToken>): string {
    if tokens == [] then "" else Text(tokens[..|tokens| - 1]) + tokens[|tokens| - 1].value
  }

  /** The groups printed, each after the comma text that was read before it. */
  function Joined(groups: seq<seq<TextToken>>, commas: seq<string>): string
    requires |groups| == |commas|
  {
    if groups == [] then ""
    else
      var n := |groups| - 1;
      Joined(groups[..n], commas[..n]) + commas[n] + Text(groups[n])
  }

  lemma {:induction false} TextAppends(a: seq<TextToken>, b: seq<TextToken>)
    ensures Text(a + b) == Text(a) + Text(b)
  {
    if b == [] { assert a + b == a; }
    else {
      var n := |b| - 1;
      assert (a + b)[..|a| + n] == a + b[..n];
      TextAppends(a, b[..n]);
    }
  }

  ghost predicate NoneEmpty(tokens: seq<TextToken>) {
    forall i :: 0 <= i < |tokens| ==> tokens[i].value != ""
  }

  /** These tokens are what was read of s before the rest. */
  ghost predicate Reads(s: string, tokens: seq<TextToken>, rest: string) {
    Text(tokens) + rest == s
  }

  lemma ReadsThen(s: string, a: seq<TextToken>, mid: string, b: seq<TextToken>, rest: string)
    requires Reads(s, a, mid) && Reads(mid, b, rest)
    ensures Reads(s, a + b, rest)
  {
    TextAppends(a, b);
    hide Text;
    assert (Text(a) + Text(b)) + rest == Text(a) + (Text(b) + rest);
  }

  lemma ReadsOne(s: string, n: nat, t: TextToken)
    requires n <= |s| && t.value == s[..n]
    ensures Reads(s, [t], s[n..])
  {
    assert s == s[..n] + s[n..];
  }

  lemma {:induction false} FiltersPrint(lex: Lexer, k: nat, s: string)
    requires lex.Sound() && k <= |lex.types|
    ensures Reads(s, Filters(lex, k, s).tokens, Filters(lex, k, s).rest) && NoneEmpty(Filters(lex, k, s).tokens)
    decreases |lex.types| - k
  {
    hide Text;
    if k < |lex.types| {
      hide Reads;
      var x := lex.filter(lex.types[k], s);
      if x.length == 0 { FiltersPrint(lex, k + 1, s); }
      else {
        var f := Filters(lex, k + 1, s[x.length..]);
        FiltersPrint(lex, k + 1, s[x.length..]);
        var t := TextToken(s[..x.length], lex.types[k], x.matches);
        ReadsOne(s, x.length, t);
        ReadsThen(s, [t], s[x.length..], f.tokens, f.rest);
      }
    } else {
      NothingIsRead(s);
    }
  }

  lemma NothingIsRead(s: string)
    ensures Reads(s, [], s)
  {
  }

  lemma {:induction false} FiltersMiss(lex: Lexer, k: nat, s: string)
    requires lex.Sound() && k <= |lex.types| && Filters(lex, k, s).tokens == []
    ensures Filters(lex, k, s).rest == s
    ensures forall i :: k <= i < |lex.types| ==> lex.filter(lex.types[i], s).length == 0
    decreases |lex.types| - k
  {
    if k < |lex.types| { FiltersMiss(lex, k + 1, s); }
  }

  lemma CombinatorPrints(lex: Lexer, s: string)
    requires lex.Sound()
    ensures var c := Combinator(lex, s); Reads(s, c.tokens, c.rest) && NoneEmpty(c.tokens)
    ensures Combinator(lex, s).tokens == [] <==> lex.combinator(s) == 0
  {
    hide Reads;
    var n := lex.combinator(s);
    if n > 0 { ReadsOne(s, n, TextToken(s[..n], lex.combinatorKind(s[..n]), [])); } else { NothingIsRead(s); }
  }

  /** No pattern matches here. */
  ghost predicate Stuck(lex: Lexer, s: string) {
    lex.combinator(s) == 0 && forall i :: 0 <= i < |lex.types| ==> lex.filter(lex.types[i], s).length == 0
  }

  /** A pass prints back to the text it read, and reads nothing only where no pattern matches. */
  lemma {:induction false} PassPrints(lex: Lexer, s: string)
    requires lex.Sound()
    ensures var p := Pass(lex, s); Reads(s, p.tokens, p.rest) && NoneEmpty(p.tokens)
    ensures Pass(lex, s).tokens == [] ==> Stuck(lex, s) && Pass(lex, s).rest == s
  {
    hide Reads, Filters, Combinator;
    CombinatorPrints(lex, s);
    var c := Combinator(lex, s);
    FiltersPrint(lex, 0, c.rest);
    var f := Filters(lex, 0, c.rest);
    ReadsThen(s, c.tokens, c.rest, f.tokens, f.rest);
    if c.tokens + f.tokens == [] {
      assert c.tokens == [] && f.tokens == [];
      CombinatorMisses(lex, s);
      NothingRead(lex, s);
    }
  }

  lemma CombinatorMisses(lex: Lexer, s: string)
    requires lex.Sound() && Combinator(lex, s).tokens == []
    ensures Combinator(lex, s).rest == s
  {
  }

  lemma NothingRead(lex: Lexer, s: string)
    requires lex.Sound() && Combinator(lex, s).tokens == [] && Filters(lex, 0, s).tokens == []
    ensures Stuck(lex, s) && Filters(lex, 0, s).rest == s
  {
    FiltersMiss(lex, 0, s);
  }

  lemma {:induction false} TextIsSomething(tokens: seq<TextToken>)
    requires NoneEmpty(tokens) && tokens != []
    ensures Text(tokens) != ""
  {
    assert tokens[|tokens| - 1].value != "";
  }

  /** Every pass that goes on has consumed some text. */
  lemma PassConsumes(lex: Lexer, s: string)
    requires lex.Sound()
    ensures var p := Pass(lex, s); |p.rest| <= |s| && (p.tokens != [] ==> |p.rest| < |s|)
  {
    PassPrints(lex, s);
    var p := Pass(lex, s);
    if p.tokens != [] { TextIsSomething(p.tokens); }
  }

  lemma JoinedOpens(groups: seq<seq<TextToken>>, commas: seq<string>, comma: string)
    requires |groups| == |commas|
    ensures Joined(groups + [[]], commas + [comma]) == Joined(groups, commas) + comma
  {
    assert (groups + [[]])[..|groups|] == groups && (commas + [comma])[..|groups|] == commas;
  }

  lemma {:induction false} JoinedAdds(groups: seq<seq<TextToken>>, commas: seq<string>, tokens: seq<TextToken>)
    requires |groups| == |commas| && groups != []
    ensures Joined(AddTokens(groups, tokens), commas) == Joined(groups, commas) + Text(tokens)
  {
    var n := |groups| - 1;
    assert AddTokens(groups, tokens)[..n] == groups[..n];
    TextAppends(groups[n], tokens);
    hide Text;
    var before := Joined(groups[..n], commas[..n]) + commas[n];
    hide Joined;
  }

  /** The groups print back to the text read so far. */
  ghost predicate Printed(st: Parse, selector: string) {
    |st.groups| == |st.commas| && (st.commas != [] ==> st.commas[0] == "") &&
    Joined(st.groups, st.commas) + st.rest == selector
  }

  /** And no group is empty. */
  ghost predicate Covers(st: Parse, selector: string) {
    Printed(st, selector) && forall i :: 0 <= i < |st.groups| ==> st.groups[i] != [] && NoneEmpty(st.groups[i])
  }

  lemma PrintedComma(st: Parse, selector: string, n: nat)
    requires Printed(st, selector) && n <= |st.rest| && (n == 0 || st.commas != [])
    ensures Printed(Parse(st.groups + [[]], st.commas + [st.rest[..n]], st.rest[n..]), selector)
  {
    JoinedOpens(st.groups, st.commas, st.rest[..n]);
    TakeAndDrop(st.rest, n);
    Together(Joined(st.groups, st.commas), st.rest[..n], st.rest[n..]);
    hide Joined;
  }

  lemma Together(a: string, b: string, c: string)
    ensures (a + b) + c == a + (b + c)
  {
  }

  lemma TakeAndDrop(s: string, n: nat)
    requires n <= |s|
    ensures s[..n] + s[n..] == s
  {
  }

  lemma PrintedTokens(st: Parse, selector: string, tokens: seq<TextToken>, rest: string)
    requires Printed(st, selector) && st.groups != [] && Reads(st.rest, tokens, rest)
    ensures Printed(Parse(AddTokens(st.groups, tokens), st.commas, rest), selector)
  {
    JoinedAdds(st.groups, st.commas, tokens);
    Together(Joined(st.groups, st.commas), Text(tokens), rest);
    hide Joined, Text;
  }

  lemma {:induction false} OpenPrints(lex: Lexer, st: Parse, selector: string)
    requires lex.Sound() && Printed(st, selector) && st.rest != ""
    ensures var b := Open(lex, st);
            Printed(b, selector) && b.groups != [] && b.rest != "" && |b.rest| <= |st.rest|
  {
    var n := lex.comma(st.rest);
    PrintedComma(st, selector, 0);
    if st.groups != [] { PrintedComma(st, selector, n); }
    assert st.groups == [] ==> |st.commas| == 0 && st.groups + [[]] == [[]] && st.commas + [""] == [""];
    assert st.rest[..0] == "" && st.rest[0..] == st.rest;
    hide Printed;
  }

  lemma StepIs(lex: Lexer, st: Parse)
    requires lex.Sound()
    ensures var begun := Open(lex, st);
            var pass := Pass(lex, begun.rest);
            begun.groups != [] &&
            Step(lex, st) == Parse(AddTokens(begun.groups, pass.tokens), begun.commas, pass.rest) &&
            Step(lex, st).groups != []
  {
  }

  lemma FinishStep(lex: Lexer, st: Parse)
    requires lex.Sound()
    ensures Finish(lex, st) ==
            if st.rest == "" then st
            else if Pass(lex, Open(lex, st).rest).tokens == [] then Step(lex, st) else Finish(lex, Step(lex, st))
  {
  }

  /** From filter k on, after what was read, the rest of the pass. */
  ghost predicate Remains(lex: Lexer, k: nat, s: string, read: seq<TextToken>, pass: Scan)
    requires lex.Sound() && k <= |lex.types|
  {
    read + Filters(lex, k, s).tokens == pass.tokens && Filters(lex, k, s).rest == pass.rest
  }

  lemma PassStarts(lex: Lexer, s: string)
    requires lex.Sound()
    ensures var c := Combinator(lex, s); Remains(lex, 0, c.rest, c.tokens, Pass(lex, s))
  {
  }

  lemma FiltersStep(lex: Lexer, k: nat, s: string, read: seq<TextToken>, pass: Scan)
    requires lex.Sound() && k < |lex.types| && Remains(lex, k, s, read, pass)
    ensures var x := lex.filter(lex.types[k], s);
            if x.length == 0 then Remains(lex, k + 1, s, read, pass)
            else Remains(lex, k + 1, s[x.length..], read + [TextToken(s[..x.length], lex.types[k], x.matches)], pass)
  {
  }

  lemma FiltersEnd(lex: Lexer, s: string, read: seq<TextToken>, pass: Scan)
    requires lex.Sound() && Remains(lex, |lex.types|, s, read, pass)
    ensures pass == Scan(read, s)
  {
    assert read + [] == read;
  }

  lemma StepShrinks(lex: Lexer, st: Parse)
    requires lex.Sound() && st.rest != ""
    ensures Pass(lex, Open(lex, st).rest).tokens != [] ==> |Step(lex, st).rest| < |st.rest|
  {
    PassConsumes(lex, Open(lex, st).rest);
  }

  lemma {:induction false} StepPrints(lex: Lexer, st: Parse, selector: string)
    requires lex.Sound() && Covers(st, selector) && st.rest != ""
    ensures Printed(Step(lex, st), selector)
    ensures Pass(lex, Open(lex, st).rest).tokens != [] ==>
              Covers(Step(lex, st), selector) && |Step(lex, st).rest| < |st.rest|
    ensures Pass(lex, Open(lex, st).rest).tokens == [] ==> Step(lex, st).rest != "" && Stuck(lex, Step(lex, st).rest)
  {
    OpenPrints(lex, st, selector);
    var begun := Open(lex, st);
    PassPrints(lex, begun.rest);
    PassConsumes(lex, begun.rest);
    var pass := Pass(lex, begun.rest);
    hide Pass, Printed, Reads, Stuck;
    PrintedTokens(begun, selector, pass.tokens, pass.rest);
    if pass.tokens != [] { NewGroupsFilled(lex, st, pass.tokens); }
  }

  lemma NewGroupsFilled(lex: Lexer, st: Parse, tokens: seq<TextToken>)
    requires lex.Sound() && tokens != [] && NoneEmpty(tokens) && Open(lex, st).groups != []
    requires forall i :: 0 <= i < |st.groups| ==> st.groups[i] != [] && NoneEmpty(st.groups[i])
    ensures var groups := AddTokens(Open(lex, st).groups, tokens);
            forall i :: 0 <= i < |groups| ==> groups[i] != [] && NoneEmpty(groups[i])
  {
    var begun := Open(lex, st).groups;
    var last := |begun| - 1;
    assert begun[last] == [] || (last < |st.groups| && begun[last] == st.groups[last]);
    assert forall i :: 0 <= i < last ==> i < |st.groups| && begun[i] == st.groups[i];
  }

  lemma {:induction false} FinishPrints(lex: Lexer, st: Parse, selector: string)
    requires lex.Sound() && Covers(st, selector)
    ensures Printed(Finish(lex, st), selector)
    ensures var end := Finish(lex, st); if end.rest == "" then Covers(end, selector) else Stuck(lex, end.rest)
    decreases |st.rest|
  {
    hide Printed, Stuck;
    if st.rest != "" {
      StepPrints(lex, st, selector);
      if Pass(lex, Open(lex, st).rest).tokens != [] { FinishPrints(lex, Step(lex, st), selector); }
    }
  }

  /**
   A selector read whole prints back to itself, comma texts included, with no empty group and no empty token;
   otherwise what is left over starts where no pattern matches.
  */
  lemma {:induction false} TokensPrintBack(lex: Lexer, selector: string)
    requires lex.Sound()
    ensures var end := Tokens(lex, selector);
            |end.groups| == |end.commas| && Joined(end.groups, end.commas) + end.rest == selector
    ensures var end := Tokens(lex, selector);
            if end.rest == "" then Joined(end.groups, end.commas) == selector && Covers(end, selector)
            else Stuck(lex, end.rest)
  {
    FinishPrints(lex, Parse([], [], selector), selector);
    var end := Tokens(lex, selector);
    if end.rest == "" { assert Joined(end.groups, end.commas) + "" == Joined(end.groups, end.commas); }
  }

  // ---------------------------------------------------------------- arrays of tokens on the heap

  /** One group's array of tokens. */
  class TokenList {
    var tokens: seq<TextToken>

    constructor (tokens: seq<TextToken>)
      ensures this.tokens == tokens
    {
      this.tokens := tokens;
    }
  }

  /** The outer array: a copy of it shares the groups. */
  class GroupList {
    var groups: seq<TokenList>

    constructor (groups: seq<TokenList>)
      ensures this.groups == groups
    {
      this.groups := groups;
    }
  }

  /** The arrays hold these groups. */
  ghost predicate Holds(list: GroupList, groups: seq<seq<TextToken>>)
    reads list, list.groups
  {
    |list.groups| == |groups| && forall i :: 0 <= i < |groups| ==> list.groups[i].tokens == groups[i]
  }

  ghost predicate Separate(lists: seq<TokenList>) {
    forall i, j :: 0 <= i < j < |lists| ==> lists[i] != lists[j]
  }

  datatype Outcome = Excess(length: nat) | Groups(list: GroupList) | SyntaxError

  const CACHE_LENGTH := 50

  ghost predicate NoRepeats(keys: seq<string>) {
    forall i, j :: 0 <= i < j < |keys| ==> keys[i] != keys[j]
  }

  /** keys lists the cached selectors, the oldest first. */
  ghost predicate Indexed<T>(keys: seq<string>, cache: map<string, T>) {
    |keys| <= CACHE_LENGTH && NoRepeats(keys) && forall k :: k in keys <==> k in cache
  }

  lemma PushedKeys<T>(keys: seq<string>, cache: map<string, T>, key: string, value: T)
    requires Indexed(keys, cache) && key !in cache
    ensures |keys| <= CACHE_LENGTH == 50
    ensures |keys| < CACHE_LENGTH ==> Indexed(keys + [key], cache[key := value])
    ensures |keys| == CACHE_LENGTH ==> (keys + [key])[1..] == keys[1..] + [key] && (keys + [key])[0] == keys[0]
    ensures |keys| == CACHE_LENGTH ==> Indexed(keys[1..] + [key], (cache - {keys[0]})[key := value])
  {
    if keys != [] {
      assert keys == [keys[0]] + keys[1..];
      forall k ensures k in keys[1..] <==> k in keys && k != keys[0] {}
    }
  }

  /** A result's outer array and its groups' arrays. */
  ghost function Arrays(list: GroupList): (arrays: set<object>)
    reads list
    ensures list in arrays && (forall i :: 0 <= i < |list.groups| ==> list.groups[i] in arrays)
    ensures forall o :: o in arrays ==> o is GroupList || o is TokenList
  {
    {list} + set i | 0 <= i < |list.groups| :: list.groups[i] as object
  }

  /** The arrays hold this whole reading, and are all in the footprint. */
  ghost predicate Kept(list: GroupList, reading: Parse, footprint: set<object>)
    reads footprint
  {
    list in footprint && (forall i :: 0 <= i < |list.groups| ==> list.groups[i] in footprint) &&
    Holds(list, reading.groups) && reading.rest == ""
  }

  ghost predicate AllKept(lex: Lexer, cache: map<string, GroupList>, footprint: set<object>)
    requires lex.Sound()
    reads footprint
  {
    forall k :: k in cache ==> Kept(cache[k], Tokens(lex, k), footprint)
  }

  lemma NowKept(list: GroupList, reading: Parse, footprint: set<object>)
    requires Holds(list, reading.groups) && reading.rest == ""
    ensures Kept(list, reading, footprint + Arrays(list))
  {
  }

  lemma KeptMore(lex: Lexer, cache: map<string, GroupList>, selector: string, list: GroupList, footprint: set<object>,
                 more: set<object>)
    requires lex.Sound() && AllKept(lex, cache, footprint) && footprint <= more &&
             Kept(list, Tokens(lex, selector), more)
    ensures AllKept(lex, cache[selector := list], more)
  {
  }

  lemma KeptFewer(lex: Lexer, cache: map<string, GroupList>, selector: string, footprint: set<object>)
    requires lex.Sound() && AllKept(lex, cache, footprint)
    ensures AllKept(lex, cache - {selector}, footprint)
  {
  }

  type Nodes = seq<Dom.Path>

  /** What a page's lookup finds for a token; None if tokens of its kind are not looked up. */
  type Lookup = TextToken -> Lists.Option<Nodes>

  /** What select goes on with: nothing, its seed as the result, or a selector to compile with its tokens. */
  datatype Reduction = Failed | NoContext | Seeded(nodes: Nodes)
                     | Run(selector: string, list: GroupList, seed: Lists.Option<Nodes>)

  /** A leading ID that a combinator follows can become the context. */
  predicate LeadsWithIdToken(tokens: seq<TextToken>, onDocument: bool, relative: string -> bool) {
    |tokens| > 2 && tokens[0].kind == "ID" && onDocument && relative(tokens[1].kind)
  }

  function Shortened(tokens: seq<TextToken>, onDocument: bool, relative: string -> bool): seq<TextToken> {
    if LeadsWithIdToken(tokens, onDocument, relative) then tokens[1..] else tokens
  }

  /** TextToken i is the last of the last compound that the page can be searched by. */
  ghost predicate SeedsAt(tokens: seq<TextToken>, i: int, relative: string -> bool,
                          find: Lookup) {
    0 <= i < |tokens| && find(tokens[i]).Some? &&
    forall j :: i <= j < |tokens| ==> !relative(tokens[j].kind) && (i < j ==> find(tokens[j]).None?)
  }

  function Without(tokens: seq<TextToken>, i: nat): seq<TextToken>
    requires i < |tokens|
  {
    tokens[..i] + tokens[i + 1..]
  }

  /** The seed alone is the result: it is empty, or nothing is left to test it with. */
  ghost predicate SeedSuffices(tokens: seq<TextToken>, i: nat, seed: Nodes)
    requires i < |tokens|
  {
    seed == [] || Text(Without(tokens, i)) == ""
  }

  /** What is left to run: all the tokens when there is no seeding token, else all the others. */
  ghost predicate Remaining(before: seq<TextToken>, after: seq<TextToken>, relative: string -> bool,
                            find: Lookup) {
    if exists i :: SeedsAt(before, i, relative, find)
    then exists i :: SeedsAt(before, i, relative, find) && after == Without(before, i) &&
                     !SeedSuffices(before, i, find(before[i]).value)
    else after == before
  }

  ghost predicate SeedOnlyOf(before: seq<TextToken>, seed: Nodes, relative: string -> bool,
                             find: Lookup) {
    exists i :: SeedsAt(before, i, relative, find) && seed == find(before[i]).value && SeedSuffices(before, i, seed)
  }

  lemma OneGroupText(lex: Lexer, selector: string)
    requires lex.Sound() && Tokens(lex, selector).rest == "" && |Tokens(lex, selector).groups| == 1
    ensures Text(Tokens(lex, selector).groups[0]) == selector
  {
    assert Printed(Parse([], [], selector), selector);
    hide Printed, Finish;
    FinishPrints(lex, Parse([], [], selector), selector);
    PrintedAlone(Tokens(lex, selector), selector);
  }

  lemma PrintedAlone(st: Parse, selector: string)
    requires Printed(st, selector) && |st.groups| == 1 && st.rest == ""
    ensures Text(st.groups[0]) == selector
  {
    hide Text;
    assert Joined(st.groups[..0], st.commas[..0]) == "";
    assert Joined(st.groups, st.commas) == "" + "" + Text(st.groups[0]);
  }

  lemma {:induction false} TextShifts(tokens: seq<TextToken>)
    requires tokens != []
    ensures var n := |tokens[0].value|; n <= |Text(tokens)| && Text(tokens)[n..] == Text(tokens[1..])
  {
    assert tokens == [tokens[0]] + tokens[1..];
    TextAppends([tokens[0]], tokens[1..]);
  }

  method ToSelector(tokens: seq<TextToken>) returns (selector: string)
    ensures selector == Text(tokens)
  {
    selector := "";
    for i := 0 to |tokens|
      invariant selector == Text(tokens[..i])
    {
      assert tokens[..i + 1][..i] == tokens[..i];
      selector := selector + tokens[i].value;
    }
    assert tokens[..|tokens|] == tokens;
  }

  ghost predicate Alone(reading: Parse) {
    reading.rest == "" && |reading.groups| == 1
  }

  datatype Edit = NoneFound | SeedOnly(nodes: Nodes) | Go(selector: string)

  /** The ID shortcut and the removal of the seeding token, on select's own array. */
  method EditOwn(own: TokenList, selector: string, onDocument: bool, contextFound: bool, needsContext: string -> bool,
                 relative: string -> bool, find: Lookup) returns (edit: Edit, seed: Lists.Option<Nodes>)
    requires selector == Text(own.tokens)
    modifies own
    ensures edit.NoneFound? <==> LeadsWithIdToken(old(own.tokens), onDocument, relative) && !contextFound
    ensures !edit.NoneFound? ==>
              var before := Shortened(old(own.tokens), onDocument, relative);
              Edited(before, own.tokens, edit, needsContext, relative, find) &&
              SeedIs(before, seed, needsContext, relative, find)
  {
    var left := selector;
    if |own.tokens| > 2 && own.tokens[0].kind == "ID" && onDocument && relative(own.tokens[1].kind) {
      if !contextFound { return NoneFound, Lists.None; }
      TextShifts(own.tokens);
      left := left[|own.tokens[0].value|..];
      own.tokens := own.tokens[1..];
    }
    hide Text;
    edit, seed := SpliceSeed(own, left, needsContext, relative, find);
  }

  ghost predicate Edited(before: seq<TextToken>, after: seq<TextToken>, edit: Edit, needsContext: string -> bool,
                         relative: string -> bool, find: Lookup) {
    match edit
    case NoneFound => false
    case SeedOnly(seed) => !needsContext(Text(before)) && SeedOnlyOf(before, seed, relative, find)
    case Go(selector) =>
      selector == Text(after) &&
      if needsContext(Text(before)) then after == before else Remaining(before, after, relative, find)
  }

  /** What the page's lookup finds for the seeding token, if there is one. */
  ghost predicate SeedIs(before: seq<TextToken>, seed: Lists.Option<Nodes>, needsContext: string -> bool,
                         relative: string -> bool, find: Lookup) {
    match seed
    case None => needsContext(Text(before)) || forall i :: !SeedsAt(before, i, relative, find)
    case Some(nodes) => !needsContext(Text(before)) &&
                        exists i :: SeedsAt(before, i, relative, find) && find(before[i]) == Lists.Some(nodes)
  }

  /** When the seed is all there is, what is left of the tokens does not matter. */
  lemma SeedAlone(before: seq<TextToken>, after: seq<TextToken>, seed: Nodes, needsContext: string -> bool,
                  relative: string -> bool, find: Lookup)
    requires Edited(before, after, SeedOnly(seed), needsContext, relative, find)
    ensures Edited(before, [], SeedOnly(seed), needsContext, relative, find)
  {
    hide SeedOnlyOf, Text;
  }

  method SpliceSeed(own: TokenList, selector: string, needsContext: string -> bool, relative: string -> bool,
                    find: Lookup) returns (edit: Edit, seed: Lists.Option<Nodes>)
    requires selector == Text(own.tokens)
    modifies own
    ensures Edited(old(own.tokens), own.tokens, edit, needsContext, relative, find)
    ensures SeedIs(old(own.tokens), seed, needsContext, relative, find)
  {
    ghost var was := own.tokens;
    hide Text;
    var i := if needsContext(selector) then 0 else |own.tokens|;
    while i > 0
      invariant 0 <= i <= |was| && own.tokens == was && (needsContext(selector) ==> i == 0)
      invariant !needsContext(selector) ==> forall j :: i <= j < |was| ==> !relative(was[j].kind) && find(was[j]).None?
    {
      i := i - 1;
      var token := own.tokens[i];
      if relative(token.kind) { break; }
      seed := find(token);
      if seed.Some? {
        SeedFound(was, i, relative, find);
        hide Remaining, SeedOnlyOf, SeedsAt;
        own.tokens := own.tokens[..i] + own.tokens[i + 1..];
        var left := "";
        if seed.value != [] { left := ToSelector(own.tokens); }
        if left == "" { return SeedOnly(seed.value), seed; }
        return Go(left), seed;
      }
    }
    return Go(selector), Lists.None;
  }

  lemma SeedFound(tokens: seq<TextToken>, i: nat, relative: string -> bool, find: Lookup)
    requires SeedsAt(tokens, i, relative, find)
    ensures if SeedSuffices(tokens, i, find(tokens[i]).value)
            then SeedOnlyOf(tokens, find(tokens[i]).value, relative, find)
            else Remaining(tokens, Without(tokens, i), relative, find)
  {
  }

  class Tokenizer {
    const lex: Lexer
    var keys: seq<string>
    var cache: map<string, GroupList>
    /** Every array the cache can reach. */
    ghost var footprint: set<object>

    /** The cache knows the last selectors read whole, and each one's arrays hold what a fresh reading gives. */
    ghost predicate Valid()
      reads this, footprint
    {
      lex.Sound() && this !in footprint && Indexed(keys, cache) && AllKept(lex, cache, footprint)
    }

    constructor (lex: Lexer)
      requires lex.Sound()
      ensures this.lex == lex && cache == map[] && keys == [] && footprint == {} && Valid()
    {
      this.lex := lex;
      keys, cache, footprint := [], map[], {};
    }

    /** One pass after its comma: a combinator, then each filter once. */
    method ReadPass(tokens: TokenList, text: string) returns (matched: bool, soFar: string)
      requires lex.Sound()
      modifies tokens
      ensures tokens.tokens == old(tokens.tokens) + Pass(lex, text).tokens
      ensures soFar == Pass(lex, text).rest && (matched <==> Pass(lex, text).tokens != [])
    {
      soFar := text;
      matched := false;
      var n := lex.combinator(soFar);
      ghost var read: seq<TextToken> := Combinator(lex, text).tokens;
      PassStarts(lex, text);
      if n > 0 {
        matched := true;
        tokens.tokens := tokens.tokens + [TextToken(soFar[..n], lex.combinatorKind(soFar[..n]), [])];
        soFar := soFar[n..];
      }
      assert tokens.tokens == old(tokens.tokens) + read;
      hide Combinator, Filters, Remains, Pass;
      for k := 0 to |lex.types|
        invariant tokens.tokens == old(tokens.tokens) + read && (matched <==> read != [])
        invariant Remains(lex, k, soFar, read, Pass(lex, text))
      {
        FiltersStep(lex, k, soFar, read, Pass(lex, text));
        var x := lex.filter(lex.types[k], soFar);
        if x.length > 0 {
          matched := true;
          tokens.tokens := tokens.tokens + [TextToken(soFar[..x.length], lex.types[k], x.matches)];
          read := read + [TextToken(soFar[..x.length], lex.types[k], x.matches)];
          soFar := soFar[x.length..];
        }
      }
      FiltersEnd(lex, soFar, read, Pass(lex, text));
    }

    /** The comma and first run: a new, empty group in groups. */
    method OpenGroup(groups: GroupList, matched: bool, text: string, ghost st: Parse) returns (soFar: string)
      requires lex.Sound() && Holds(groups, st.groups) && st.rest == text && (matched <==> st.groups != [])
      requires Separate(groups.groups)
      modifies groups
      ensures Holds(groups, Open(lex, st).groups) && soFar == Open(lex, st).rest
      ensures groups.groups != [] && Separate(groups.groups)
      ensures forall i :: 0 <= i < |groups.groups| ==> groups.groups[i] in old(groups.groups) || fresh(groups.groups[i])
    {
      soFar := text;
      var comma := lex.comma(soFar);
      if !matched || comma > 0 {
        if matched { soFar := if comma == |soFar| then soFar else soFar[comma..]; }
        var tokens := new TokenList([]);
        groups.groups := groups.groups + [tokens];
      }
    }

    /** A pass read into the group last opened. */
    method ReadInto(groups: GroupList, text: string, ghost begun: seq<seq<TextToken>>)
      returns (matched: bool, soFar: string)
      requires lex.Sound() && Holds(groups, begun) && begun != [] && Separate(groups.groups)
      modifies groups.groups
      ensures Holds(groups, AddTokens(begun, Pass(lex, text).tokens))
      ensures soFar == Pass(lex, text).rest && (matched <==> Pass(lex, text).tokens != [])
    {
      hide Pass;
      var last := |groups.groups| - 1;
      assert forall i :: 0 <= i < last ==> groups.groups[i] != groups.groups[last];
      matched, soFar := ReadPass(groups.groups[last], text);
    }

    /** The loop's body. */
    method OnePass(groups: GroupList, matched: bool, text: string, ghost st: Parse)
      returns (matched': bool, soFar: string)
      requires lex.Sound() && Holds(groups, st.groups) && st.rest == text && (matched <==> st.groups != [])
      requires Separate(groups.groups)
      modifies groups, groups.groups
      ensures Holds(groups, Step(lex, st).groups) && soFar == Step(lex, st).rest && Separate(groups.groups)
      ensures Step(lex, st).groups != [] && (matched' <==> Pass(lex, Open(lex, st).rest).tokens != [])
      ensures forall i :: 0 <= i < |groups.groups| ==> groups.groups[i] in old(groups.groups) || fresh(groups.groups[i])
    {
      StepIs(lex, st);
      hide Open, Pass, Step, AddTokens, Separate;
      soFar := OpenGroup(groups, matched, text, st);
      matched', soFar := ReadInto(groups, soFar, Open(lex, st).groups);
    }

    /** The loop of tokenize. */
    method Read(selector: string) returns (soFar: string, groups: GroupList)
      requires lex.Sound()
      ensures fresh(Arrays(groups))
      ensures soFar == Tokens(lex, selector).rest && Holds(groups, Tokens(lex, selector).groups)
    {
      groups := new GroupList([]);
      soFar := ReadAll(groups, selector);
    }

    method ReadAll(groups: GroupList, selector: string) returns (soFar: string)
      requires lex.Sound() && groups.groups == []
      modifies groups
      ensures forall i :: 0 <= i < |groups.groups| ==> fresh(groups.groups[i])
      ensures soFar == Tokens(lex, selector).rest && Holds(groups, Tokens(lex, selector).groups)
    {
      soFar := selector;
      var matched := false;
      ghost var st := Parse([], [], selector);
      assert Finish(lex, st) == Tokens(lex, selector) && Holds(groups, st.groups) && Separate(groups.groups);
      hide *;
      FinishStep(lex, st);
      while soFar != ""
        invariant (forall i :: 0 <= i < |groups.groups| ==> fresh(groups.groups[i])) && Separate(groups.groups)
        invariant Holds(groups, st.groups) && st.rest == soFar && (matched <==> st.groups != [])
        invariant Finish(lex, st) == Tokens(lex, selector)
        invariant soFar == "" ==> Finish(lex, st) == st
        decreases |soFar|
      {
        StepShrinks(lex, st);
        FinishStep(lex, st);
        matched, soFar := OnePass(groups, matched, soFar, st);
        st := Step(lex, st);
        if !matched { break; }
        FinishStep(lex, st);
      }
    }

    lemma Unfold()
      ensures Valid() <==> lex.Sound() && this !in footprint && Indexed(keys, cache) && AllKept(lex, cache, footprint)
    {
    }

    /** The cache keeps the fifty most recent entries. */
    method Remember(selector: string, groups: GroupList)
      requires Valid() && selector !in cache
      requires Holds(groups, Tokens(lex, selector).groups) && Tokens(lex, selector).rest == ""
      modifies this
      ensures Valid() && selector in cache && cache[selector] == groups
      ensures footprint == old(footprint) + Arrays(groups)
      ensures keys == if |old(keys)| < 50 then old(keys) + [selector] else old(keys)[1..] + [selector]
      ensures forall k :: k in cache && k != selector ==> k in old(cache) && cache[k] == old(cache[k])
    {
      ghost var more := footprint + Arrays(groups);
      hide *;
      Unfold();
      NowKept(groups, Tokens(lex, selector), footprint);
      if keys != [] { KeptFewer(lex, cache, keys[0], footprint); }
      KeptMore(lex, cache, selector, groups, footprint, more);
      KeptMore(lex, if keys == [] then cache else cache - {keys[0]}, selector, groups, footprint, more);
      PushedKeys(keys, cache, selector, groups);
      keys := keys + [selector];
      if |keys| > CACHE_LENGTH {
        cache := cache - {keys[0]};
        keys := keys[1..];
      }
      cache := cache[selector := groups];
      footprint := more;
      Unfold();
    }

    /** groups.slice(0) */
    method CopyOf(list: GroupList, ghost groups: seq<seq<TextToken>>) returns (outcome: Outcome)
      requires Holds(list, groups)
      ensures outcome.Groups? && fresh(outcome.list) && outcome.list.groups == list.groups
      ensures Holds(outcome.list, groups)
    {
      var copy := new GroupList(list.groups);
      return Groups(copy);
    }

    /** tokenCache(selector, groups).slice(0) */
    method RememberCopied(selector: string, groups: GroupList) returns (outcome: Outcome)
      requires Valid() && selector !in cache
      requires Holds(groups, Tokens(lex, selector).groups) && Tokens(lex, selector).rest == ""
      modifies this
      ensures Valid() && footprint == old(footprint) + Arrays(groups)
      ensures outcome.Groups? && fresh(outcome.list) && outcome.list !in footprint
      ensures Holds(outcome.list, Tokens(lex, selector).groups)
      ensures selector in cache && outcome.list.groups == cache[selector].groups
    {
      ghost var held := Tokens(lex, selector).groups;
      hide *;
      Remember(selector, groups);
      outcome := CopyOf(groups, held);
    }

    /** tokenize of a selector that is not in the cache. */
    method ReadNew(selector: string, parseOnly: bool) returns (outcome: Outcome)
      requires Valid() && selector !in cache
      modifies this
      ensures Valid() && footprint >= old(footprint) && fresh(footprint - old(footprint))
      ensures parseOnly ==> outcome == Excess(|Tokens(lex, selector).rest|) && cache == old(cache)
      ensures !parseOnly && Tokens(lex, selector).rest != "" ==> outcome == SyntaxError && cache == old(cache)
      ensures !parseOnly && Tokens(lex, selector).rest == "" ==>
                outcome.Groups? && fresh(outcome.list) && outcome.list !in footprint &&
                Holds(outcome.list, Tokens(lex, selector).groups) && selector in cache &&
                outcome.list.groups == cache[selector].groups
    {
      hide *;
      Unfold();
      var soFar, groups := Read(selector);
      if parseOnly { return Excess(|soFar|); }
      if soFar != "" { return SyntaxError; }
      outcome := RememberCopied(selector, groups);
    }

    /** A hit answers exactly what a fresh reading would. */
    method Tokenize(selector: string, parseOnly: bool) returns (outcome: Outcome)
      requires Valid()
      modifies this
      ensures Valid() && footprint >= old(footprint) && fresh(footprint - old(footprint))
      ensures parseOnly ==> outcome == Excess(|Tokens(lex, selector).rest|) && cache == old(cache)
      ensures !parseOnly && Tokens(lex, selector).rest != "" ==> outcome == SyntaxError && cache == old(cache)
      ensures !parseOnly && Tokens(lex, selector).rest == "" ==>
                outcome.Groups? && fresh(outcome.list) && outcome.list !in footprint &&
                Holds(outcome.list, Tokens(lex, selector).groups) && selector in cache &&
                outcome.list.groups == cache[selector].groups
    {
      if selector in cache {
        assert Kept(cache[selector], Tokens(lex, selector), footprint);
        hide *;
        if parseOnly { return Excess(0); }
        outcome := CopyOf(cache[selector], Tokens(lex, selector).groups);
      } else {
        outcome := ReadNew(selector, parseOnly);
      }
    }

    /**
     What select does with the tokens before it compiles them: its own copy of the one group is shifted and
     spliced.
    */
    method Reduce(selector: string, onDocument: bool, contextFound: bool, needsContext: string -> bool,
                  relative: string -> bool, find: Lookup) returns (reduction: Reduction)
      requires Valid()
      modifies this
      ensures Valid() && footprint >= old(footprint) && fresh(footprint - old(footprint))
      ensures reduction.Failed? <==> Tokens(lex, selector).rest != ""
      ensures reduction.Run? ==> fresh(reduction.list) && reduction.list !in footprint
      ensures reduction.Run? && !Alone(Tokens(lex, selector)) ==>
                reduction.selector == selector && Holds(reduction.list, Tokens(lex, selector).groups)
      ensures reduction.NoContext? <==>
              Alone(Tokens(lex, selector)) && LeadsWithIdToken(Tokens(lex, selector).groups[0], onDocument, relative) &&
              !contextFound
      ensures reduction.Seeded? ==> Alone(Tokens(lex, selector))
      ensures reduction.Seeded? ==>
                Edited(Shortened(Tokens(lex, selector).groups[0], onDocument, relative), [], SeedOnly(reduction.nodes),
                       needsContext, relative, find)
      ensures reduction.Run? && Alone(Tokens(lex, selector)) ==>
                |reduction.list.groups| == 1 && reduction.list.groups[0] !in footprint &&
                Edited(Shortened(Tokens(lex, selector).groups[0], onDocument, relative),
                       reduction.list.groups[0].tokens,
                       Go(reduction.selector), needsContext, relative, find) &&
                SeedIs(Shortened(Tokens(lex, selector).groups[0], onDocument, relative), reduction.seed, needsContext,
                       relative, find)
    {
      var outcome := Tokenize(selector, false);
      if outcome.SyntaxError? { return Failed; }
      var list := outcome.list;
      if |list.groups| != 1 { return Run(selector, list, Lists.None); }
      OneGroupText(lex, selector);
      assert Alone(Tokens(lex, selector));
      hide *;
      reduction := ReduceAlone(list, selector, onDocument, contextFound, needsContext, relative, find);
    }
  }

  /** select's edits of a lone group, on its own copy of the tokens. */
  method ReduceAlone(list: GroupList, selector: string, onDocument: bool, contextFound: bool,
                     needsContext: string -> bool, relative: string -> bool,
                     find: Lookup) returns (reduction: Reduction)
    requires |list.groups| == 1 && Text(list.groups[0].tokens) == selector
    modifies list
    ensures !reduction.Failed?
    ensures reduction.NoContext? <==>
            LeadsWithIdToken(old(list.groups[0].tokens), onDocument, relative) && !contextFound
    ensures reduction.Seeded? ==>
              Edited(Shortened(old(list.groups[0].tokens), onDocument, relative), [], SeedOnly(reduction.nodes),
                     needsContext, relative, find)
    ensures reduction.Run? ==>
              reduction.list == list && |list.groups| == 1 && fresh(list.groups[0]) &&
              Edited(Shortened(old(list.groups[0].tokens), onDocument, relative), list.groups[0].tokens,
                     Go(reduction.selector), needsContext, relative, find) &&
              SeedIs(Shortened(old(list.groups[0].tokens), onDocument, relative), reduction.seed, needsContext,
                     relative, find)
  {
    hide *;
    ghost var before := Shortened(list.groups[0].tokens, onDocument, relative);
    var own := new TokenList(list.groups[0].tokens);
    list.groups := [own];
    var edit, seed := EditOwn(own, selector, onDocument, contextFound, needsContext, relative, find);
    match edit
    case NoneFound => reduction := NoContext;
    case SeedOnly(nodes) =>
      SeedAlone(before, own.tokens, nodes, needsContext, relative, find);
      reduction := Seeded(nodes);
    case Go(left) => reduction := Run(left, list, seed);
  }
}
