/**
 select's two sides brought together: its edits of the tokens' text and arrays, and what they mean for the
 search.  A reading gives each token of the text the combinator or filter it stands for.
*/
module SizzleSelectTokens {
  import opened Lists
  import opened Dom
  import opened SizzleMatcher
  import opened SizzleSelect
  import T = SizzleTokenize

  type Reading = T.TextToken -> Token

  function Meaning(reading: Reading, tokens: seq<T.TextToken>): (ts: seq<Token>)
    ensures |ts| == |tokens| && forall i :: 0 <= i < |ts| ==> ts[i] == reading(tokens[i])
  {
    seq(|tokens|, i requires 0 <= i < |tokens| => reading(tokens[i]))
  }

  /** Expr.relative and Expr.find, asked of a token's kind, fit what it stands for on this page. */
  ghost predicate Fits(d: Page, context: Path, reading: Reading, relative: string -> bool,
                       find: T.Lookup)
    requires IsNode(d.tree, context)
  {
    forall t: T.TextToken ::
      match reading(t)
      case Rel(_) => relative(t.kind)
      case Simple(f) =>
        !relative(t.kind) &&
        find(t) == Found(d, f, context)
  }

  /** The seeding token is the same on both sides. */
  lemma {:induction false} SeedFromSeeds(d: Page, context: Path, reading: Reading, relative: string -> bool,
                                         find: T.Lookup,
                                         tokens: seq<T.TextToken>, n: nat)
    requires IsNode(d.tree, context) && Fits(d, context, reading, relative, find) && n <= |tokens|
    requires forall j :: n <= j < |tokens| ==> !relative(tokens[j].kind) && find(tokens[j]).None?
    ensures match SeedFrom(d, Meaning(reading, tokens), n, context)
            case Some(i) => T.SeedsAt(tokens, i, relative, find)
            case None => forall i :: !T.SeedsAt(tokens, i, relative, find)
  {
    if n > 0 && Meaning(reading, tokens)[n - 1].Simple? && find(tokens[n - 1]).None? {
      SeedFromSeeds(d, context, reading, relative, find, tokens, n - 1);
    }
  }

  lemma SeedsOnce(tokens: seq<T.TextToken>, i: int, j: int, relative: string -> bool, find: T.Lookup)
    requires T.SeedsAt(tokens, i, relative, find) && T.SeedsAt(tokens, j, relative, find)
    ensures i == j
  {
  }

  lemma MeaningOfRest(reading: Reading, tokens: seq<T.TextToken>, i: nat)
    requires i < |tokens|
    ensures Meaning(reading, T.Without(tokens, i)) == Rest(Meaning(reading, tokens), i)
  {
  }

  /** What is left once the seeding token is known. */
  lemma EditAt(reading: Reading, relative: string -> bool, find: T.Lookup, before: seq<T.TextToken>,
               after: seq<T.TextToken>, i: nat)
    requires T.SeedsAt(before, i, relative, find) && T.Remaining(before, after, relative, find)
    ensures Meaning(reading, after) == Rest(Meaning(reading, before), i)
  {
    var j :| T.SeedsAt(before, j, relative, find) && after == T.Without(before, j);
    SeedsOnce(before, i, j, relative, find);
    hide T.SeedsAt, T.Remaining;
    MeaningOfRest(reading, before, i);
  }

  lemma StopAt(reading: Reading, relative: string -> bool, find: T.Lookup, before: seq<T.TextToken>,
               i: nat, nodes: T.Nodes)
    requires T.SeedsAt(before, i, relative, find) && T.SeedOnlyOf(before, nodes, relative, find) && T.NoneEmpty(before)
    ensures find(before[i]) == Some(nodes) && (nodes == [] || Rest(Meaning(reading, before), i) == [])
  {
    var j :| T.SeedsAt(before, j, relative, find) && nodes == find(before[j]).value &&
             T.SeedSuffices(before, j, nodes);
    SeedsOnce(before, i, j, relative, find);
    var rest := T.Without(before, i);
    if rest != [] && nodes != [] { T.TextIsSomething(rest); }
  }

  /**
   The tokens select goes on with are the rest of the selector on the seeding side; when it stops at the seed,
   the seed is empty or there is no rest.
  */
  lemma EditIsSeeding(d: Page, context: Path, reading: Reading, relative: string -> bool,
                      find: T.Lookup, needsContext: string -> bool, before: seq<T.TextToken>,
                      after: seq<T.TextToken>, edit: T.Edit)
    requires IsNode(d.tree, context) && Fits(d, context, reading, relative, find) && T.NoneEmpty(before)
    requires needsContext(T.Text(before)) <==> NeedsContext(d, Meaning(reading, before))
    requires T.Edited(before, after, edit, needsContext, relative, find)
    ensures var ts := Meaning(reading, before);
            var seed := SeedIndex(d, ts, context);
            match edit
            case NoneFound => false
            case Go(_) =>
              Meaning(reading, after) == if seed.Some? && seed.value < |ts| then Rest(ts, seed.value) else ts
            case SeedOnly(nodes) =>
              seed.Some? && seed.value < |ts| && ts[seed.value].Simple? &&
              Found(d, ts[seed.value].filter, context) == Some(nodes) &&
              (nodes == [] || Rest(ts, seed.value) == [])
  {
    var ts := Meaning(reading, before);
    SeedFromSeeds(d, context, reading, relative, find, before, |before|);
    var seed := SeedIndex(d, ts, context);
    if seed.Some? {
      assert T.SeedsAt(before, seed.value, relative, find) && reading(before[seed.value]) == ts[seed.value];
      match edit
      case NoneFound =>
      case Go(_) =>
        hide Found, NeedsContext, T.SeedsAt, T.Text;
        EditAt(reading, relative, find, before, after, seed.value);
      case SeedOnly(nodes) =>
        hide NeedsContext, T.Text, T.SeedOnlyOf, T.NoneEmpty;
        StopAt(reading, relative, find, before, seed.value, nodes);
    }
    hide *;
  }

  /** And the shortcut is taken on both sides alike. */
  lemma ShortcutIsStart(d: Page, context: Path, reading: Reading, relative: string -> bool, tokens: seq<T.TextToken>)
    requires IsNode(d.tree, context)
    requires forall t: T.TextToken :: reading(t).Rel? <==> relative(t.kind)
    requires forall t: T.TextToken :: reading(t).Simple? ==> (t.kind == "ID" <==> d.lex.find(reading(t).filter) == ById)
    requires !relative("ID")
    ensures var ts, onDocument := Meaning(reading, tokens), IsDocument(d.tree, context) && !d.xml;
            T.LeadsWithIdToken(tokens, onDocument, relative) == LeadsWithId(d, ts, context) &&
            Meaning(reading, T.Shortened(tokens, onDocument, relative)) ==
            if LeadsWithId(d, ts, context) then ts[1..] else ts
  {
  }
}
