/**
 The stemmer's patterns, read as regular expressions, and the measure of Porter's algorithm they
 stand for: how often a run of consonants follows a run of vowels.  A y is a vowel after a consonant;
 the patterns see that only where they expect one, which is why a word that begins with y can be
 misread.
*/
module PorterMeasure {

  // ---------------------------------------------------------------- vowels and the measure

  predicate Aeiou(c: char) {
    c == 'a' || c == 'e' || c == 'i' || c == 'o' || c == 'u'
  }

  /** A y is a vowel exactly when it follows a consonant. */
  predicate Vowel(w: string, i: nat)
    requires i < |w|
    decreases i
  {
    Aeiou(w[i]) || (w[i] == 'y' && i > 0 && !Vowel(w, i - 1))
  }

  /** A vowel sequence ends before position k, a consonant sequence starts there. */
  predicate Turns(w: string, k: nat) {
    0 < k < |w| && Vowel(w, k - 1) && !Vowel(w, k)
  }

  /** How many times that happens among the first n letters. */
  function Turnings(w: string, n: nat): nat {
    if n == 0 then 0 else Turnings(w, n - 1) + if Turns(w, n - 1) then 1 else 0
  }

  /** The m of [C](VC)^m[V] */
  function Measure(w: string): nat {
    Turnings(w, |w|)
  }

  predicate HasVowel(w: string) {
    exists i :: 0 <= i < |w| && Vowel(w, i)
  }

  lemma {:induction false} TurningsGrow(w: string, n: nat, k: nat)
    requires n <= k
    ensures Turnings(w, n) <= Turnings(w, k)
    ensures (forall i :: n <= i < k ==> !Turns(w, i)) ==> Turnings(w, n) == Turnings(w, k)
    ensures forall i :: n <= i < k && Turns(w, i) ==> Turnings(w, n) < Turnings(w, k)
    decreases k
  {
    if n < k { TurningsGrow(w, n, k - 1); }
  }

  /** The measure is 0, 1 or more by how many turning points there are. */
  lemma MeasureCounts(w: string, k: nat, l: nat)
    ensures Turns(w, k) ==> Measure(w) >= 1
    ensures Turns(w, k) && Turns(w, l) && k < l ==> Measure(w) >= 2
    ensures Turns(w, k) && (forall i: nat :: Turns(w, i) ==> i == k) ==> Measure(w) == 1
  {
    if Turns(w, k) {
      TurningsGrow(w, 0, k);
      TurningsGrow(w, k, k + 1);
      TurningsGrow(w, k + 1, |w|);
    }
  }

  lemma {:induction false} FindTurn(w: string, n: nat) returns (k: nat)
    requires Turnings(w, n) >= 1
    ensures k < n && Turns(w, k) && Turnings(w, k) == Turnings(w, n) - 1
  {
    if Turns(w, n - 1) { k := n - 1; } else { k := FindTurn(w, n - 1); }
  }

  // ---------------------------------------------------------------- regular expressions

  datatype Class = NotAeiou | NotAeiouy | Aeiouy | OnlyAeiou | NotAeiouwxy

  predicate InClass(c: Class, x: char) {
    match c
    case NotAeiou => !Aeiou(x)
    case NotAeiouy => !Aeiou(x) && x != 'y'
    case Aeiouy => Aeiou(x) || x == 'y'
    case OnlyAeiou => Aeiou(x)
    case NotAeiouwxy => !Aeiou(x) && x != 'w' && x != 'x' && x != 'y'
  }

  datatype Pattern = One(c: Class) | Many(c: Class) | Then(first: Pattern, rest: Pattern) | Maybe(p: Pattern)

  /** p matches all of s. */
  predicate Matches(p: Pattern, s: string)
    decreases p
  {
    match p
    case One(c) => |s| == 1 && InClass(c, s[0])
    case Many(c) => forall i :: 0 <= i < |s| ==> InClass(c, s[i])
    case Then(a, b) => exists k :: 0 <= k <= |s| && Matches(a, s[..k]) && Matches(b, s[k..])
    case Maybe(a) => s == "" || Matches(a, s)
  }

  /** p matches some start of s. */
  predicate TestStart(p: Pattern, s: string) {
    exists k :: 0 <= k <= |s| && Matches(p, s[..k])
  }

  // the source's c, v, C and V, and the patterns built from them
  const CONSONANT := One(NotAeiou)
  const VOWEL := One(Aeiouy)
  const CONSONANTS := Then(CONSONANT, Many(NotAeiouy))
  const VOWELS := Then(VOWEL, Many(OnlyAeiou))

  const MGR0 := Then(Maybe(CONSONANTS), Then(VOWELS, CONSONANTS))
  const MEQ1 := Then(Maybe(CONSONANTS), Then(VOWELS, Then(CONSONANTS, Maybe(VOWELS))))
  const MGR1 := Then(Maybe(CONSONANTS), Then(VOWELS, Then(CONSONANTS, Then(VOWELS, CONSONANTS))))
  const S_V := Then(Maybe(CONSONANTS), VOWEL)
  const CVC := Then(CONSONANTS, Then(VOWEL, One(NotAeiouwxy)))

  // ---------------------------------------------------------------- runs

  /** Letters i to j - 1 are all vowels, or all consonants. */
  ghost predicate Run(w: string, i: nat, j: nat, vowels: bool)
    requires j <= |w|
  {
    i <= j && forall k :: i <= k < j ==> Vowel(w, k) == vowels
  }

  /** What comes before i is of the other kind (the word itself starts with no y). */
  predicate Starts(w: string, i: nat, vowels: bool)
    requires i <= |w|
  {
    if i == 0 then w == "" || w[0] != 'y' else Vowel(w, i - 1) != vowels
  }

  lemma HeadAndTail(first: Class, tail: Class, s: string)
    ensures Matches(Then(One(first), Many(tail)), s) <==>
            s != "" && InClass(first, s[0]) && forall i :: 1 <= i < |s| ==> InClass(tail, s[i])
  {
    if k :| 0 <= k <= |s| && Matches(One(first), s[..k]) && Matches(Many(tail), s[k..]) {
      forall i | 1 <= i < |s| ensures InClass(tail, s[i]) { assert s[1..][i - 1] == s[i]; }
    }
    if s != "" && InClass(first, s[0]) && forall i :: 1 <= i < |s| ==> InClass(tail, s[i]) {
      assert Matches(One(first), s[..1]) && Matches(Many(tail), s[1..]);
    }
  }

  /** Where a run of this kind can start, the block pattern matches exactly the runs. */
  lemma RunMatches(w: string, i: nat, j: nat, vowels: bool)
    requires i <= j <= |w| && Starts(w, i, vowels)
    ensures Matches(if vowels then VOWELS else CONSONANTS, w[i..j]) <==> i < j && Run(w, i, j, vowels)
  {
    if vowels { HeadAndTail(Aeiouy, OnlyAeiou, w[i..j]); } else { HeadAndTail(NotAeiou, NotAeiouy, w[i..j]); }
    forall k | i <= k < j ensures w[i..j][k - i] == w[k] {}
    if Matches(if vowels then VOWELS else CONSONANTS, w[i..j]) {
      forall k | i <= k < j ensures Vowel(w, k) == vowels { assert w[i..j][k - i] == w[k]; }
    }
    if i < j && Run(w, i, j, vowels) {
      assert Vowel(w, i) == vowels && w[i..j][0] == w[i];
      forall n | 1 <= n < j - i ensures InClass(if vowels then OnlyAeiou else NotAeiouy, w[i..j][n]) {
        assert Vowel(w, i + n) == vowels == Vowel(w, i + n - 1);
      }
    }
  }

  /** The end of the run of this kind that starts at i. */
  function RunEnd(w: string, i: nat, vowels: bool): (j: nat)
    requires i <= |w|
    ensures i <= j <= |w| && Run(w, i, j, vowels) && (j < |w| ==> Vowel(w, j) != vowels)
    decreases |w| - i
  {
    if i < |w| && Vowel(w, i) == vowels then RunEnd(w, i + 1, vowels) else i
  }

  // ---------------------------------------------------------------- the patterns compute the measure

  lemma PartOfPart(w: string, i: nat, k: nat, j: nat)
    requires i <= k <= j <= |w|
    ensures w[i..j][..k - i] == w[i..k] && w[i..j][k - i..] == w[k..j]
  {
  }

  ghost predicate SplitsAt(p: Pattern, q: Pattern, w: string, i: nat, k: nat, j: nat) {
    i <= k <= j <= |w| && Matches(p, w[i..k]) && Matches(q, w[k..j])
  }

  lemma SplitMatches(p: Pattern, q: Pattern, w: string, i: nat, k: nat, j: nat)
    requires SplitsAt(p, q, w, i, k, j)
    ensures Matches(Then(p, q), w[i..j])
  {
    PartOfPart(w, i, k, j);
    var s := w[i..j];
    assert 0 <= k - i <= |s| && Matches(p, s[..k - i]) && Matches(q, s[k - i..]);
  }

  lemma MatchSplits(p: Pattern, q: Pattern, w: string, i: nat, j: nat) returns (k: nat)
    requires i <= j <= |w| && Matches(Then(p, q), w[i..j])
    ensures SplitsAt(p, q, w, i, k, j)
  {
    var s := w[i..j];
    var n :| 0 <= n <= |s| && Matches(p, s[..n]) && Matches(q, s[n..]);
    k := i + n;
    PartOfPart(w, i, k, j);
  }

  /** A concatenation matches part of a word by splitting it somewhere. */
  lemma ThenSplits(p: Pattern, q: Pattern, w: string, i: nat, j: nat)
    requires i <= j <= |w|
    ensures Matches(Then(p, q), w[i..j]) <==> exists k :: i <= k <= j && Matches(p, w[i..k]) && Matches(q, w[k..j])
  {
    hide Matches;
    if Matches(Then(p, q), w[i..j]) { var k := MatchSplits(p, q, w, i, j); }
    if k :| i <= k <= j && Matches(p, w[i..k]) && Matches(q, w[k..j]) { SplitMatches(p, q, w, i, k, j); }
  }

  /** An optional leading consonant block, then the rest: only the full run will do if a vowel is to follow. */
  lemma LeadSplits(q: Pattern, w: string, j: nat)
    requires j <= |w| && Starts(w, 0, false)
    ensures Matches(Then(Maybe(CONSONANTS), q), w[0..j]) <==>
            exists a :: 0 <= a <= j && Run(w, 0, a, false) && Matches(q, w[a..j])
  {
    ThenSplits(Maybe(CONSONANTS), q, w, 0, j);
    forall a | 0 <= a <= j ensures Matches(Maybe(CONSONANTS), w[0..a]) <==> Run(w, 0, a, false) {
      RunMatches(w, 0, a, false);
    }
  }

  /** A block of one kind, then the rest. */
  lemma BlockSplits(q: Pattern, w: string, i: nat, j: nat, vowels: bool)
    requires i <= j <= |w| && Starts(w, i, vowels)
    ensures Matches(Then(if vowels then VOWELS else CONSONANTS, q), w[i..j]) <==>
            exists k :: i < k <= j && Run(w, i, k, vowels) && Matches(q, w[k..j])
  {
    ThenSplits(if vowels then VOWELS else CONSONANTS, q, w, i, j);
    forall k | i <= k <= j
      ensures Matches(if vowels then VOWELS else CONSONANTS, w[i..k]) <==> i < k && Run(w, i, k, vowels)
    {
      RunMatches(w, i, k, vowels);
    }
  }

  lemma AfterRun(w: string, i: nat, k: nat, vowels: bool)
    requires i <= k <= |w| && Run(w, i, k, vowels) && (i < k || (i == 0 && Starts(w, 0, !vowels)))
    ensures Starts(w, k, !vowels)
  {
  }

  /** w up to j is [C]VC: consonants to a, vowels to b, consonants to j. */
  ghost predicate Shape(w: string, a: nat, b: nat, j: nat) {
    a < b < j <= |w| && Run(w, 0, a, false) && Run(w, a, b, true) && Run(w, b, j, false)
  }

  lemma ShapeMatches(q: Pattern, w: string, j: nat)
    requires j <= |w| && Starts(w, 0, false)
    ensures Matches(Then(Maybe(CONSONANTS), Then(VOWELS, Then(CONSONANTS, q))), w[0..j]) <==>
            exists a: nat, b: nat, d: nat :: Shape(w, a, b, d) && d <= j && Matches(q, w[d..j])
  {
    LeadSplits(Then(VOWELS, Then(CONSONANTS, q)), w, j);
    forall a | 0 <= a <= j && Run(w, 0, a, false)
      ensures Matches(Then(VOWELS, Then(CONSONANTS, q)), w[a..j]) <==>
              exists b: nat, d: nat :: Shape(w, a, b, d) && d <= j && Matches(q, w[d..j])
    {
      AfterRun(w, 0, a, false);
      BlockSplits(Then(CONSONANTS, q), w, a, j, true);
      forall b | a < b <= j && Run(w, a, b, true)
        ensures Matches(Then(CONSONANTS, q), w[b..j]) <==>
                exists d: nat :: Shape(w, a, b, d) && d <= j && Matches(q, w[d..j])
      {
        AfterRun(w, a, b, true);
        BlockSplits(q, w, b, j, false);
      }
    }
  }

  /** VC from d to j */
  lemma VowelsConsonants(w: string, d: nat, j: nat)
    requires d <= j <= |w| && Starts(w, d, true)
    ensures Matches(Then(VOWELS, CONSONANTS), w[d..j]) <==>
            exists b: nat :: d < b < j && Run(w, d, b, true) && Run(w, b, j, false)
  {
    BlockSplits(CONSONANTS, w, d, j, true);
    forall b | d < b <= j && Run(w, d, b, true)
      ensures Matches(CONSONANTS, w[b..j]) <==> b < j && Run(w, b, j, false)
    {
      RunMatches(w, b, j, false);
    }
  }

  lemma {:induction false} Mgr0Matches(w: string, j: nat)
    requires j <= |w| && Starts(w, 0, false)
    ensures Matches(MGR0, w[0..j]) <==> exists a: nat, b: nat :: Shape(w, a, b, j)
  {
    LeadSplits(Then(VOWELS, CONSONANTS), w, j);
    forall a | 0 <= a <= j && Run(w, 0, a, false)
      ensures Matches(Then(VOWELS, CONSONANTS), w[a..j]) <==> exists b: nat :: Shape(w, a, b, j)
    {
      AfterRun(w, 0, a, false);
      VowelsConsonants(w, a, j);
      forall b: nat ensures Shape(w, a, b, j) <==> a < b < j && Run(w, a, b, true) && Run(w, b, j, false) {}
    }
  }

  /** The word's first blocks, as far as they go. */
  lemma FirstShape(w: string, k: nat) returns (a: nat, b: nat, d: nat)
    requires Turns(w, k)
    ensures Shape(w, a, b, b + 1) && Shape(w, a, b, d) && b <= k && Turns(w, b)
    ensures d < |w| ==> Vowel(w, d)
  {
    a := RunEnd(w, 0, false);
    b := RunEnd(w, a, true);
    d := RunEnd(w, b, false);
    assert Vowel(w, k - 1);
    assert a <= k - 1 && b <= k;
  }

  /** mgr0 accepts exactly the words of measure > 0. */
  lemma Mgr0IsMeasure(w: string)
    requires w == "" || w[0] != 'y'
    ensures TestStart(MGR0, w) <==> Measure(w) > 0
  {
    forall j | 0 <= j <= |w| ensures w[..j] == w[0..j] {}
    if TestStart(MGR0, w) {
      var j :| 0 <= j <= |w| && Matches(MGR0, w[..j]);
      Mgr0Matches(w, j);
      var a: nat, b: nat :| Shape(w, a, b, j);
      MeasureCounts(w, b, b);
    }
    if Measure(w) > 0 {
      var k := FindTurn(w, |w|);
      var a, b, d := FirstShape(w, k);
      Mgr0Matches(w, b + 1);
      assert Matches(MGR0, w[..b + 1]);
    }
  }

  ghost predicate DoubleShape(w: string, a: nat, b: nat, d: nat, f: nat, j: nat) {
    Shape(w, a, b, d) && d < f < j <= |w| && Run(w, d, f, true) && Run(w, f, j, false)
  }

  lemma {:induction false} Mgr1Matches(w: string, j: nat)
    requires j <= |w| && Starts(w, 0, false)
    ensures Matches(MGR1, w[0..j]) <==>
            exists a: nat, b: nat, d: nat, f: nat :: DoubleShape(w, a, b, d, f, j)
  {
    ShapeMatches(Then(VOWELS, CONSONANTS), w, j);
    hide Matches;
    forall a: nat, b: nat, d: nat | Shape(w, a, b, d) && d <= j
      ensures Matches(Then(VOWELS, CONSONANTS), w[d..j]) <==> exists f: nat :: DoubleShape(w, a, b, d, f, j)
    {
      VowelsConsonants(w, d, j);
      forall f: nat ensures DoubleShape(w, a, b, d, f, j) <==> d < f < j && Run(w, d, f, true) && Run(w, f, j, false) {}
    }
  }

  /** mgr1 accepts exactly the words of measure > 1. */
  lemma Mgr1IsMeasure(w: string)
    requires w == "" || w[0] != 'y'
    ensures TestStart(MGR1, w) <==> Measure(w) > 1
  {
    hide Matches, DoubleShape, Measure;
    forall j | 0 <= j <= |w| ensures w[..j] == w[0..j] {}
    if TestStart(MGR1, w) {
      var j :| 0 <= j <= |w| && Matches(MGR1, w[..j]);
      Mgr1Matches(w, j);
      var a: nat, b: nat, d: nat, f: nat :| DoubleShape(w, a, b, d, f, j);
      DoubleTurns(w, a, b, d, f, j);
    }
    if Measure(w) > 1 {
      var a, b, d, f := TwoTurns(w);
      Mgr1Matches(w, f + 1);
      assert Matches(MGR1, w[..f + 1]);
    }
  }

  lemma DoubleTurns(w: string, a: nat, b: nat, d: nat, f: nat, j: nat)
    requires DoubleShape(w, a, b, d, f, j)
    ensures Measure(w) > 1
  {
    MeasureCounts(w, b, f);
  }

  /** Where the first two runs of vowels begin and end. */
  lemma TwoTurns(w: string) returns (a: nat, b: nat, d: nat, f: nat)
    requires Measure(w) > 1
    ensures f < |w| && DoubleShape(w, a, b, d, f, f + 1)
  {
    var l := FindTurn(w, |w|);
    var k := FindTurn(w, l);
    hide Measure;
    a, b, d := FirstShape(w, k);
    assert Vowel(w, l - 1) && d <= l - 1;
    f := RunEnd(w, d, true);
    assert f <= l;
  }

  /** meq1 accepts exactly the words of measure 1. */
  lemma {:induction false} Meq1IsMeasure(w: string)
    requires w == "" || w[0] != 'y'
    ensures Matches(MEQ1, w) <==> Measure(w) == 1
  {
    assert w == w[0..|w|];
    ShapeMatches(Maybe(VOWELS), w, |w|);
    if Matches(MEQ1, w) {
      var a: nat, b: nat, d: nat :| Shape(w, a, b, d) && d <= |w| && Matches(Maybe(VOWELS), w[d..|w|]);
      RunMatches(w, d, |w|, true);
      MeasureCounts(w, b, b);
    }
    if Measure(w) == 1 {
      var k := FindTurn(w, |w|);
      var a, b, d := FirstShape(w, k);
      forall i: nat | Turns(w, i) ensures i <= k { MeasureCounts(w, k, i); }
      assert Run(w, d, |w|, true) by {
        var f := RunEnd(w, d, true);
        if f < |w| {
          if d == |w| { assert false; }
          MeasureCounts(w, b, f);
        }
      }
      RunMatches(w, d, |w|, true);
    }
  }

  lemma SvMatches(w: string, j: nat)
    requires j <= |w| && Starts(w, 0, false)
    ensures Matches(S_V, w[0..j]) <==> j > 0 && Run(w, 0, j - 1, false) && InClass(Aeiouy, w[j - 1])
  {
    LeadSplits(VOWEL, w, j);
    forall a | 0 <= a <= j ensures Matches(VOWEL, w[a..j]) <==> a + 1 == j && InClass(Aeiouy, w[a]) {
      if a + 1 == j { assert w[a..j][0] == w[a]; }
    }
  }

  /** s_v accepts exactly the words with a vowel. */
  lemma SvIsVowel(w: string)
    requires w == "" || w[0] != 'y'
    ensures TestStart(S_V, w) <==> HasVowel(w)
  {
    hide Matches;
    forall j | 0 <= j <= |w| ensures w[..j] == w[0..j] {}
    if TestStart(S_V, w) {
      var j :| 0 <= j <= |w| && Matches(S_V, w[..j]);
      SvMatches(w, j);
      AfterRun(w, 0, j - 1, false);
      assert Vowel(w, j - 1);
    }
    if HasVowel(w) {
      var i :| 0 <= i < |w| && Vowel(w, i);
      var a := RunEnd(w, 0, false);
      assert a <= i && Vowel(w, a);
      SvMatches(w, a + 1);
      assert Matches(S_V, w[..a + 1]);
    }
  }

  /** The stem's last three letters are consonant, vowel, consonant, the last one none of w, x, y. */
  predicate EndsCvc(w: string) {
    var n := |w|;
    n >= 3 && !Vowel(w, n - 3) && Vowel(w, n - 2) && !Vowel(w, n - 1) && w[n - 1] != 'w' && w[n - 1] != 'x' &&
    w[n - 1] != 'y'
  }

  lemma VowelThenLast(w: string, a: nat)
    requires a <= |w|
    ensures Matches(Then(VOWEL, One(NotAeiouwxy)), w[a..|w|]) <==>
            a + 2 == |w| && InClass(Aeiouy, w[a]) && InClass(NotAeiouwxy, w[a + 1])
  {
    ThenSplits(VOWEL, One(NotAeiouwxy), w, a, |w|);
    if a + 2 == |w| { assert w[a..a + 1][0] == w[a] && w[a + 1..|w|][0] == w[a + 1]; }
  }

  lemma CvcMatches(w: string)
    requires w == "" || w[0] != 'y'
    ensures var n := |w|;
            Matches(CVC, w) <==>
            n >= 3 && Run(w, 0, n - 2, false) && InClass(Aeiouy, w[n - 2]) && InClass(NotAeiouwxy, w[n - 1])
  {
    var n := |w|;
    assert w == w[0..n];
    hide Matches;
    BlockSplits(Then(VOWEL, One(NotAeiouwxy)), w, 0, n, false);
    forall a | 0 < a <= n
      ensures Matches(Then(VOWEL, One(NotAeiouwxy)), w[a..n]) <==>
              a + 2 == n && InClass(Aeiouy, w[a]) && InClass(NotAeiouwxy, w[a + 1])
    {
      VowelThenLast(w, a);
    }
  }

  /** With one turning point, at the end, everything before the last vowel is consonants. */
  lemma OneTurnAtEnd(w: string)
    requires Measure(w) == 1 && EndsCvc(w)
    ensures Run(w, 0, |w| - 2, false)
  {
    hide Measure;
    var n := |w|;
    forall i | 0 <= i < n - 2 ensures !Vowel(w, i) {
      if Vowel(w, i) {
        var e := RunEnd(w, i, true);
        assert Turns(w, e) && Turns(w, n - 1);
        MeasureCounts(w, e, n - 1);
      }
    }
  }

  /** ^Cv[^aeiouwxy]$ accepts exactly the words of measure 1 that end in cvc. */
  lemma CvcMeans(w: string)
    requires w == "" || w[0] != 'y'
    ensures Matches(CVC, w) <==> Measure(w) == 1 && EndsCvc(w)
  {
    CvcMatches(w);
    hide Matches, Measure;
    if Matches(CVC, w) { CvcTurnsOnce(w); }
    if Measure(w) == 1 && EndsCvc(w) { OneTurnAtEnd(w); }
  }

  lemma CvcTurnsOnce(w: string)
    requires |w| >= 3 && Run(w, 0, |w| - 2, false) && InClass(Aeiouy, w[|w| - 2]) && InClass(NotAeiouwxy, w[|w| - 1])
    ensures Measure(w) == 1 && EndsCvc(w)
  {
    hide Measure;
    var n := |w|;
    assert !Vowel(w, n - 3) && Vowel(w, n - 2) && !Vowel(w, n - 1);
    forall i: nat | i < n - 1 ensures !Turns(w, i) { if i > 0 { assert !Vowel(w, i - 1); } }
    assert Turns(w, n - 1);
    MeasureCounts(w, n - 1, n - 1);
  }

  // ---------------------------------------------------------------- a leading y

  predicate LeadsWithY(w: string) {
    w != "" && w[0] == 'y'
  }

  function Capital(w: string): (c: string)
    requires w != ""
    ensures |c| == |w| && c[0] == 'Y' && c[1..] == w[1..] && forall i :: 1 <= i < |w| ==> c[i] == w[i]
  {
    "Y" + w[1..]
  }

  lemma {:induction false} SameVowels(w: string, i: nat)
    requires LeadsWithY(w) && i < |w|
    ensures Vowel(Capital(w), i) == Vowel(w, i)
  {
    if i > 0 { SameVowels(w, i - 1); }
  }

  lemma {:induction false} SameTurnings(w: string, n: nat)
    requires LeadsWithY(w)
    ensures Turnings(Capital(w), n) == Turnings(w, n)
  {
    if n > 0 {
      SameTurnings(w, n - 1);
      if 0 < n - 1 < |w| { SameVowels(w, n - 1); SameVowels(w, n - 2); }
    }
  }

  /** Read as a consonant, a leading y matches what Y does. */
  lemma SameLead(w: string, a: nat)
    requires LeadsWithY(w) && 0 < a <= |w|
    ensures Matches(CONSONANTS, w[0..a]) == Matches(CONSONANTS, Capital(w)[0..a]) && w[a..] == Capital(w)[a..]
  {
    var c := Capital(w);
    HeadAndTail(NotAeiou, NotAeiouy, w[0..a]);
    HeadAndTail(NotAeiou, NotAeiouy, c[0..a]);
    forall i | 1 <= i < a ensures w[0..a][i] == c[0..a][i] {}
  }

  /** Before an a, e, i, o or u the two readings of a leading y come to the same. */
  lemma {:induction false} VowelAfterY(w: string, j: nat)
    requires LeadsWithY(w) && |w| > 1 && Aeiou(w[1]) && j <= |w|
    ensures Matches(MGR0, w[0..j]) <==> Matches(MGR0, Capital(w)[0..j])
  {
    var c, rest := Capital(w), Then(VOWELS, CONSONANTS);
    hide Matches;
    if Matches(MGR0, w[0..j]) {
      var a := MatchSplits(Maybe(CONSONANTS), rest, w, 0, j);
      if a > 0 { LeadFits(w, a, j, rest); } else { YAsVowel(w, j); }
    }
    if Matches(MGR0, c[0..j]) {
      var a := MatchSplits(Maybe(CONSONANTS), rest, c, 0, j);
      if a == 0 { NoVowelY(c, j); }
      LeadFits(w, a, j, rest);
    }
  }

  lemma LeadFits(w: string, a: nat, j: nat, rest: Pattern)
    requires LeadsWithY(w) && 0 < a <= j <= |w|
    ensures SplitsAt(Maybe(CONSONANTS), rest, w, 0, a, j) <==> SplitsAt(Maybe(CONSONANTS), rest, Capital(w), 0, a, j)
    ensures SplitsAt(Maybe(CONSONANTS), rest, w, 0, a, j) ==>
              Matches(Then(Maybe(CONSONANTS), rest), w[0..j]) &&
              Matches(Then(Maybe(CONSONANTS), rest), Capital(w)[0..j])
  {
    var c := Capital(w);
    SameLead(w, a);
    assert w[a..j] == w[a..][..j - a] && c[a..j] == c[a..][..j - a];
    assert Matches(Maybe(CONSONANTS), w[0..a]) == Matches(CONSONANTS, w[0..a]);
    assert Matches(Maybe(CONSONANTS), c[0..a]) == Matches(CONSONANTS, c[0..a]);
    if SplitsAt(Maybe(CONSONANTS), rest, w, 0, a, j) {
      SplitMatches(Maybe(CONSONANTS), rest, w, 0, a, j);
      SplitMatches(Maybe(CONSONANTS), rest, c, 0, a, j);
    }
  }

  lemma NoVowelY(c: string, j: nat)
    requires c != "" && c[0] == 'Y' && j <= |c|
    ensures !Matches(Then(VOWELS, CONSONANTS), c[0..j])
  {
    if Matches(Then(VOWELS, CONSONANTS), c[0..j]) {
      var b := MatchSplits(VOWELS, CONSONANTS, c, 0, j);
      HeadAndTail(Aeiouy, OnlyAeiou, c[0..b]);
      assert false;
    }
  }

  /** y read as a vowel takes the vowel behind it along, which Y leaves to itself. */
  lemma {:induction false} YAsVowel(w: string, j: nat)
    requires LeadsWithY(w) && |w| > 1 && Aeiou(w[1]) && j <= |w|
    requires Matches(Then(VOWELS, CONSONANTS), w[0..j])
    ensures Matches(MGR0, Capital(w)[0..j])
  {
    var c := Capital(w);
    var b := MatchSplits(VOWELS, CONSONANTS, w, 0, j);
    VowelsBehindY(w, b, j);
    hide Matches;
    SplitMatches(VOWELS, CONSONANTS, c, 1, b, j);
    SplitMatches(Maybe(CONSONANTS), Then(VOWELS, CONSONANTS), c, 0, 1, j);
  }

  lemma VowelsBehindY(w: string, b: nat, j: nat)
    requires LeadsWithY(w) && |w| > 1 && Aeiou(w[1]) && SplitsAt(VOWELS, CONSONANTS, w, 0, b, j)
    ensures SplitsAt(VOWELS, CONSONANTS, Capital(w), 1, b, j) && Matches(Maybe(CONSONANTS), Capital(w)[0..1])
  {
    var c := Capital(w);
    HeadAndTail(Aeiouy, OnlyAeiou, w[0..b]);
    HeadAndTail(NotAeiou, NotAeiouy, w[b..j]);
    HeadAndTail(NotAeiou, NotAeiouy, c[0..1]);
    assert w[b..j][0] == w[b] && b > 1;
    HeadAndTail(Aeiouy, OnlyAeiou, c[1..b]);
    hide Matches;
    forall i | 0 <= i < b - 1 ensures Aeiou(c[1..b][i]) { assert c[1..b][i] == w[0..b][i + 1]; }
    assert w[b..j] == c[b..j];
  }

  /** Before any other letter y passes for a vowel, whatever the measure. */
  lemma ConsonantAfterY(w: string)
    requires |w| > 1 && w[0] == 'y' && InClass(NotAeiou, w[1])
    ensures TestStart(MGR0, w)
  {
    HeadAndTail(Aeiouy, OnlyAeiou, w[0..1]);
    HeadAndTail(NotAeiou, NotAeiouy, w[1..2]);
    assert Matches(Maybe(CONSONANTS), w[0..0]);
    hide Matches;
    SplitMatches(VOWELS, CONSONANTS, w, 0, 1, 2);
    SplitMatches(Maybe(CONSONANTS), Then(VOWELS, CONSONANTS), w, 0, 0, 2);
    assert w[..2] == w[0..2];
  }

  lemma NothingAfterY(w: string)
    requires w == "y"
    ensures !TestStart(MGR0, w)
  {
    if j :| 0 <= j <= |w| && Matches(MGR0, w[..j]) {
      assert w[..j] == w[0..j];
      var a := MatchSplits(Maybe(CONSONANTS), Then(VOWELS, CONSONANTS), w, 0, j);
      var b := MatchSplits(VOWELS, CONSONANTS, w, a, j);
      HeadAndTail(Aeiouy, OnlyAeiou, w[a..b]);
      HeadAndTail(NotAeiou, NotAeiouy, w[b..j]);
      assert false;
    }
  }

  /**
   Which words that start with y the pattern takes to be of measure > 0: those that are, and those with
   another letter than a, e, i, o, u behind it.  So a leading y is first turned into Y.
  */
  lemma {:induction false} LeadingYIsMisread(w: string)
    requires w != "" && w[0] == 'y'
    ensures TestStart(MGR0, w) <==> Measure(w) > 0 || (|w| > 1 && !Aeiou(w[1]))
  {
    if |w| == 1 {
      NothingAfterY(w);
      assert w == "y" && !Turns(w, 0) && Turnings(w, 1) == 0;
    } else if Aeiou(w[1]) {
      var c := Capital(w);
      SameTurnings(w, |w|);
      Mgr0IsMeasure(c);
      forall j | 0 <= j <= |w| ensures Matches(MGR0, w[..j]) <==> Matches(MGR0, c[..j]) {
        assert w[..j] == w[0..j] && c[..j] == c[0..j];
        VowelAfterY(w, j);
      }
      hide Matches;
    } else {
      ConsonantAfterY(w);
    }
  }

  /** A word that is misread. */
  lemma {:induction false} MisreadWord()
    ensures TestStart(MGR0, "yb") && Measure("yb") == 0
  {
    var w := "yb";
    LeadingYIsMisread(w);
    hide TestStart;
    assert !Turns(w, 0) && !Turns(w, 1);
    assert Turnings(w, 2) == 0;
  }
}
