/**
 What each step of the stemmer does to a word that ends in one of its suffixes: the tables of steps 2 to 4, and which
 of two suffixes that both fit is meant.
*/
module PorterTables {
  import opened Lists
  import opened PorterMeasure
  import opened PorterStemmer
  import opened PorterRules

  /** stem is there and can be read by a pattern. */
  predicate Readable(stem: string) {
    stem != "" && AllDots(stem)
  }

  /** w is a longer word that ends so. */
  predicate Behind(w: string, suffix: string) {
    |w| > |suffix| && EndsIn(w, suffix)
  }

  // ---------------------------------------------------------------- the rule that applies

  lemma SumParts(stem: string, suffix: string)
    ensures (stem + suffix)[|stem|..] == suffix && (stem + suffix)[..|stem|] == stem
  {
  }

  /** If no other listed suffix fits and is at least as long, this one is taken off. */
  lemma Applies(stem: string, rules: seq<Shortening>, r: Shortening)
    requires Readable(stem) && r in rules && r.suffix != ""
    requires forall s :: s in rules && |s.suffix| >= |r.suffix| && Behind(stem + r.suffix, s.suffix) ==> s == r
    ensures Split(stem + r.suffix, rules, 1) == Some(Cut(stem, r))
  {
    var w := stem + r.suffix;
    SumParts(stem, r.suffix);
    hide AllDots;
    SplitIsLongest(w, rules, 1, r);
    var cut := Split(w, rules, 1).value;
    hide Split;
    assert |w| > |cut.rule.suffix|;
    SumParts(cut.stem, cut.rule.suffix);
    assert Behind(w, cut.rule.suffix);
  }

  lemma NoneApplies(w: string, rules: seq<Shortening>)
    requires forall s :: s in rules ==> !Behind(w, s.suffix)
    ensures Split(w, rules, 1).None?
  {
    var cut := Split(w, rules, 1);
    hide Split;
    if cut.Some? { SumParts(cut.value.stem, cut.value.rule.suffix); }
  }

  /** Two suffixes of one word: the shorter ends the longer, which the stem completes. */
  lemma BothEnd(stem: string, suffix: string, longer: string)
    requires |longer| >= |suffix| && EndsIn(stem + suffix, longer)
    ensures EndsIn(longer, suffix) && EndsIn(stem, longer[..|longer| - |suffix|])
  {
    var w, n := stem + suffix, |longer| - |suffix|;
    assert w[|w| - |longer|..][n..] == w[|stem|..] == suffix;
    assert w[|w| - |longer|..][..n] == w[..|stem|][|stem| - n..];
    assert w[..|stem|] == stem;
  }

  // ---------------------------------------------------------------- step 2

  /** What step 2 puts in place of a suffix */
  function Replacement2(suffix: string): Option<string> {
    match |suffix|
    case 7 => (match suffix
               case "ational" => Some("ate") case "ization" => Some("ize") case "iveness" => Some("ive")
               case "fulness" => Some("ful") case "ousness" => Some("ous") case _ => None)
    case 6 => (match suffix
               case "tional" => Some("tion") case "biliti" => Some("ble") case _ => None)
    case 5 => (match suffix
               case "entli" => Some("ent") case "ousli" => Some("ous") case "ation" => Some("ate")
               case "alism" => Some("al") case "aliti" => Some("al") case "iviti" => Some("ive") case _ => None)
    case 4 => (match suffix
               case "enci" => Some("ence") case "anci" => Some("ance") case "izer" => Some("ize")
               case "alli" => Some("al") case "ator" => Some("ate") case "logi" => Some("log") case _ => None)
    case 3 => (match suffix
               case "bli" => Some("ble") case "eli" => Some("e") case _ => None)
    case _ => None
  }

  lemma Listed2A(r: Shortening)
    requires r in STEP2_A
    ensures Replacement2(r.suffix) == Some(r.replacement)
  {
  }

  lemma Listed2B(r: Shortening)
    requires r in STEP2_B
    ensures Replacement2(r.suffix) == Some(r.replacement)
  {
  }

  lemma Listed2C(r: Shortening)
    requires r in STEP2_C
    ensures Replacement2(r.suffix) == Some(r.replacement)
  {
  }

  lemma Listed2(r: Shortening)
    requires r in STEP2
    ensures Replacement2(r.suffix) == Some(r.replacement)
  {
    assert r in STEP2_A || r in STEP2_B || r in STEP2_C;
    hide Replacement2;
    if r in STEP2_A { Listed2A(r); } else if r in STEP2_B { Listed2B(r); } else { Listed2C(r); }
  }

  lemma Has2(suffix: string)
    requires Replacement2(suffix).Some?
    ensures Rule(suffix, Replacement2(suffix).value) in STEP2_A + STEP2_B + STEP2_C
  {
  }

  lemma Nested2Far(s: string, longer: string)
    requires Replacement2(s).Some? && Replacement2(longer).Some? && |longer| >= |s| + 2
    requires longer[|longer| - 1] == s[|s| - 1] && longer[|longer| - 2] == s[|s| - 2]
    requires longer[|longer| - |s|] == s[0]
    ensures longer == "ization" && s == "ation"
  {
    if |longer| == 7 {} else if |longer| == 6 {} else {}
  }

  lemma Nested2Near(s: string, longer: string)
    requires Replacement2(s).Some? && Replacement2(longer).Some? && |longer| == |s| + 1
    requires longer[|longer| - 1] == s[|s| - 1] && longer[1] == s[0] && longer[2] == s[1]
    ensures longer == "ational" && s == "tional"
  {
    if |longer| == 7 {} else if |longer| == 6 {} else {}
  }

  /** The only suffixes of step 2 that end in others of the list */
  lemma Nested2(s: string, longer: string)
    requires Replacement2(s).Some? && Replacement2(longer).Some? && |longer| > |s| && EndsIn(longer, s)
    ensures (longer == "ational" && s == "tional") || (longer == "ization" && s == "ation")
  {
    var n := |longer| - |s|;
    assert |s| >= 3;
    hide Replacement2;
    forall i | 0 <= i < |s| ensures longer[n + i] == s[i] { assert longer[n..][i] == s[i]; }
    assert longer[n + |s| - 1] == s[|s| - 1] && longer[n + |s| - 2] == s[|s| - 2] && longer[n] == s[0];
    if n == 1 { Nested2Near(s, longer); } else { Nested2Far(s, longer); }
  }

  lemma Prefixes()
    ensures "ational"[..1] == "a" && "ization"[..2] == "iz"
  {
  }

  lemma Nested(stem: string, suffix: string, longer: string)
    requires |longer| >= |suffix| && Behind(stem + suffix, longer) && longer != suffix
    ensures EndsIn(longer, suffix) && Behind(stem, longer[..|longer| - |suffix|]) && |longer| > |suffix|
  {
    BothEnd(stem, suffix, longer);
  }

  /** Step 2 replaces a listed suffix behind a stem of measure > 0; of two that fit it takes the longer. */
  lemma Step2Replaces(stem: string, suffix: string)
    requires Readable(stem) && Replacement2(suffix).Some?
    requires !(suffix == "tional" && Behind(stem, "a")) && !(suffix == "ation" && Behind(stem, "iz"))
    ensures Step2(stem + suffix, 1) ==
            if Measure(stem) > 0 then stem + Replacement2(suffix).value else stem + suffix
  {
    hide Replacement2, STEP2, EndsIn, Split, AllDots, Measure;
    Prefixes();
    var r: Shortening := ShorteningOf2(suffix);
    forall s | s in STEP2 && |s.suffix| >= |suffix| && Behind(stem + suffix, s.suffix) ensures s == r {
      Listed2(s);
      if s.suffix != suffix {
        Nested(stem, suffix, s.suffix);
        Nested2(suffix, s.suffix);
      }
    }
    Applies(stem, STEP2, r);
  }

  function ShorteningOf2(suffix: string): (r: Shortening)
    requires Replacement2(suffix).Some?
    ensures r == Rule(suffix, Replacement2(suffix).value) && r in STEP2 && suffix != ""
  {
    Has2(suffix);
    Rule(suffix, Replacement2(suffix).value)
  }

  /** A word that ends in no listed suffix with something in front stays. */
  lemma Step2Keeps(w: string)
    requires forall s :: Replacement2(s).Some? ==> !Behind(w, s)
    ensures Step2(w, 1) == w
  {
    hide Replacement2, STEP2, Split, Measure;
    forall r | r in STEP2 ensures !Behind(w, r.suffix) { Listed2(r); }
    NoneApplies(w, STEP2);
  }

  // ---------------------------------------------------------------- step 3

  /** What step 3 puts in place of a suffix */
  function Replacement3(suffix: string): Option<string> {
    match |suffix|
    case 5 => (match suffix
               case "icate" => Some("ic") case "ative" => Some("") case "alize" => Some("al")
               case "iciti" => Some("ic") case _ => None)
    case 4 => (match suffix
               case "ical" => Some("ic") case "ness" => Some("") case _ => None)
    case 3 => (match suffix
               case "ful" => Some("") case _ => None)
    case _ => None
  }

  lemma Listed3(r: Shortening)
    requires r in STEP3
    ensures Replacement3(r.suffix) == Some(r.replacement)
  {
  }

  function ShorteningOf3(suffix: string): (r: Shortening)
    requires Replacement3(suffix).Some?
    ensures r == Rule(suffix, Replacement3(suffix).value) && r in STEP3 && suffix != ""
  {
    Rule(suffix, Replacement3(suffix).value)
  }

  lemma EndLetters(w: string, s: string)
    requires |s| >= 2 && EndsIn(w, s)
    ensures w[|w| - 1] == s[|s| - 1] && w[|w| - 2] == s[|s| - 2] && w[|w| - |s|] == s[0]
  {
    var n := |w| - |s|;
    assert w[n..][|s| - 1] == w[|w| - 1] && w[n..][|s| - 2] == w[|w| - 2] && w[n..][0] == w[n];
  }

  /** No suffix of step 3 ends in another. */
  lemma Apart3(s: string, longer: string)
    requires Replacement3(s).Some? && Replacement3(longer).Some? && |longer| > |s|
    ensures !EndsIn(longer, s)
  {
    if EndsIn(longer, s) { EndLetters(longer, s); }
  }

  /** Step 3 replaces a listed suffix behind a stem of measure > 0. */
  lemma Step3Replaces(stem: string, suffix: string)
    requires Readable(stem) && Replacement3(suffix).Some?
    ensures Step3(stem + suffix, 1) ==
            if Measure(stem) > 0 then stem + Replacement3(suffix).value else stem + suffix
  {
    hide Replacement3, STEP3, EndsIn, Split, AllDots, Measure;
    var r: Shortening := ShorteningOf3(suffix);
    forall s | s in STEP3 && |s.suffix| >= |suffix| && Behind(stem + suffix, s.suffix) ensures s == r {
      Listed3(s);
      if s.suffix != suffix {
        Nested(stem, suffix, s.suffix);
        Apart3(suffix, s.suffix);
      }
    }
    Applies(stem, STEP3, r);
  }

  lemma Step3Keeps(w: string)
    requires forall s :: Replacement3(s).Some? ==> !Behind(w, s)
    ensures Step3(w, 1) == w
  {
    hide Replacement3, STEP3, Split, Measure;
    forall r | r in STEP3 ensures !Behind(w, r.suffix) { Listed3(r); }
    NoneApplies(w, STEP3);
  }

  // ---------------------------------------------------------------- step 4

  /** The suffixes step 4 takes off */
  predicate Dropped4(suffix: string) {
    match |suffix|
    case 5 => suffix == "ement"
    case 4 => suffix == "ance" || suffix == "ence" || suffix == "able" || suffix == "ible" || suffix == "ment"
    case 3 => suffix == "ant" || suffix == "ent" || suffix == "ism" || suffix == "ate" || suffix == "iti" ||
              suffix == "ous" || suffix == "ive" || suffix == "ize"
    case 2 => suffix == "al" || suffix == "er" || suffix == "ic" || suffix == "ou"
    case _ => false
  }

  lemma Listed4(r: Shortening)
    requires r in STEP4
    ensures Dropped4(r.suffix) && r.replacement == ""
  {
    assert r in STEP4_A || r in STEP4_B;
    if r in STEP4_A { Listed4A(r); } else { Listed4B(r); }
  }

  lemma Listed4A(r: Shortening)
    requires r in STEP4_A
    ensures Dropped4(r.suffix) && r.replacement == ""
  {
  }

  lemma Listed4B(r: Shortening)
    requires r in STEP4_B
    ensures Dropped4(r.suffix) && r.replacement == ""
  {
  }

  function ShorteningOf4(suffix: string): (r: Shortening)
    requires Dropped4(suffix)
    ensures r == Rule(suffix, "") && r in STEP4 && suffix != ""
  {
    Rule(suffix, "")
  }

  /** -ement ends in -ment and that in -ent. */
  lemma Nested4(s: string, longer: string)
    requires Dropped4(s) && Dropped4(longer) && |longer| > |s| && EndsIn(longer, s)
    ensures (s == "ment" && longer == "ement") || (s == "ent" && (longer == "ment" || longer == "ement"))
  {
    EndLetters(longer, s);
  }

  lemma Prefixes4(stem: string)
    ensures "ement"[..1] == "e" && "ment"[..1] == "m" && "ement"[..2] == "em"
    ensures Behind(stem, "em") ==> Behind(stem, "m")
  {
    if Behind(stem, "em") { assert stem[|stem| - 2..][1..] == stem[|stem| - 1..] && "em"[1..] == "m"; }
  }

  /** Step 4 takes a listed suffix off a stem of measure > 1, the longest of those that fit. */
  lemma Step4Drops(stem: string, suffix: string)
    requires Readable(stem) && Dropped4(suffix)
    requires !(suffix == "ment" && Behind(stem, "e")) && !(suffix == "ent" && Behind(stem, "m"))
    ensures Step4(stem + suffix, 1) == if Measure(stem) > 1 then stem else stem + suffix
  {
    hide Dropped4, STEP4, EndsIn, Split, AllDots, Measure, Behind;
    Prefixes4(stem);
    var r: Shortening := ShorteningOf4(suffix);
    forall s | s in STEP4 && |s.suffix| >= |suffix| && Behind(stem + suffix, s.suffix) ensures s == r {
      Listed4(s);
      if s.suffix != suffix {
        Nested(stem, suffix, s.suffix);
        Nested4(suffix, s.suffix);
      }
    }
    Applies(stem, STEP4, r);
  }

  /** -ion goes only behind an s or a t, which stays and counts for the measure. */
  lemma Step4DropsIon(stem: string, letter: string)
    requires Readable(stem) && (letter == "s" || letter == "t")
    ensures Step4(stem + letter + "ion", 1) ==
            if Measure(stem + letter) > 1 then stem + letter else stem + letter + "ion"
  {
    IonText(stem, letter);
    var suffix := letter + "ion";
    var r: Shortening := Rule(suffix, letter);
    NoStep4List(stem + suffix, 1);
    IonApplies(stem, r);
    hide Split, AllDots, Measure, STEP4, S_T_ION;
  }

  lemma IonText(stem: string, letter: string)
    requires letter == "s" || letter == "t"
    ensures stem + letter + "ion" == stem + (letter + "ion") && Last(stem + (letter + "ion")) == 'n'
    ensures Rule(letter + "ion", letter) in S_T_ION
  {
    assert stem + letter + "ion" == stem + (letter + "ion");
    assert letter + "ion" == "sion" || letter + "ion" == "tion";
  }

  lemma IonApplies(stem: string, r: Shortening)
    requires Readable(stem) && r in S_T_ION
    ensures Split(stem + r.suffix, S_T_ION, 1) == Some(Cut(stem, r))
  {
    forall s | s in S_T_ION && |s.suffix| >= |r.suffix| && Behind(stem + r.suffix, s.suffix) ensures s == r {
      SumParts(stem, r.suffix);
      assert s.suffix == r.suffix;
    }
    hide Split, AllDots, S_T_ION;
    Applies(stem, S_T_ION, r);
  }

  lemma Step4Keeps(w: string)
    requires forall s :: Dropped4(s) ==> !Behind(w, s)
    requires !Behind(w, "sion") && !Behind(w, "tion")
    ensures Step4(w, 1) == w
  {
    hide Dropped4, STEP4, Split, Measure, Behind;
    forall r | r in STEP4 ensures !Behind(w, r.suffix) { Listed4(r); }
    NoneApplies(w, STEP4);
    NoneApplies(w, S_T_ION);
  }

  // ---------------------------------------------------------------- steps 1 and 5, letter by letter

  /** w without its last n letters */
  function Less(w: string, n: nat): (v: string)
    requires n <= |w|
  {
    w[..|w| - n]
  }

  lemma Splits(w: string, rules: seq<Shortening>, r: Shortening)
    requires AllDots(w) && r in rules && r.suffix != "" && Behind(w, r.suffix)
    requires forall s :: s in rules && |s.suffix| >= |r.suffix| && Behind(w, s.suffix) ==> s == r
    ensures Split(w, rules, 1) == Some(Cut(Less(w, |r.suffix|), r))
  {
    var stem := Less(w, |r.suffix|);
    assert w == stem + r.suffix;
    Applies(stem, rules, r);
  }

  /** Step 1a: -sses loses its es, -ies too, and any other single s goes. */
  lemma Step1aMeans(w: string)
    requires AllDots(w)
    ensures Step1a(w, 1) ==
            if Behind(w, "sses") || Behind(w, "ies") then Less(w, 2)
            else if |w| >= 3 && w[|w| - 1] == 's' && w[|w| - 2] != 's' then Less(w, 1)
            else w
  {
    if Behind(w, "sses") { SsesMeans(w); } else if Behind(w, "ies") { IesMeans(w); } else { NoneApplies(w, PLURALS); }
    hide Split, Behind;
  }

  lemma SsesMeans(w: string)
    requires AllDots(w) && Behind(w, "sses")
    ensures Split(w, PLURALS, 1) == Some(Cut(Less(w, 4), Rule("sses", "ss"))) && Less(w, 4) + "ss" == Less(w, 2)
  {
    assert w[|w| - 4..][1] == w[|w| - 3];
    assert !Behind(w, "ies") by { if Behind(w, "ies") { EndLetters(w, "ies"); } }
    Splits(w, PLURALS, Rule("sses", "ss"));
    hide Split;
  }

  lemma IesMeans(w: string)
    requires AllDots(w) && Behind(w, "ies") && !Behind(w, "sses")
    ensures Split(w, PLURALS, 1) == Some(Cut(Less(w, 3), Rule("ies", "i"))) && Less(w, 3) + "i" == Less(w, 2)
  {
    Splits(w, PLURALS, Rule("ies", "i"));
    hide Split;
    assert w == Less(w, 3) + "ies";
  }

  /** Step 1c: y behind a stem with a vowel becomes i. */
  lemma Step1cMeans(w: string)
    requires AllDots(w)
    ensures Step1c(w, 1) == if Behind(w, "y") && HasVowel(Less(w, 1)) then Less(w, 1) + "i" else w
  {
    OneMeans(w, Rule("y", "i"));
    hide Split, AllDots, HasVowel;
  }

  lemma OneMeans(w: string, r: Shortening)
    requires AllDots(w) && r.suffix != ""
    ensures Split(w, [r], 1) == if Behind(w, r.suffix) then Some(Cut(Less(w, |r.suffix|), r)) else None
  {
    if Behind(w, r.suffix) { Splits(w, [r], r); } else { NoneApplies(w, [r]); }
  }

  /** Step 5: a final e goes if the measure is above 1, or 1 without cvc before it; then one of two l. */
  lemma Step5aMeans(w: string)
    requires AllDots(w)
    ensures Step5a(w, 1) ==
            if Behind(w, "e") && (Measure(Less(w, 1)) > 1 || (Measure(Less(w, 1)) == 1 && !EndsCvc(Less(w, 1))))
            then Less(w, 1) else w
  {
    OneMeans(w, Rule("e", ""));
    hide Split, AllDots, Measure, EndsCvc;
  }

  lemma TwoLs(w: string)
    ensures EndsIn(w, "ll") <==> |w| >= 2 && w[|w| - 1] == w[|w| - 2] == 'l'
  {
    if |w| >= 2 { assert w[|w| - 2..] == [w[|w| - 2], w[|w| - 1]]; }
  }

  lemma Step5bMeans(w: string)
    ensures Step5b(w) ==
            if |w| >= 2 && w[|w| - 1] == w[|w| - 2] == 'l' && Measure(w) > 1 then Less(w, 1) else w
  {
    TwoLs(w);
    hide Measure, EndsIn;
  }

  /** Step 1b on -eed, -ed and -ing */
  lemma Step1bMeans(w: string)
    requires AllDots(w)
    ensures Step1b(w, 1) ==
            if Behind(w, "eed") then if Measure(Less(w, 3)) > 0 then Less(w, 1) else w
            else if Behind(w, "ed") && HasVowel(Less(w, 2)) then Tidy(Less(w, 2))
            else if Behind(w, "ing") && HasVowel(Less(w, 3)) then Tidy(Less(w, 3))
            else w
  {
    EedMeans(w);
    EdIngMeans(w);
    hide Split, AllDots, Measure, HasVowel, Tidy, Behind, Less, Rewrite;
  }

  lemma EdIngMeans(w: string)
    requires AllDots(w)
    ensures var cut := Split(w, ED_ING, 1);
            && (Behind(w, "ed") ==> cut.Some? && cut.value.stem == Less(w, 2) && !Behind(w, "ing"))
            && (Behind(w, "ing") ==> cut.Some? && cut.value.stem == Less(w, 3))
            && (cut.Some? ==> Behind(w, "ed") || Behind(w, "ing"))
  {
    if Behind(w, "ed") { EdMeans(w); } else if Behind(w, "ing") { IngMeans(w); } else { NoneApplies(w, ED_ING); }
    hide Split, AllDots, Less, EndsIn;
  }

  lemma EedMeans(w: string)
    requires AllDots(w)
    ensures Behind(w, "eed") <==> Split(w, EED, 1).Some?
    ensures Behind(w, "eed") ==> Step1b(w, 1) == if Measure(Less(w, 3)) > 0 then Less(w, 1) else w
  {
    OneMeans(w, Rule("eed", "ee"));
    if Behind(w, "eed") { EedText(w); }
    hide Split, AllDots, Measure, HasVowel, Tidy, Behind, Less;
  }

  lemma EedText(w: string)
    requires Behind(w, "eed")
    ensures Less(w, 3) + "ee" == Less(w, 1)
  {
    assert w == Less(w, 3) + "eed";
  }

  lemma EdMeans(w: string)
    requires AllDots(w) && Behind(w, "ed")
    ensures Split(w, ED_ING, 1) == Some(Cut(Less(w, 2), Rule("ed", ""))) && !Behind(w, "ing")
  {
    assert !Behind(w, "ing") by { assert w[|w| - 2..][1] == w[|w| - 1]; }
    Splits(w, ED_ING, Rule("ed", ""));
  }

  lemma IngMeans(w: string)
    requires AllDots(w) && Behind(w, "ing")
    ensures Split(w, ED_ING, 1) == Some(Cut(Less(w, 3), Rule("ing", "")))
  {
    Splits(w, ED_ING, Rule("ing", ""));
  }

  /** What is left gets its e back, */
  lemma TidyAddsE(stem: string)
    ensures Tidy(stem + "at") == stem + "ate" && Tidy(stem + "bl") == stem + "ble" && Tidy(stem + "iz") == stem + "ize"
  {
    hide Measure, EndsCvc, EndsDouble, AllDots;
    SumParts(stem, "at");
    SumParts(stem, "bl");
    SumParts(stem, "iz");
    assert stem + "at" + "e" == stem + "ate" && stem + "bl" + "e" == stem + "ble" && stem + "iz" + "e" == stem + "ize";
  }

  /** or loses one of two like letters, */
  lemma TidyDouble(stem: string, c: char)
    requires Dot(c)
    ensures Tidy(stem + [c, c]) == if c in "aeiouylsz" then stem + [c, c] else stem + [c]
  {
    var w := stem + [c, c];
    NoneOfThree(stem, c, c);
    assert !EndsCvc(w);
    hide Measure, EndsCvc, AllDots, EndsIn;
    assert w[..|w| - 1] == stem + [c];
  }

  lemma NoneOfThree(stem: string, b: char, c: char)
    requires (b, c) != ('a', 't') && (b, c) != ('b', 'l') && (b, c) != ('i', 'z')
    ensures var w := stem + [b, c]; !EndsIn(w, "at") && !EndsIn(w, "bl") && !EndsIn(w, "iz")
  {
    SumParts(stem, [b, c]);
  }

  /** or gets an e if it is short. */
  lemma TidyOther(stem: string, b: char, c: char)
    requires b != c && (b, c) != ('a', 't') && (b, c) != ('b', 'l') && (b, c) != ('i', 'z')
    ensures var w := stem + [b, c];
            Tidy(w) == if Measure(w) == 1 && EndsCvc(w) then w + "e" else w
  {
    NoneOfThree(stem, b, c);
    hide Measure, EndsCvc, EndsIn;
  }
}
