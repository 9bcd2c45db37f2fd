/**
 Porter's algorithm as its author gives it, his later rules (bli, logi, words of one or two letters)
 included: what is in front of a suffix may be empty.  Four words the stemmer's patterns, which want a
 letter there, treat otherwise.
*/
module PorterRules {
  import opened Lists
  import opened PorterMeasure
  import opened PorterStemmer

  /** The algorithm, on words of three letters or more. */
  function Porter(w: string): string {
    if |w| < 3 then w else Steps(w, 0)
  }

  function Last(w: string): char
    requires w != ""
  {
    w[|w| - 1]
  }

  // ---------------------------------------------------------------- short stems

  /** A turning point takes two letters. */
  lemma {:induction false} FewTurnings(w: string, n: nat)
    ensures 2 * Turnings(w, n) <= n
  {
    if n >= 2 {
      FewTurnings(w, n - 2);
      assert Turnings(w, n) == Turnings(w, n - 1) + if Turns(w, n - 1) then 1 else 0;
      assert Turnings(w, n - 1) == Turnings(w, n - 2) + if Turns(w, n - 2) then 1 else 0;
    }
  }

  lemma ShortMeasure(w: string)
    ensures 2 * Measure(w) <= |w|
  {
    FewTurnings(w, |w|);
  }

  // ---------------------------------------------------------------- an empty stem

  /** Only a word that is nothing but a suffix has an empty stem. */
  lemma EmptyStem(w: string, rules: seq<Shortening>)
    ensures w == "" ==> Split(w, rules, 0).None? && Split(w, rules, 1).None?
    ensures w != "" ==> Split(w, rules, 0) == match Lookup(rules, w)
                                              case Some(r) => Some(Cut("", r))
                                              case None => Split(w, rules, 1)
  {
    if w != "" { assert w[0..] == w && w[..0] == ""; }
  }

  /** No suffix leaves so short a stem. */
  lemma NoStem(w: string, rules: seq<Shortening>, k: nat, n: nat)
    requires forall r :: r in rules ==> |r.suffix| >= n
    requires |w| < n + k
    ensures Split(w, rules, k).None?
  {
  }

  /** Rewriting does nothing where the empty stem fails the condition and no other stem passes it. */
  lemma SameRewriting(w: string, rules: seq<Shortening>, condition: string -> bool)
    requires !condition("")
    requires Lookup(rules, w).Some? && Split(w, rules, 1).Some? ==> !condition(Split(w, rules, 1).value.stem)
    ensures Rewrite(w, rules, 0, condition) == Rewrite(w, rules, 1, condition)
  {
    EmptyStem(w, rules);
    hide Split, Lookup;
  }

  lemma NoMeasure()
    ensures Measure("") == 0 && !HasVowel("")
  {
  }

  lemma OneRule(r: Shortening, w: string)
    requires r.suffix != ""
    ensures Lookup([r], w).Some? <==> w == r.suffix
    ensures Lookup([r], w).Some? ==> Split(w, [r], 1).None?
  {
    assert [r][1..] == [];
    if w == r.suffix { NoStem(w, [r], 1, |w|); }
  }

  lemma TwoRules(r: Shortening, r': Shortening, w: string)
    ensures Lookup([r, r'], w).Some? <==> w == r.suffix || w == r'.suffix
  {
    assert [r, r'][1..] == [r'] && [r'][1..] == [];
    assert Lookup([r'], w).Some? <==> w == r'.suffix;
  }

  // ---------------------------------------------------------------- steps 1 to 5, with and without

  lemma Same1a(w: string)
    requires w != "ies" && w != "sses"
    ensures Step1a(w, 0) == Step1a(w, 1)
  {
    EmptyStem(w, PLURALS);
    TwoRules(Rule("sses", "ss"), Rule("ies", "i"), w);
    hide Split, Lookup, SinglePlural;
  }

  lemma Same1b(w: string)
    requires w != "eed"
    ensures Step1b(w, 0) == Step1b(w, 1)
  {
    EmptyStem(w, EED);
    EmptyStem(w, ED_ING);
    OneRule(Rule("eed", "ee"), w);
    TwoRules(Rule("ed", ""), Rule("ing", ""), w);
    NoMeasure();
    if w == "ed" || w == "ing" { EdIngAlone(w); }
    hide Split, Lookup, HasVowel, Tidy, Measure;
  }

  lemma EdIngAlone(w: string)
    requires w == "ed" || w == "ing"
    ensures Split(w, ED_ING, 1).None?
  {
  }

  lemma Same1c(w: string)
    ensures Step1c(w, 0) == Step1c(w, 1)
  {
    NoMeasure();
    OneRule(Rule("y", "i"), w);
    hide Split, Lookup, HasVowel, Measure;
    SameRewriting(w, FINAL_Y, stem => HasVowel(stem));
  }

  lemma Same3(w: string)
    ensures Step3(w, 0) == Step3(w, 1)
  {
    NoMeasure();
    if Lookup(STEP3, w).Some? { Step3Alone(w); }
    hide Split, Lookup, HasVowel, Measure;
    SameRewriting(w, STEP3, stem => Measure(stem) > 0);
  }

  lemma Same4(w: string)
    ensures Step4(w, 0) == Step4(w, 1)
  {
    if |w| <= 5 {
      Step4OfShort(w, 1);
      Step4OfShort(w, 0);
      hide Step4;
    } else {
      EmptyStem(w, STEP4);
      Step4Long(w);
      EmptyStem(w, S_T_ION);
      TwoRules(Rule("sion", "s"), Rule("tion", "t"), w);
      hide Split, Lookup, Measure, STEP4;
    }
  }

  lemma Same5a(w: string)
    ensures Step5a(w, 0) == Step5a(w, 1)
  {
    NoMeasure();
    OneRule(Rule("e", ""), w);
    hide Split, Lookup, HasVowel, Measure;
    SameRewriting(w, FINAL_E, stem => Measure(stem) > 1 || (Measure(stem) == 1 && !EndsCvc(stem)));
  }

  // ---------------------------------------------------------------- the lists

  /** No suffix of step 4 is longer than five letters, none shorter than two. */
  lemma Step4Suffix(r: Shortening)
    requires r in STEP4
    ensures 2 <= |r.suffix| <= 5 && Last(r.suffix) != 'n'
  {
    assert r in STEP4_A || r in STEP4_B;
    if r in STEP4_A { InStep4A(r); } else { InStep4B(r); }
  }

  lemma InStep4A(r: Shortening)
    requires r in STEP4_A
    ensures 2 <= |r.suffix| <= 5 && Last(r.suffix) != 'n'
  {
  }

  lemma InStep4B(r: Shortening)
    requires r in STEP4_B
    ensures 2 <= |r.suffix| <= 5 && Last(r.suffix) != 'n'
  {
  }

  lemma Step4Long(w: string)
    requires |w| > 5
    ensures Lookup(STEP4, w).None?
  {
    hide STEP4;
    if Lookup(STEP4, w).Some? {
      LookupFinds(STEP4, w);
      Step4Suffix(Lookup(STEP4, w).value);
    }
  }

  /** A stem of three letters has no measure above 1. */
  lemma Step4OfShort(w: string, least: nat)
    requires |w| <= 5
    ensures Step4(w, least) == w
  {
    var cut, cut' := Split(w, STEP4, least), Split(w, S_T_ION, least);
    if cut.Some? {
      Step4Suffix(cut.value.rule);
      assert |w| == |cut.value.stem| + |cut.value.rule.suffix|;
      ShortMeasure(cut.value.stem);
    } else if cut'.Some? {
      assert |cut'.value.rule.suffix| == 4 && |cut'.value.rule.replacement| == 1;
      ShortMeasure(cut'.value.stem + cut'.value.rule.replacement);
    }
    hide Measure;
  }

  /** What tells the suffixes of step 3 apart: the only one of three letters ends otherwise than those of five. */
  predicate Step3Suffix(s: string) {
    3 <= |s| <= 5 && Last(s) != 'n' && (|s| == 5 ==> Last(s) != 'l') && (|s| == 3 ==> Last(s) == 'l') &&
    (|s| == 4 ==> Last(s) != 'e')
  }

  lemma Step3Suffixes(r: Shortening)
    requires r in STEP3
    ensures Step3Suffix(r.suffix)
  {
  }

  lemma Step3Alone(w: string)
    requires Lookup(STEP3, w).Some?
    ensures var cut := Split(w, STEP3, 1); cut.Some? ==> Measure(cut.value.stem) == 0
  {
    LookupFinds(STEP3, w);
    Step3Suffixes(Lookup(STEP3, w).value);
    var cut := Split(w, STEP3, 1);
    if cut.Some? {
      Step3Suffixes(cut.value.rule);
      ShortMeasure(cut.value.stem);
      assert w[|w| - 1] == cut.value.rule.suffix[|cut.value.rule.suffix| - 1];
    }
  }

  /** What tells those of step 2 apart, by length: no suffix ends in one that is two letters shorter or more. */
  predicate Step2Suffix(s: string) {
    && 3 <= |s| <= 7
    && (|s| == 7 ==> s == "ization" || s[6] == 'l' || s[6] == 's')
    && (|s| == 6 ==> (s[4] == 'a' && s[5] == 'l') || (s[4] == 't' && s[5] == 'i'))
    && (|s| == 5 ==> s[2] != 'b' && s[2] != 'e' && s[4] != 'l' && s[4] != 's')
    && (|s| == 4 ==> s[3] != 'l' && s[3] != 's' && s[2] != 't')
    && (|s| == 3 ==> (s[0] == 'b' || s[0] == 'e') && s[1] == 'l' && s[2] == 'i')
  }

  lemma Step2Suffixes(r: Shortening)
    requires r in STEP2
    ensures Step2Suffix(r.suffix)
  {
    assert r in STEP2_A || r in STEP2_B || r in STEP2_C;
    if r in STEP2_A { InStep2A(r); } else if r in STEP2_B { InStep2B(r); } else { InStep2C(r); }
  }

  lemma InStep2A(r: Shortening)
    requires r in STEP2_A
    ensures Step2Suffix(r.suffix)
  {
  }

  lemma InStep2B(r: Shortening)
    requires r in STEP2_B
    ensures Step2Suffix(r.suffix)
  {
  }

  lemma InStep2C(r: Shortening)
    requires r in STEP2_C
    ensures Step2Suffix(r.suffix)
  {
  }

  lemma EndsInNone(w: string, s: string)
    requires Step2Suffix(w) && Step2Suffix(s) && |w| >= |s| + 2 && w[|w| - |s|..] == s
    ensures w == "ization"
  {
    var n := |w| - |s|;
    assert forall i :: 0 <= i < |s| ==> w[n + i] == s[i];
    assert w[n] == s[0] && w[n + 2] == s[2] && w[|w| - 1] == s[|s| - 1];
  }

  lemma Step2Alone(w: string)
    requires Lookup(STEP2, w).Some? && w != "ization"
    ensures var cut := Split(w, STEP2, 1); cut.Some? ==> Measure(cut.value.stem) == 0
  {
    hide STEP2, Step2Suffix;
    LookupFinds(STEP2, w);
    Step2Suffixes(Lookup(STEP2, w).value);
    var cut := Split(w, STEP2, 1);
    hide Split;
    if cut.Some? {
      Step2Suffixes(cut.value.rule);
      ShortMeasure(cut.value.stem);
      hide Measure;
      if |cut.value.stem| >= 2 { EndsInNone(w, cut.value.rule.suffix); }
    }
  }

  lemma Same2(w: string)
    requires w != "ization"
    ensures Step2(w, 0) == Step2(w, 1)
  {
    NoMeasure();
    if Lookup(STEP2, w).Some? { Step2Alone(w); }
    hide Split, Lookup, HasVowel, Measure;
    SameRewriting(w, STEP2, stem => Measure(stem) > 0);
  }

  // ---------------------------------------------------------------- ization

  /** No rule whose suffix ends in another letter applies. */
  lemma OtherEnding(w: string, rules: seq<Shortening>, k: nat)
    requires w != "" && forall r :: r in rules ==> r.suffix != "" && Last(r.suffix) != Last(w)
    ensures Split(w, rules, k).None?
  {
    var cut := Split(w, rules, k);
    if cut.Some? { LastOfSum(cut.value.stem, cut.value.rule.suffix); }
  }

  lemma LastOfSum(stem: string, suffix: string)
    requires suffix != ""
    ensures Last(stem + suffix) == Last(suffix)
  {
  }

  lemma MeasureOfIz()
    ensures Measure("iz") >= 1 && Measure("izat") >= 2
  {
    var v, w := "iz", "izat";
    assert Vowel(v, 0) && !Vowel(v, 1) && Turns(v, 1);
    MeasureCounts(v, 1, 1);
    assert Vowel(w, 0) && !Vowel(w, 1) && Vowel(w, 2) && !Vowel(w, 3) && Turns(w, 1) && Turns(w, 3);
    MeasureCounts(w, 1, 3);
  }

  lemma AtionRule(r: Shortening)
    requires r in STEP2 && r.suffix == "ation"
    ensures r == Rule("ation", "ate")
  {
    assert r in STEP2_A || r in STEP2_B || r in STEP2_C;
  }

  lemma IzText(w: string)
    requires w == "ization"
    ensures w == "iz" + "ation" && w[2..] == "ation" && w[..2] == "iz"
    ensures "iz" + "ate" == "izate"
    ensures AllDots(w[..2]) && EndsIn(w, "ation")
  {
  }

  lemma SplitsAtion(w: string)
    requires w == "ization"
    ensures Split(w, STEP2, 1) == Some(Cut("iz", Rule("ation", "ate")))
  {
    var r: Shortening := Rule("ation", "ate");
    assert STEP2_B[4] == r && r in STEP2_B && r in STEP2;
    IzText(w);
    hide STEP2, STEP2_B, Split, AllDots, EndsIn;
    SplitIsLongest(w, STEP2, 1, r);
    var cut := Split(w, STEP2, 1).value;
    Step2Suffixes(cut.rule);
    assert cut.rule.suffix == w[|cut.stem|..] && cut.stem == w[..|cut.stem|];
    AtionRule(cut.rule);
  }

  /** The source reads iz + ation where Porter's rules find ization. */
  lemma IzationStep2(w: string)
    requires w == "ization"
    ensures Step2(w, 1) == "izate" && Step2(w, 0) == w
  {
    SplitsAtion(w);
    MeasureOfIz();
    IzText(w);
    FindsIzation(w);
    NoMeasure();
    hide Split, Measure, STEP2;
  }

  lemma FindsIzation(w: string)
    requires w == "ization"
    ensures Split(w, STEP2, 0).Some? && Split(w, STEP2, 0).value.stem == ""
  {
    EmptyStem(w, STEP2);
    assert STEP2_B[3] == Rule("ization", "ize") && Rule("ization", "ize") in STEP2_B;
    hide Split, Lookup;
    LookupMisses(STEP2, Rule("ization", "ize"));
  }

  lemma NoStep3(w: string, least: nat)
    requires w != "" && (Last(w) == 'n' || (|w| == 5 && least >= 1 && Last(w) == 'e'))
    ensures Step3(w, least) == w
  {
    hide STEP3;
    var cut := Split(w, STEP3, least);
    if cut.Some? {
      Step3Suffixes(cut.value.rule);
      LastOfSum(cut.value.stem, cut.value.rule.suffix);
    }
    hide Split, Measure;
  }

  /** The final e goes behind a stem of measure 2. */
  lemma DropsE(stem: string)
    requires stem != "" && AllDots(stem) && Measure(stem) >= 2
    ensures Step5a(stem + "e", 1) == stem
  {
    var w, n := stem + "e", |stem|;
    assert w[n..] == "e" && w[..n] == stem;
    SplitIsLongest(w, FINAL_E, 1, Rule("e", ""));
    var cut := Split(w, FINAL_E, 1).value;
    hide Measure, Split;
    assert cut.rule == Rule("e", "") && |cut.stem| == n;
    assert cut.stem == w[..n] && stem + "" == stem;
  }

  lemma KeepsOtherEnd(w: string, least: nat)
    requires w != "" && Last(w) != 'e'
    ensures Step5a(w, least) == w
  {
    OtherEnding(w, FINAL_E, least);
    hide Split, Measure;
  }

  lemma IzateOn(stem: string)
    requires stem == "izat"
    ensures Step3(stem + "e", 1) == stem + "e" && Step4(stem + "e", 1) == stem + "e" && Step5a(stem + "e", 1) == stem
  {
    hide Step3, Step4, Step5a, Measure;
    MeasureOfIz();
    NoStep3(stem + "e", 1);
    Step4OfShort(stem + "e", 1);
    DropsE(stem);
  }

  lemma NoStep4List(w: string, least: nat)
    requires w != "" && Last(w) == 'n'
    ensures Split(w, STEP4, least).None?
  {
    forall r | r in STEP4 ensures r.suffix != "" && Last(r.suffix) != Last(w) { Step4Suffix(r); }
    hide STEP4;
    OtherEnding(w, STEP4, least);
  }

  lemma SplitsIon(w: string, least: nat)
    requires |w| >= 4 + least && AllDots(w[..|w| - 4]) && w[|w| - 4..] == "tion"
    ensures Split(w, S_T_ION, least) == Some(Cut(w[..|w| - 4], Rule("tion", "t")))
  {
    SplitIsLongest(w, S_T_ION, least, Rule("tion", "t"));
    var cut := Split(w, S_T_ION, least).value;
    hide Split;
    assert |cut.rule.suffix| == 4 && |cut.stem| == |w| - 4;
    assert cut.rule.suffix[0] == w[|w| - 4] == 't';
    assert cut.rule == Rule("tion", "t");
  }

  /** -ion goes if what is left with its t has measure 2. */
  lemma DropsIon(w: string, least: nat)
    requires |w| >= 4 + least && AllDots(w[..|w| - 4]) && w[|w| - 4..] == "tion"
    requires Measure(w[..|w| - 4] + "t") >= 2
    ensures Step4(w, least) == w[..|w| - 4] + "t"
  {
    assert Last(w) == w[|w| - 4..][3];
    NoStep4List(w, least);
    SplitsIon(w, least);
    hide Split, Measure, STEP4, S_T_ION;
  }

  lemma KeepsOneL(w: string)
    requires w != "" && Last(w) != 'l'
    ensures Step5b(w) == w
  {
    hide Measure;
  }

  lemma FromTo(w: string, least: nat, w2: string, w4: string, w5: string)
    requires Step2(w, least) == w2 == Step3(w2, least) && Step4(w2, least) == w4
    requires Step5a(w4, least) == w5 == Step5b(w5)
    ensures StepsFrom2(w, least) == w5
  {
    hide Step2, Step3, Step4, Step5a, Step5b;
  }

  lemma IzatText(w: string, stem: string)
    requires w == "ization" && stem == w[..3] + "t"
    ensures stem == "izat" && w[3..] == "tion" && stem + "e" == "izate"
  {
    hide *;
  }

  /** Both come to izat in the end. */
  lemma IzationAlike(w: string)
    requires w == "ization"
    ensures StepsFrom2(w, 1) == StepsFrom2(w, 0)
  {
    hide Step2, Step3, Step4, Step5a, Step5b, Measure, EndsIn, StepsFrom2;
    IzationStep2(w);
    NoStep3(w, 0);
    var stem := w[..3] + "t";
    IzatText(w, stem);
    MeasureOfIz();
    KeepsOtherEnd(stem, 0);
    KeepsOneL(stem);
    IzateOn(stem);
    DropsIon(w, 0);
    FromTo(w, 0, w, stem, stem);
    FromTo(w, 1, stem + "e", stem + "e", stem);
  }

  // ---------------------------------------------------------------- the four words

  lemma ShortRewriting(w: string, rules: seq<Shortening>, least: nat)
    requires |w| <= 3 && forall r :: r in rules ==> |r.suffix| >= 3
    ensures Rewrite(w, rules, least, stem => Measure(stem) > 0) == w
  {
    NoMeasure();
    hide Split, Measure;
    var cut := Split(w, rules, least);
    if cut.Some? { assert cut.value.stem == ""; }
  }

  lemma ShortKeepsE(w: string, least: nat)
    requires w != "" && Last(w) == 'e' && Measure(w[..|w| - 1]) == 0
    ensures Step5a(w, least) == w
  {
    var cut := Split(w, FINAL_E, least);
    if cut.Some? { assert cut.value.stem == w[..|w| - 1]; }
    hide Measure, Split;
  }

  /** Three letters or fewer stay what they are unless an ending of step 1, an e or ll is there. */
  lemma ShortStays(w: string, least: nat)
    requires 1 <= |w| <= 3 && Last(w) != 'l' && (Last(w) == 'e' ==> Measure(w[..|w| - 1]) == 0)
    ensures StepsFrom2(w, least) == w
  {
    forall r | r in STEP2 ensures |r.suffix| >= 3 { Step2Suffixes(r); }
    forall r | r in STEP3 ensures |r.suffix| >= 3 { Step3Suffixes(r); }
    hide STEP2, STEP3;
    ShortRewriting(w, STEP2, least);
    ShortRewriting(w, STEP3, least);
    Step4OfShort(w, least);
    if Last(w) == 'e' { ShortKeepsE(w, least); } else { KeepsOtherEnd(w, least); }
    assert Step2(w, least) == Step3(w, least) == w;
    hide Rewrite, Step2, Step3, Step4, Step5a;
  }

  /** Nor does step 1b or 1c do anything. */
  lemma ShortStaysAll(w: string, least: nat)
    requires 1 <= |w| <= 3 && Last(w) != 'l' && (Last(w) == 'e' ==> Measure(w[..|w| - 1]) == 0)
    requires Last(w) != 'd' && Last(w) != 'g' && Last(w) != 'y'
    ensures StepsFrom2(Step1c(Step1b(w, least), least), least) == w
  {
    OtherEnding(w, EED, least);
    OtherEnding(w, ED_ING, least);
    OtherEnding(w, FINAL_Y, least);
    ShortStays(w, least);
    hide Split, Measure, StepsFrom2;
  }

  /** ies: the source drops the s, the rules the es. */
  lemma IesDiffers()
    ensures Steps("ies", 1) == "ie" && Steps("ies", 0) == "i"
  {
    IesStep("ies");
    ShortMeasure("i");
    assert "ie"[..1] == "i";
    hide Step1a, Measure;
    ShortStaysAll("ie", 1);
    ShortStaysAll("i", 0);
  }

  lemma IesStep(w: string)
    requires w == "ies"
    ensures Step1a(w, 1) == "ie" && Step1a(w, 0) == "i"
  {
    NoStem(w, PLURALS, 1, 3);
    EmptyStem(w, PLURALS);
    assert Lookup(PLURALS, w) == Some(Rule("ies", "i"));
    hide Split, Lookup;
    assert w[..2] == "ie" && "" + "i" == "i";
  }

  /** sses likewise. */
  lemma SsesDiffers()
    ensures Steps("sses", 1) == "sse" && Steps("sses", 0) == "ss"
  {
    SsesStep("sses");
    MeasureOfSs();
    assert "sse"[..2] == "ss";
    hide Step1a, Measure;
    ShortStaysAll("sse", 1);
    ShortStaysAll("ss", 0);
  }

  lemma MeasureOfSs()
    ensures Measure("ss") == 0
  {
    assert !Vowel("ss", 0);
    TurningsGrow("ss", 0, 2);
  }

  lemma SsesStep(w: string)
    requires w == "sses"
    ensures Step1a(w, 1) == "sse" && Step1a(w, 0) == "ss"
  {
    EmptyStem(w, PLURALS);
    SsesAlone(w);
    assert Lookup(PLURALS, w) == Some(Rule("sses", "ss"));
    hide Split, Lookup;
    assert w[..3] == "sse" && "" + "ss" == "ss";
  }

  lemma SsesAlone(w: string)
    requires w == "sses"
    ensures Split(w, PLURALS, 1).None?
  {
    NoStem(w, PLURALS, 2, 3);
    TwoRules(Rule("sses", "ss"), Rule("ies", "i"), w[1..]);
    assert w[1..][0] == 's';
  }

  function Steps1bc(w: string, least: nat): string {
    Step1c(Step1b(w, least), least)
  }

  /** eed: the source takes it for e + ed. */
  lemma EedDiffers(w: string)
    requires w == "eed"
    ensures StepsFrom2(Steps1bc(w, 1), 1) == "e" && StepsFrom2(Steps1bc(w, 0), 0) == w
  {
    EedSource(w);
    EedRules(w);
    hide Steps1bc;
    NoMeasure();
    assert "e"[..0] == "";
    ShortStays("e", 1);
    ShortStays(w, 0);
  }

  lemma EedRules(w: string)
    requires w == "eed"
    ensures Steps1bc(w, 0) == w
  {
    EmptyStem(w, EED);
    OneRule(Rule("eed", "ee"), w);
    NoMeasure();
    OtherEnding(w, FINAL_Y, 0);
    hide Lookup, Measure, HasVowel;
    assert Step1b(w, 0) == w;
  }

  lemma EedSource(w: string)
    requires w == "eed"
    ensures Steps1bc(w, 1) == "e"
  {
    NoStem(w, EED, 1, 3);
    EedSplits(w);
    assert Vowel("e", 0) && HasVowel("e");
    ShortMeasure("e");
    OtherEnding("e", FINAL_Y, 1);
    hide Split, Measure, HasVowel;
    assert Tidy("e") == "e";
  }

  lemma EedSplits(w: string)
    requires w == "eed"
    ensures Split(w, ED_ING, 1) == Some(Cut("e", Rule("ed", "")))
  {
    assert w[1..] == "ed" && w[..1] == "e";
    SplitIsLongest(w, ED_ING, 1, Rule("ed", ""));
    var cut := Split(w, ED_ING, 1).value;
    hide Split;
    assert |cut.rule.suffix| == 2 && cut.rule == Rule("ed", "") && cut.stem == w[..1];
  }

  // ---------------------------------------------------------------- where they differ

  /** The words the patterns, wanting a letter in front of a suffix, treat otherwise than the rules. */
  const MISREAD: set<string> := {"ies", "sses", "eed", "eeds"}

  /** Only these two words come out of step 1a as eed. */
  lemma EedFirst(w: string)
    requires |w| >= 3 && AllDots(w)
    ensures Step1a(w, 1) == "eed" <==> w == "eed" || w == "eeds"
  {
    if w == "eed" { OtherEnding(w, PLURALS, 1); }
    if w == "eeds" { EedsStep(w); }
    var cut := Split(w, PLURALS, 1);
    if cut.Some? { LastOfSum(cut.value.stem, cut.value.rule.replacement); }
    if SinglePlural(w) && DropLast(w) == "eed" { assert w == DropLast(w) + "s"; }
    hide Split;
  }

  lemma EedsStep(w: string)
    requires w == "eeds"
    ensures Split(w, PLURALS, 1).None? && Step1a(w, 1) == "eed"
  {
    assert w[1..] == "eds" && w[..3] == "eed";
    EedsAlone(w);
    hide Split;
  }

  lemma EedsAlone(w: string)
    requires w == "eeds"
    ensures Split(w, PLURALS, 1).None?
  {
    assert w[1..] == "eds";
  }

  lemma SameFrom2(w: string)
    ensures StepsFrom2(w, 0) == StepsFrom2(w, 1)
  {
    if w == "ization" { IzationAlike(w); } else {
      Same2(w);
      Same3(Step2(w, 1));
      Same4(Step3(Step2(w, 1), 1));
      Same5a(Step4(Step3(Step2(w, 1), 1), 1));
      hide Step2, Step3, Step4, Step5a, Step5b;
    }
  }

  lemma OtherSteps(w: string)
    requires |w| >= 3 && AllDots(w) && w !in MISREAD
    ensures Steps(w, 0) == Steps(w, 1)
  {
    Same1a(w);
    EedFirst(w);
    hide Step1a, Step1b, Step1c, StepsFrom2;
    var a := Step1a(w, 1);
    Same1b(a);
    Same1c(Step1b(a, 1));
    SameFrom2(StepsTo2(w, 1));
  }

  lemma EedSteps(w: string)
    requires w == "eed" || w == "eeds"
    ensures Steps(w, 0) != Steps(w, 1)
  {
    EedFirst(w);
    Same1a(w);
    hide Step1a, Step1b, Step1c, StepsFrom2;
    EedDiffers("eed");
  }

  /** On words of ordinary letters the source's stem is Porter's, except of these four. */
  lemma StemIsPorter(w: string)
    requires AllDots(w)
    ensures Stem(w) == Porter(w) <==> w !in MISREAD
  {
    hide Steps, AllDots;
    if w == "ies" { IesDiffers(); }
    else if w == "sses" { SsesDiffers(); }
    else if w == "eed" || w == "eeds" { EedSteps(w); }
    else if |w| >= 3 { OtherSteps(w); }
  }
}
