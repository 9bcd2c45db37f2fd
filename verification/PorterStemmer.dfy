/**
 stemWord, step by step as the source rewrites w with its patterns, against Porter's rules with
 their conditions on the measure.  A leading y is turned into Y for the patterns, which take every
 y behind a consonant for a vowel; the rules need no such care, and words that differ in nothing
 but that letter go through them alike.
*/
module PorterStemmer {
  import opened Lists
  import opened PorterMeasure

  /** A suffix and what replaces it. */
  datatype Rule = Rule(suffix: string, replacement: string)

  /** All of the stemmer's rules put something no longer in place of the suffix. */
  type Shortening = r: Rule | |r.replacement| <= |r.suffix| witness Rule("", "")

  const STEP2_A: seq<Shortening> := [
    Rule("ational", "ate"), Rule("tional", "tion"), Rule("enci", "ence"), Rule("anci", "ance"), Rule("izer", "ize"),
    Rule("bli", "ble"), Rule("alli", "al")]
  const STEP2_B: seq<Shortening> := [
    Rule("entli", "ent"), Rule("eli", "e"), Rule("ousli", "ous"), Rule("ization", "ize"), Rule("ation", "ate"),
    Rule("ator", "ate"), Rule("alism", "al")]
  const STEP2_C: seq<Shortening> := [
    Rule("iveness", "ive"), Rule("fulness", "ful"), Rule("ousness", "ous"), Rule("aliti", "al"), Rule("iviti", "ive"),
    Rule("biliti", "ble"), Rule("logi", "log")]
  const STEP2 := STEP2_A + STEP2_B + STEP2_C

  const STEP3: seq<Shortening> := [
    Rule("icate", "ic"), Rule("ative", ""), Rule("alize", "al"), Rule("iciti", "ic"), Rule("ical", "ic"),
    Rule("ful", ""), Rule("ness", "")]

  const STEP4_A: seq<Shortening> := [
    Rule("al", ""), Rule("ance", ""), Rule("ence", ""), Rule("er", ""), Rule("ic", ""), Rule("able", ""),
    Rule("ible", ""), Rule("ant", ""), Rule("ement", "")]
  const STEP4_B: seq<Shortening> := [
    Rule("ment", ""), Rule("ent", ""), Rule("ou", ""), Rule("ism", ""), Rule("ate", ""), Rule("iti", ""),
    Rule("ous", ""), Rule("ive", ""), Rule("ize", "")]
  const STEP4 := STEP4_A + STEP4_B

  const PLURALS: seq<Shortening> := [Rule("sses", "ss"), Rule("ies", "i")]
  const EED: seq<Shortening> := [Rule("eed", "ee")]
  const ED_ING: seq<Shortening> := [Rule("ed", ""), Rule("ing", "")]
  const FINAL_Y: seq<Shortening> := [Rule("y", "i")]
  const S_T_ION: seq<Shortening> := [Rule("sion", "s"), Rule("tion", "t")]
  const FINAL_E: seq<Shortening> := [Rule("e", "")]

  // ---------------------------------------------------------------- ^(.+?)(suffixes)$

  /** What the dot of a pattern stands for. */
  predicate Dot(c: char) {
    c != '\n' && c != '\r' && c != '\U{2028}' && c != '\U{2029}'
  }

  predicate AllDots(s: string) {
    forall i :: 0 <= i < |s| ==> Dot(s[i])
  }

  function Lookup(rules: seq<Shortening>, suffix: string): Option<Shortening> {
    if rules == [] then None
    else if rules[0].suffix == suffix then Some(rules[0])
    else Lookup(rules[1..], suffix)
  }

  datatype Cut = Cut(stem: string, rule: Shortening)

  /** The shortest stem of at least k letters that leaves a listed suffix. */
  function Split(w: string, rules: seq<Shortening>, k: nat): (cut: Option<Cut>)
    ensures cut.Some? ==>
              w == cut.value.stem + cut.value.rule.suffix && |cut.value.stem| >= k && cut.value.rule in rules
    decreases |w| - k
  {
    if k >= |w| || !AllDots(w[..k]) then None
    else if Lookup(rules, w[k..]).Some? then
      LookupFinds(rules, w[k..]);
      assert w == w[..k] + w[k..];
      Some(Cut(w[..k], Lookup(rules, w[k..]).value))
    else Split(w, rules, k + 1)
  }

  lemma {:induction false} LookupFinds(rules: seq<Shortening>, suffix: string)
    requires Lookup(rules, suffix).Some?
    ensures Lookup(rules, suffix).value in rules && Lookup(rules, suffix).value.suffix == suffix
  {
    if rules[0].suffix != suffix { LookupFinds(rules[1..], suffix); }
  }

  predicate EndsIn(w: string, suffix: string) {
    |suffix| <= |w| && w[|w| - |suffix|..] == suffix
  }

  lemma {:induction false} LookupMisses(rules: seq<Shortening>, r: Shortening)
    requires r in rules
    ensures Lookup(rules, r.suffix).Some?
  {
    if rules[0].suffix != r.suffix { LookupMisses(rules[1..], r); }
  }

  /** A lazy stem leaves the longest listed suffix: the one Porter's algorithm is to apply. */
  lemma {:induction false} SplitIsLongest(w: string, rules: seq<Shortening>, k: nat, r: Shortening)
    requires r in rules && r.suffix != "" && EndsIn(w, r.suffix) && k <= |w| - |r.suffix|
    requires AllDots(w[..|w| - |r.suffix|])
    ensures Split(w, rules, k).Some? && |Split(w, rules, k).value.rule.suffix| >= |r.suffix|
    decreases |w| - k
  {
    var n := |w| - |r.suffix|;
    assert AllDots(w[..k]) by { assert w[..k] == w[..n][..k]; }
    if k == n { LookupMisses(rules, r); }
    else if Lookup(rules, w[k..]).None? { SplitIsLongest(w, rules, k + 1, r); }
    else { LookupFinds(rules, w[k..]); }
  }

  /** w without its last letter. */
  function DropLast(w: string): string {
    if w != "" && Dot(w[|w| - 1]) then w[..|w| - 1] else w
  }

  /** A single s at the end, behind a stem and another letter than s. */
  predicate SinglePlural(w: string) {
    |w| >= 3 && w[|w| - 1] == 's' && w[|w| - 2] != 's' && AllDots(w[..|w| - 2])
  }

  /** /([^aeiouylsz])\1$/ */
  predicate EndsDouble(w: string) {
    |w| >= 2 && w[|w| - 1] == w[|w| - 2] && InClass(NotAeiouy, w[|w| - 1]) && w[|w| - 1] !in "lsz"
  }

  // ---------------------------------------------------------------- Porter's rules

  /** The rule for the suffix found, if its stem, which has least letters or more, meets the condition. */
  function Rewrite(w: string, rules: seq<Shortening>, least: nat, condition: string -> bool): string {
    match Split(w, rules, least)
    case Some(Cut(stem, rule)) => if condition(stem) then stem + rule.replacement else w
    case None => w
  }

  function Step1a(w: string, least: nat): string {
    if Split(w, PLURALS, least).Some? then Rewrite(w, PLURALS, least, _ => true)
    else if SinglePlural(w) then DropLast(w)
    else w
  }

  function Tidy(w: string): string {
    if EndsIn(w, "at") || EndsIn(w, "bl") || EndsIn(w, "iz") then w + "e"
    else if EndsDouble(w) then DropLast(w)
    else if Measure(w) == 1 && EndsCvc(w) then w + "e"
    else w
  }

  function Step1b(w: string, least: nat): string {
    if Split(w, EED, least).Some? then Rewrite(w, EED, least, stem => Measure(stem) > 0)
    else match Split(w, ED_ING, least)
      case Some(Cut(stem, _)) => if HasVowel(stem) then Tidy(stem) else w
      case None => w
  }

  function Step1c(w: string, least: nat): string {
    Rewrite(w, FINAL_Y, least, stem => HasVowel(stem))
  }

  function Step2(w: string, least: nat): string {
    Rewrite(w, STEP2, least, stem => Measure(stem) > 0)
  }

  function Step3(w: string, least: nat): string {
    Rewrite(w, STEP3, least, stem => Measure(stem) > 0)
  }

  function Step4(w: string, least: nat): string {
    match Split(w, STEP4, least)
    case Some(Cut(stem, _)) => if Measure(stem) > 1 then stem else w
    case None =>
      match Split(w, S_T_ION, least)
      case Some(Cut(stem, rule)) => if Measure(stem + rule.replacement) > 1 then stem + rule.replacement else w
      case None => w
  }

  function Step5a(w: string, least: nat): string {
    Rewrite(w, FINAL_E, least, stem => Measure(stem) > 1 || (Measure(stem) == 1 && !EndsCvc(stem)))
  }

  function Step5b(w: string): string {
    if EndsIn(w, "ll") && Measure(w) > 1 then DropLast(w) else w
  }

  function StepsTo2(w: string, least: nat): string {
    Step1c(Step1b(Step1a(w, least), least), least)
  }

  function StepsFrom2(w: string, least: nat): string {
    Step5b(Step5a(Step4(Step3(Step2(w, least), least), least), least))
  }

  function Steps(w: string, least: nat): string {
    StepsFrom2(StepsTo2(w, least), least)
  }

  /**
   Porter's steps on stems of one letter or more, as the source's patterns ask for; a y that starts the word is a
   consonant like any that follows no consonant.
  */
  function Stem(w: string): string {
    if |w| < 3 then w else Steps(w, 1)
  }

  // ---------------------------------------------------------------- no step lengthens or changes the first letter

  ghost predicate Trims(w: string, w': string) {
    w' != "" && |w'| <= |w| && w'[0] == w[0]
  }

  lemma RewriteTrims(w: string, rules: seq<Shortening>, least: nat, condition: string -> bool)
    requires w != "" && least >= 1
    ensures Trims(w, Rewrite(w, rules, least, condition))
  {
  }

  lemma Step1bTrims(w: string)
    requires w != ""
    ensures Trims(w, Step1b(w, 1))
  {
    hide Split, Measure, HasVowel;
    RewriteTrims(w, EED, 1, stem => Measure(stem) > 0);
    match Split(w, ED_ING, 1)
    case None =>
    case Some(Cut(stem, rule)) =>
      assert |rule.suffix| >= 2;
      hide Tidy;
  }

  lemma Step4Trims(w: string)
    requires w != ""
    ensures Trims(w, Step4(w, 1))
  {
  }

  lemma StepsTrim(w: string)
    requires w != ""
    ensures Trims(w, Steps(w, 1))
  {
    hide Split, Measure;
    var a := Step1a(w, 1);
    assert Trims(w, a) by { RewriteTrims(w, PLURALS, 1, _ => true); }
    Step1bTrims(a);
    RewriteTrims(Step1b(a, 1), FINAL_Y, 1, stem => HasVowel(stem));
    var c := Step1c(Step1b(a, 1), 1);
    RewriteTrims(c, STEP2, 1, stem => Measure(stem) > 0);
    RewriteTrims(Step2(c, 1), STEP3, 1, stem => Measure(stem) > 0);
    var d := Step3(Step2(c, 1), 1);
    Step4Trims(d);
    RewriteTrims(Step4(d, 1), FINAL_E, 1, stem => Measure(stem) > 1 || (Measure(stem) == 1 && !EndsCvc(stem)));
    assert Trims(Step5a(Step4(d, 1), 1), Step5b(Step5a(Step4(d, 1), 1)));
  }

  /** Stemming never lengthens a word and keeps its first letter. */
  lemma StemTrims(w: string)
    requires w != ""
    ensures |Stem(w)| <= |w| && Stem(w) != "" && Stem(w)[0] == w[0]
  {
    hide Steps;
    StepsTrim(w);
  }

  // ---------------------------------------------------------------- a leading y may as well be written Y

  /** Every condition of the rules is met by both spellings or by neither. */
  lemma SameConditions(w: string)
    requires LeadsWithY(w)
    ensures Measure(Capital(w)) == Measure(w) && HasVowel(Capital(w)) == HasVowel(w) &&
            EndsCvc(Capital(w)) == EndsCvc(w)
  {
    SameTurnings(w, |w|);
    forall i: nat | i < |w| ensures Vowel(Capital(w), i) == Vowel(w, i) { SameVowels(w, i); }
  }

  lemma {:induction false} SameSplit(w: string, rules: seq<Shortening>, k: nat)
    requires LeadsWithY(w) && k >= 1
    ensures Split(Capital(w), rules, k) ==
            match Split(w, rules, k)
            case None => None
            case Some(Cut(stem, rule)) => Some(Cut(Capital(stem), rule))
    ensures Split(w, rules, k).Some? ==> LeadsWithY(Split(w, rules, k).value.stem)
    decreases |w| - k
  {
    if k < |w| {
      assert Capital(w)[k..] == w[k..] && Capital(w)[..k] == Capital(w[..k]);
      assert AllDots(Capital(w)[..k]) == AllDots(w[..k]) by {
        forall i | 1 <= i < k ensures Capital(w)[..k][i] == w[..k][i] {}
      }
      SameSplit(w, rules, k + 1);
    }
  }

  lemma SameRewrite(w: string, rules: seq<Shortening>, condition: string -> bool)
    requires LeadsWithY(w) && forall s :: LeadsWithY(s) ==> condition(Capital(s)) == condition(s)
    ensures LeadsWithY(Rewrite(w, rules, 1, condition))
    ensures Rewrite(Capital(w), rules, 1, condition) == Capital(Rewrite(w, rules, 1, condition))
  {
    SameSplit(w, rules, 1);
    hide Split;
    match Split(w, rules, 1)
    case None =>
    case Some(Cut(stem, rule)) => assert Capital(stem) + rule.replacement == Capital(stem + rule.replacement);
  }

  lemma SameStep1a(w: string)
    requires LeadsWithY(w)
    ensures LeadsWithY(Step1a(w, 1)) && Step1a(Capital(w), 1) == Capital(Step1a(w, 1))
  {
    SameRewrite(w, PLURALS, _ => true);
    SameSplit(w, PLURALS, 1);
    SamePlural(w);
    hide Split, Rewrite, SinglePlural;
  }

  lemma SamePlural(w: string)
    requires LeadsWithY(w)
    ensures SinglePlural(Capital(w)) == SinglePlural(w)
    ensures SinglePlural(w) ==> LeadsWithY(DropLast(w)) && DropLast(Capital(w)) == Capital(DropLast(w))
  {
    if |w| >= 3 {
      assert Capital(w)[..|w| - 2] == Capital(w[..|w| - 2]);
      hide AllDots;
    }
  }

  lemma SameEnd(w: string, suffix: string)
    requires LeadsWithY(w) && suffix != "" && suffix[0] != 'y' && suffix[0] != 'Y'
    ensures EndsIn(Capital(w), suffix) == EndsIn(w, suffix)
  {
    if |suffix| < |w| { assert Capital(w)[|w| - |suffix|..] == w[|w| - |suffix|..]; }
  }

  lemma {:induction false} SameTidy(w: string)
    requires LeadsWithY(w) && HasVowel(w)
    ensures LeadsWithY(Tidy(w)) && Tidy(Capital(w)) == Capital(Tidy(w))
  {
    SameConditions(w);
    SameEnd(w, "at");
    SameEnd(w, "bl");
    SameEnd(w, "iz");
    assert EndsDouble(Capital(w)) == EndsDouble(w) by {
      if |w| == 2 { var i :| 0 <= i < 2 && Vowel(w, i); assert i == 1; }
    }
    hide Measure, HasVowel, EndsCvc, EndsIn;
    assert Capital(w) + "e" == Capital(w + "e");
    if EndsDouble(w) { assert DropLast(Capital(w)) == Capital(DropLast(w)); }
  }

  lemma {:induction false} SameStep1b(w: string)
    requires LeadsWithY(w)
    ensures LeadsWithY(Step1b(w, 1)) && Step1b(Capital(w), 1) == Capital(Step1b(w, 1))
  {
    forall s | LeadsWithY(s) ensures Measure(Capital(s)) == Measure(s) { SameConditions(s); }
    SameRewrite(w, EED, stem => Measure(stem) > 0);
    SameSplit(w, EED, 1);
    SameSplit(w, ED_ING, 1);
    hide Split, Rewrite, Measure, HasVowel, Tidy;
    match Split(w, ED_ING, 1)
    case None =>
    case Some(Cut(stem, _)) =>
      SameConditions(stem);
      if HasVowel(stem) { SameTidy(stem); }
  }

  function Middle(w: string): string {
    Step3(Step2(Step1c(w, 1), 1), 1)
  }

  lemma SameMiddle(w: string)
    requires LeadsWithY(w)
    ensures LeadsWithY(Middle(w)) && Middle(Capital(w)) == Capital(Middle(w))
  {
    forall s | LeadsWithY(s) ensures Measure(Capital(s)) == Measure(s) && HasVowel(Capital(s)) == HasVowel(s) {
      SameConditions(s);
    }
    hide Rewrite, Measure, HasVowel;
    SameRewrite(w, FINAL_Y, stem => HasVowel(stem));
    SameRewrite(Step1c(w, 1), STEP2, stem => Measure(stem) > 0);
    SameRewrite(Step2(Step1c(w, 1), 1), STEP3, stem => Measure(stem) > 0);
  }

  lemma SameStep4(w: string)
    requires LeadsWithY(w)
    ensures LeadsWithY(Step4(w, 1)) && Step4(Capital(w), 1) == Capital(Step4(w, 1))
  {
    SameSplit(w, STEP4, 1);
    SameSplit(w, S_T_ION, 1);
    hide Split, Measure;
    if Split(w, STEP4, 1).Some? { SameConditions(Split(w, STEP4, 1).value.stem); }
    else if Split(w, S_T_ION, 1).Some? {
      var cut := Split(w, S_T_ION, 1).value;
      assert Capital(cut.stem) + cut.rule.replacement == Capital(cut.stem + cut.rule.replacement);
      SameConditions(cut.stem + cut.rule.replacement);
    }
  }

  lemma {:induction false} SameStep5(w: string)
    requires LeadsWithY(w)
    ensures LeadsWithY(Step5b(Step5a(w, 1))) && Step5b(Step5a(Capital(w), 1)) == Capital(Step5b(Step5a(w, 1)))
  {
    var condition := (stem: string) => Measure(stem) > 1 || (Measure(stem) == 1 && !EndsCvc(stem));
    forall s | LeadsWithY(s) ensures condition(Capital(s)) == condition(s) { SameConditions(s); }
    SameRewrite(w, FINAL_E, condition);
    assert Step5a(w, 1) == Rewrite(w, FINAL_E, 1, condition);
    assert Step5a(Capital(w), 1) == Rewrite(Capital(w), FINAL_E, 1, condition);
    var x := Step5a(w, 1);
    SameConditions(x);
    SameEnd(x, "ll");
    hide Rewrite, Measure, Step5a;
    if EndsIn(x, "ll") { assert DropLast(Capital(x)) == Capital(DropLast(x)); }
  }

  /** A leading y and a leading Y go through all steps alike. */
  lemma {:induction false} SameSteps(w: string)
    requires LeadsWithY(w)
    ensures LeadsWithY(Steps(w, 1)) && Steps(Capital(w), 1) == Capital(Steps(w, 1))
  {
    hide Step1a, Step1b, Step1c, Step2, Step3, Step4, Step5a, Step5b;
    SameStep1a(w);
    SameStep1b(Step1a(w, 1));
    SameMiddle(Step1b(Step1a(w, 1), 1));
    var x := Middle(Step1b(Step1a(w, 1), 1));
    SameStep4(x);
    SameStep5(Step4(x, 1));
  }

  // ---------------------------------------------------------------- the source's steps

  /** The conditions as the source tests them, on a stem that starts with no y. */
  lemma Tests(stem: string)
    requires stem == "" || stem[0] != 'y'
    ensures TestStart(MGR0, stem) <==> Measure(stem) > 0
    ensures TestStart(MGR1, stem) <==> Measure(stem) > 1
    ensures Matches(MEQ1, stem) <==> Measure(stem) == 1
    ensures TestStart(S_V, stem) <==> HasVowel(stem)
    ensures Matches(CVC, stem) <==> Measure(stem) == 1 && EndsCvc(stem)
  {
    Mgr0IsMeasure(stem);
    Mgr1IsMeasure(stem);
    Meq1IsMeasure(stem);
    SvIsVowel(stem);
    CvcMeans(stem);
  }

  /** Step 1: plurals, -eed, -ed and -ing, final y. */
  method StepOne(word: string) returns (w: string)
    requires word != "" && word[0] != 'y'
    ensures w == Step1c(Step1b(Step1a(word, 1), 1), 1) && Trims(word, w)
  {
    hide Matches, Measure, HasVowel, EndsCvc, TestStart;
    w := word;
    var fp := Split(w, PLURALS, 1);
    if fp.Some? { w := fp.value.stem + fp.value.rule.replacement; }
    else if SinglePlural(w) { w := DropLast(w); }
    assert w == Step1a(word, 1) && Trims(word, w);

    w := StepOneB(w);

    fp := Split(w, FINAL_Y, 1);
    if fp.Some? {
      Tests(fp.value.stem);
      if TestStart(S_V, fp.value.stem) { w := fp.value.stem + "i"; }
    }
  }

  method StepOneB(word: string) returns (w: string)
    requires word != "" && word[0] != 'y'
    ensures w == Step1b(word, 1) && Trims(word, w)
  {
    Step1bTrims(word);
    hide Split, Trims, Matches, Measure, HasVowel, EndsCvc, TestStart, Tidy;
    w := word;
    var fp := Split(w, EED, 1);
    if fp.Some? {
      var stem := fp.value.stem;
      TestsOfStem(w, fp.value);
      if TestStart(MGR0, stem) {
        w := DropLast(w);
        EedDrops(word, fp.value);
      }
    } else {
      fp := Split(w, ED_ING, 1);
      if fp.Some? {
        TestsOfStem(w, fp.value);
        if TestStart(S_V, fp.value.stem) { w := TidyUp(fp.value.stem); }
      }
    }
  }

  lemma TestsOfStem(w: string, cut: Cut)
    requires w != "" && w[0] != 'y' && w == cut.stem + cut.rule.suffix && cut.stem != ""
    ensures TestStart(MGR0, cut.stem) <==> Measure(cut.stem) > 0
    ensures TestStart(S_V, cut.stem) <==> HasVowel(cut.stem)
    ensures cut.stem[0] != 'y'
  {
    hide *;
    Tests(cut.stem);
  }

  lemma EedDrops(w: string, cut: Cut)
    requires w == cut.stem + cut.rule.suffix && cut.rule == Rule("eed", "ee")
    ensures DropLast(w) == cut.stem + "ee"
  {
    assert w[|w| - 1] == 'd' && w[..|w| - 1] == cut.stem + "ee";
  }

  /** What follows once -ed or -ing is gone */
  method TidyUp(stem: string) returns (w: string)
    requires stem != "" && stem[0] != 'y'
    ensures w == Tidy(stem)
  {
    Tests(stem);
    hide Matches, Measure, EndsCvc, TestStart, EndsIn, EndsDouble;
    w := stem;
    if EndsIn(w, "at") || EndsIn(w, "bl") || EndsIn(w, "iz") { w := w + "e"; }
    else if EndsDouble(w) { w := DropLast(w); }
    else if Matches(CVC, w) { w := w + "e"; }
  }

  /** Steps 2 and 3: a listed suffix on a stem of measure > 0 */
  method StepsTwoAndThree(word: string) returns (w: string)
    requires word != "" && word[0] != 'y'
    ensures w == Step3(Step2(word, 1), 1) && Trims(word, w)
  {
    hide Matches, Measure, HasVowel, EndsCvc, TestStart;
    w := word;
    var fp := Split(w, STEP2, 1);
    if fp.Some? {
      Tests(fp.value.stem);
      if TestStart(MGR0, fp.value.stem) { w := fp.value.stem + fp.value.rule.replacement; }
    }
    assert w == Step2(word, 1) && Trims(word, w);
    ghost var w2 := w;

    fp := Split(w, STEP3, 1);
    if fp.Some? {
      Tests(fp.value.stem);
      if TestStart(MGR0, fp.value.stem) { w := fp.value.stem + fp.value.rule.replacement; }
    }
    assert w == Step3(w2, 1);
  }

  method StepFour(word: string) returns (w: string)
    requires word != "" && word[0] != 'y'
    ensures w == Step4(word, 1) && Trims(word, w)
  {
    hide Matches, Measure, HasVowel, EndsCvc, TestStart;
    w := word;
    var fp := Split(w, STEP4, 1);
    if fp.Some? {
      Tests(fp.value.stem);
      if TestStart(MGR1, fp.value.stem) { w := fp.value.stem; }
    } else {
      fp := Split(w, S_T_ION, 1);
      if fp.Some? {
        var stem := fp.value.stem + fp.value.rule.replacement;
        Tests(stem);
        if TestStart(MGR1, stem) { w := stem; }
      }
    }
  }

  method StepFive(word: string) returns (w: string)
    requires word != "" && word[0] != 'y'
    ensures w == Step5b(Step5a(word, 1)) && Trims(word, w)
  {
    hide Matches, Measure, HasVowel, EndsCvc, TestStart;
    w := word;
    var fp := Split(w, FINAL_E, 1);
    if fp.Some? {
      var stem := fp.value.stem;
      Tests(stem);
      if TestStart(MGR1, stem) || (Matches(MEQ1, stem) && !Matches(CVC, stem)) { w := stem; }
    }
    assert w == Step5a(word, 1) && Trims(word, w);
    Tests(w);
    if EndsIn(w, "ll") && TestStart(MGR1, w) { w := DropLast(w); }
  }

  /** The steps, on a word that starts with no y. */
  method AllSteps(word: string) returns (w: string)
    requires word != "" && word[0] != 'y'
    ensures w == Steps(word, 1) && Trims(word, w)
  {
    hide Steps, Step1a, Step1b, Step1c, Step2, Step3, Step4, Step5a, Step5b;
    w := StepOne(word);
    w := StepsTwoAndThree(w);
    w := StepFour(w);
    w := StepFive(w);
    StepsAre(word);
  }

  lemma StepsAre(w: string)
    ensures Steps(w, 1) == Step5b(Step5a(Step4(Step3(Step2(Step1c(Step1b(Step1a(w, 1), 1), 1), 1), 1), 1), 1))
  {
    hide Step1a, Step1b, Step1c, Step2, Step3, Step4, Step5a, Step5b;
  }

  method StemWord(word: string) returns (w: string)
    ensures w == Stem(word)
    ensures |w| <= |word| && (word != "" ==> w != "" && w[0] == word[0])
  {
    w := word;
    if |w| < 3 { return; }
    StemTrims(word);
    hide Steps;
    var firstch := w[0];
    if firstch == 'y' {
      w := "Y" + w[1..];
      assert w == Capital(word);
    }

    w := AllSteps(w);

    if firstch == 'y' {
      SameSteps(word);
      assert w[1..] == Steps(word, 1)[1..];
      w := "y" + w[1..];
      assert w == Steps(word, 1);
    }
  }
}
