/**
 performTermsSearch: the search index's posting lists intersected by counting, against asking every
 file for every term.
*/
module SearchIndex {
  import opened Lists

  /** The index stores a lone file bare, several in a list. */
  datatype Postings = One(file: nat) | Many(files: seq<nat>)

  type Index = map<string, Postings>

  /** What plain objects inherit under a name: a function, which has a length, or an object without one. */
  datatype Inherited = Function(length: nat) | Plain

  datatype Data = Data(terms: Index, titleterms: Index, inherited: map<string, Inherited>)

  /** The indexes are object literals, which own no __proto__, the one inherited name that is no function's. */
  type Tables = d: Data |
    forall w :: w in d.inherited && d.inherited[w].Plain? ==> w !in d.terms && w !in d.titleterms
    witness Data(map[], map[], map[])

  /**
   A property name of fileMap or scoreMap: a file's number, the text of what is inherited under a name (different
   for different names), or "undefined".
  */
  datatype Key = File(number: nat) | Text(name: string) | Undefined

  const TITLE := 15
  const TERM := 5

  function FilesOf(index: Index, word: string): seq<nat> {
    if word !in index then []
    else match index[word]
      case One(file) => [file]
      case Many(files) => files
  }

  function Keys(files: seq<nat>): (keys: seq<Key>)
    ensures |keys| == |files| && forall i :: 0 <= i < |files| ==> keys[i] == File(files[i])
  {
    seq(|files|, i requires 0 <= i < |files| => File(files[i]))
  }

  /** What an index adds to a word's files.  Lookups find inherited values too, and concat adds a function whole. */
  function Posts(t: Tables, index: Index, word: string): seq<Key> {
    if word in index then Keys(FilesOf(index, word))
    else if word in t.inherited then [Text(word)]
    else []
  }

  /** Where a word's scores go for an index.  A function has a length but no elements. */
  function ScoreKeys(t: Tables, index: Index, word: string): seq<Key> {
    if word in index then Keys(FilesOf(index, word))
    else if word !in t.inherited then []
    else match t.inherited[word]
      case Function(n) => seq(n, _ => Undefined)
      case Plain => [Text(word)]
  }

  /** A number set as an object's __proto__ is not kept. */
  predicate Settable(t: Tables, word: string) {
    word in t.inherited ==> !t.inherited[word].Plain?
  }

  /** All postings of a word, text before title. */
  function Posted(t: Tables, word: string): seq<Key> {
    Posts(t, t.terms, word) + Posts(t, t.titleterms, word)
  }

  /** Neither index has anything under this name. */
  predicate Unknown(t: Tables, word: string) {
    word !in t.terms && word !in t.titleterms && word !in t.inherited
  }

  predicate Occurs(t: Tables, word: string, file: nat) {
    file in FilesOf(t.terms, word) || file in FilesOf(t.titleterms, word)
  }

  /** A word's score in a file it occurs in: the title outweighs the text. */
  function Score(t: Tables, word: string, file: nat): int {
    if file in FilesOf(t.titleterms, word) then TITLE else TERM
  }

  function Count(keys: seq<Key>, key: Key): nat {
    if keys == [] then 0
    else Count(keys[..|keys| - 1], key) + if keys[|keys| - 1] == key then 1 else 0
  }

  function Repeat(word: string, n: nat): (s: seq<string>)
    ensures |s| == n
    ensures forall i :: 0 <= i < n ==> s[i] == word
  {
    if n == 0 then [] else Repeat(word, n - 1) + [word]
  }

  /** The words posted for a key, one for each posting. */
  function Hits(t: Tables, words: seq<string>, key: Key): seq<string> {
    if words == [] then []
    else
      var last := words[|words| - 1];
      Hits(t, words[..|words| - 1], key) + Repeat(last, Count(Posted(t, last), key))
  }

  /** How many words there are before the first unknown one. */
  function Known(t: Tables, words: seq<string>): (n: nat)
    ensures n <= |words| && forall i :: 0 <= i < n ==> !Unknown(t, words[i])
    ensures n < |words| ==> Unknown(t, words[n])
  {
    if words == [] || Unknown(t, words[0]) then 0 else 1 + Known(t, words[1..])
  }

  /** A key counts when it was posted as many times, up to an unknown word, as there are words. */
  ghost predicate Counted(t: Tables, words: seq<string>, key: Key) {
    words != [] && |Hits(t, words[..Known(t, words)], key)| == |words|
  }

  /**
   Whether a lookup loosely equals a key, which for-in yields as a string: a bare number, an array of one file or an
   inherited value does.  The search in a list of numbers that follows is strict and never finds a string.
  */
  predicate Equals(t: Tables, index: Index, word: string, key: Key) {
    if word in index then
      match index[word]
      case One(file) => key == File(file)
      case Many(files) => |files| == 1 && key == File(files[0])
    else word in t.inherited && key == Text(word)
  }

  predicate Excluded(t: Tables, excluded: seq<string>, key: Key) {
    exists w :: w in excluded && (Equals(t, t.terms, w, key) || Equals(t, t.titleterms, w, key))
  }

  ghost predicate Picked(t: Tables, words: seq<string>, excluded: seq<string>, key: Key) {
    Counted(t, words, key) && !Excluded(t, excluded, key)
  }

  /** The highest of the words' scores. */
  ghost predicate IsBest(t: Tables, words: seq<string>, file: nat, score: int) {
    (exists w :: w in words && Score(t, w, file) == score) &&
    forall w :: w in words ==> Score(t, w, file) <= score
  }

  /** A word occurs in the files its entries in the two indexes list, one bare or several. */
  lemma OccursMeans(t: Tables, word: string, file: nat)
    ensures Occurs(t, word, file) <==>
            (word in t.terms && (t.terms[word] == One(file) ||
                                 (t.terms[word].Many? && file in t.terms[word].files))) ||
            (word in t.titleterms && (t.titleterms[word] == One(file) ||
                                      (t.titleterms[word].Many? && file in t.titleterms[word].files)))
  {
  }

  /** A word in the title outscores any in the text, so the best score tells whether some word is in the title. */
  lemma TitleOutscores(t: Tables, words: seq<string>, file: nat, score: int)
    requires IsBest(t, words, file, score)
    ensures forall w, w', f, f' :: f in FilesOf(t.titleterms, w) && f' !in FilesOf(t.titleterms, w') ==>
              Score(t, w, f) > Score(t, w', f') > 0
    ensures score == if exists w :: w in words && file in FilesOf(t.titleterms, w) then 15 else 5
  {
  }

  // ---------------------------------------------------------------- counting

  lemma {:induction false} CountPositive(keys: seq<Key>, key: Key)
    ensures Count(keys, key) > 0 <==> key in keys
  {
    if keys != [] {
      CountPositive(keys[..|keys| - 1], key);
      assert keys == keys[..|keys| - 1] + [keys[|keys| - 1]];
    }
  }

  lemma {:induction false} CountOnce(keys: seq<Key>, key: Key)
    requires forall i, j :: 0 <= i < j < |keys| ==> keys[i] != keys[j]
    ensures Count(keys, key) == if key in keys then 1 else 0
  {
    if keys != [] {
      var n := |keys| - 1;
      CountOnce(keys[..n], key);
      assert keys == keys[..n] + [keys[n]];
    }
  }

  lemma {:induction false} CountAppend(keys: seq<Key>, keys': seq<Key>, key: Key)
    ensures Count(keys + keys', key) == Count(keys, key) + Count(keys', key)
  {
    if keys' == [] {
      assert keys + keys' == keys;
    } else {
      var n := |keys'| - 1;
      assert (keys + keys')[..|keys| + n] == keys + keys'[..n];
      CountAppend(keys, keys'[..n], key);
    }
  }

  lemma CountLast(keys: seq<Key>, key: Key, other: Key)
    ensures Count(keys + [key], other) == Count(keys, other) + if key == other then 1 else 0
  {
    assert (keys + [key])[..|keys|] == keys;
  }

  lemma HitsLast(t: Tables, words: seq<string>, word: string, key: Key)
    ensures Hits(t, words + [word], key) == Hits(t, words, key) + Repeat(word, Count(Posted(t, word), key))
  {
    assert (words + [word])[..|words|] == words;
  }

  /** A file is posted for the words it occurs in. */
  lemma PostedOccurs(t: Tables, word: string, file: nat)
    ensures File(file) in Posted(t, word) <==> Occurs(t, word, file)
  {
    InKeys(FilesOf(t.terms, word), file);
    InKeys(FilesOf(t.titleterms, word), file);
  }

  lemma InKeys(files: seq<nat>, file: nat)
    ensures File(file) in Keys(files) <==> file in files
  {
    if file in files {
      var i :| 0 <= i < |files| && files[i] == file;
      assert Keys(files)[i] == File(file);
    }
  }

  // ---------------------------------------------------------------- counting agrees with brute force

  /** No posting list repeats a file, and none of a word's title postings is in its text postings. */
  ghost predicate WellIndexed(t: Tables, words: seq<string>) {
    forall w, i, j :: w in words && 0 <= i < j < |Filed(t, w)| ==> Filed(t, w)[i] != Filed(t, w)[j]
  }

  function Filed(t: Tables, word: string): seq<nat> {
    FilesOf(t.terms, word) + FilesOf(t.titleterms, word)
  }

  /** How often a file is posted for a word. */
  lemma CountFiled(t: Tables, word: string, file: nat)
    ensures Count(Posted(t, word), File(file)) == Count(Keys(Filed(t, word)), File(file))
  {
    var k := File(file);
    var text, title := Keys(FilesOf(t.terms, word)), Keys(FilesOf(t.titleterms, word));
    assert Keys(Filed(t, word)) == text + title;
    CountAppend(text, title, k);
    CountAppend(Posts(t, t.terms, word), Posts(t, t.titleterms, word), k);
    hide *;
    CountOwn(t, t.terms, word, file);
    CountOwn(t, t.titleterms, word, file);
    PostedIs(t, word);
  }

  lemma PostedIs(t: Tables, word: string)
    ensures Posted(t, word) == Posts(t, t.terms, word) + Posts(t, t.titleterms, word)
  {
  }

  lemma CountOwn(t: Tables, index: Index, word: string, file: nat)
    ensures Count(Posts(t, index, word), File(file)) == Count(Keys(FilesOf(index, word)), File(file))
  {
    if word !in index {
      CountPositive(Posts(t, index, word), File(file));
      CountPositive(Keys(FilesOf(index, word)), File(file));
    }
  }

  /** With no repeats a word accounts for one posting of a file it occurs in and none of any other. */
  lemma CountOccurs(t: Tables, word: string, file: nat)
    requires WellIndexed(t, [word])
    ensures Count(Posted(t, word), File(file)) == if Occurs(t, word, file) then 1 else 0
  {
    assert word in [word];
    CountFiled(t, word, file);
    CountOnce(Keys(Filed(t, word)), File(file));
    InKeys(Filed(t, word), file);
  }

  lemma EachWellIndexed(t: Tables, words: seq<string>, word: string)
    requires WellIndexed(t, words) && word in words
    ensures WellIndexed(t, [word])
  {
  }

  lemma FewerWellIndexed(t: Tables, words: seq<string>, n: nat)
    requires WellIndexed(t, words) && n <= |words|
    ensures WellIndexed(t, words[..n])
  {
  }

  /** Each word accounts for at most one hit, and for one exactly when it occurs in the file. */
  lemma {:induction false} HitsAreOccurrences(t: Tables, words: seq<string>, file: nat)
    requires WellIndexed(t, words)
    ensures var hits := Hits(t, words, File(file));
            |hits| <= |words| && (|hits| == |words| <==> forall w :: w in words ==> Occurs(t, w, file)) &&
            forall w :: w in hits <==> w in words && Occurs(t, w, file)
  {
    if words != [] {
      var n := |words| - 1;
      var last := words[n];
      assert words == words[..n] + [last];
      FewerWellIndexed(t, words, n);
      EachWellIndexed(t, words, last);
      hide WellIndexed, Posted, Occurs;
      HitsAreOccurrences(t, words[..n], file);
      CountOccurs(t, last, file);
      HitsLast(t, words[..n], last, File(file));
      assert Repeat(last, 1) == [last] && Repeat(last, 0) == [];
      hide *;
    }
  }

  /** What brute force answers: a term was asked for and every term occurs in the file's title or text. */
  ghost predicate HasAll(t: Tables, words: seq<string>, file: nat) {
    words != [] && forall w :: w in words ==> Occurs(t, w, file)
  }

  /** A file counts exactly when a term was asked for and every term occurs in its title or text. */
  lemma CountingIsBruteForce(t: Tables, words: seq<string>, file: nat)
    requires WellIndexed(t, words)
    ensures Counted(t, words, File(file)) <==> HasAll(t, words, file)
  {
    var n := Known(t, words);
    FewerWellIndexed(t, words, n);
    HitsAreOccurrences(t, words[..n], file);
    hide Hits, WellIndexed;
    if n == |words| { assert words[..n] == words; }
    else { assert words[n] in words && !Occurs(t, words[n], file); }
  }

  /** The words a file that counts is scored by are all the words asked for. */
  lemma ScoreIsOverAllWords(t: Tables, words: seq<string>, file: nat, score: int)
    requires WellIndexed(t, words) && Counted(t, words, File(file))
    ensures IsBest(t, Hits(t, words[..Known(t, words)], File(file)), file, score) <==> IsBest(t, words, file, score)
  {
    var n := Known(t, words);
    FewerWellIndexed(t, words, n);
    HitsAreOccurrences(t, words[..n], file);
    hide Hits, Known, WellIndexed, Occurs, Score;
    assert n == |words| && words[..n] == words;
  }

  /** Stopping at an unknown word changes nothing: going on could not complete the count either. */
  lemma BreakChangesNothing(t: Tables, words: seq<string>, file: nat)
    requires WellIndexed(t, words)
    ensures Counted(t, words, File(file)) <==> words != [] && |Hits(t, words, File(file))| == |words|
  {
    CountingIsBruteForce(t, words, file);
    HitsAreOccurrences(t, words, file);
    hide Counted, Hits, WellIndexed;
  }

  // ---------------------------------------------------------------- inherited names

  /** In how many of the two indexes a lookup of the name finds what is inherited. */
  function Strays(t: Tables, name: string): nat {
    if name !in t.inherited then 0
    else (if name in t.terms then 0 else 1) + if name in t.titleterms then 0 else 1
  }

  predicate Distinct(words: seq<string>) {
    forall i, j :: 0 <= i < j < |words| ==> words[i] != words[j]
  }

  lemma CountStrayIn(t: Tables, index: Index, word: string, name: string)
    ensures Count(Posts(t, index, word), Text(name)) ==
            if word == name && word !in index && word in t.inherited then 1 else 0
  {
    CountPositive(Posts(t, index, word), Text(name));
    assert [Text(word)][..0] == [];
  }

  lemma CountStray(t: Tables, word: string, name: string)
    ensures Count(Posted(t, word), Text(name)) == if word == name then Strays(t, name) else 0
  {
    CountAppend(Posts(t, t.terms, word), Posts(t, t.titleterms, word), Text(name));
    CountStrayIn(t, t.terms, word, name);
    CountStrayIn(t, t.titleterms, word, name);
    hide Count, Posts;
  }

  lemma {:induction false} StrayHits(t: Tables, words: seq<string>, name: string)
    requires Distinct(words)
    ensures |Hits(t, words, Text(name))| == if name in words then Strays(t, name) else 0
  {
    if words != [] {
      var n := |words| - 1;
      assert words == words[..n] + [words[n]] && words[n] !in words[..n];
      StrayHits(t, words[..n], name);
      CountStray(t, words[n], name);
      HitsLast(t, words[..n], words[n], Text(name));
      hide *;
    }
  }

  /**
   With no word asked for twice an inherited value counts exactly when it is looked up before an unknown word and as
   many of the two indexes lack an entry of that name as there are words: a query of one or two words.
  */
  lemma StrayCounts(t: Tables, words: seq<string>, name: string)
    requires Distinct(words)
    ensures Counted(t, words, Text(name)) <==>
            words != [] && name in words[..Known(t, words)] && Strays(t, name) == |words|
  {
    StrayHits(t, words[..Known(t, words)], name);
    hide Hits, Known, Strays;
  }

  /** No inherited value counts. */
  ghost predicate NoStray(t: Tables, words: seq<string>) {
    forall name :: !Counted(t, words, Text(name))
  }

  /** Own entries in both indexes keep inherited values out. */
  lemma {:induction false} OwnEntriesSuffice(t: Tables, words: seq<string>)
    requires forall w :: w in words && w in t.inherited ==> w in t.terms && w in t.titleterms
    ensures NoStray(t, words)
  {
    forall name ensures !Counted(t, words, Text(name)) {
      NeverHit(t, words[..Known(t, words)], name);
    }
  }

  lemma {:induction false} NeverHit(t: Tables, words: seq<string>, name: string)
    requires forall w :: w in words && w in t.inherited ==> w in t.terms && w in t.titleterms
    ensures Hits(t, words, Text(name)) == []
  {
    if words != [] {
      var n := |words| - 1;
      NeverHit(t, words[..n], name);
      CountStray(t, words[n], name);
      assert words[n] in words;
    }
  }

  // ---------------------------------------------------------------- exactly when

  lemma {:induction false} CountAtLeast(keys: seq<Key>, key: Key, n: nat)
    requires n <= |keys|
    ensures Count(keys[..n], key) <= Count(keys, key)
  {
    assert keys == keys[..n] + keys[n..];
    CountAppend(keys[..n], keys[n..], key);
  }

  lemma CountTwice(keys: seq<Key>, i: nat, j: nat)
    requires i < j < |keys| && keys[i] == keys[j]
    ensures Count(keys, keys[i]) >= 2
  {
    CountAtLeast(keys, keys[i], j + 1);
    CountLast(keys[..j], keys[j], keys[i]);
    CountPositive(keys[..j], keys[i]);
    hide Count;
    assert keys[..j + 1] == keys[..j] + [keys[j]];
    assert keys[..j][i] == keys[i] && keys[i] in keys[..j];
  }

  /** What a query of one word that is not unknown counts. */
  lemma OneWord(t: Tables, word: string, key: Key)
    requires !Unknown(t, word)
    ensures |Hits(t, [word][..Known(t, [word])], key)| == Count(Posted(t, word), key)
  {
    assert [word][1..] == [] && Known(t, [word]) == 1 && [word][..1] == [] + [word];
    HitsLast(t, [], word, key);
  }

  /** A file posted twice for a word is lost when the word is asked for alone. */
  lemma PostedTwiceIsLost(t: Tables, word: string, i: nat, j: nat)
    requires i < j < |Filed(t, word)| && Filed(t, word)[i] == Filed(t, word)[j]
    ensures Occurs(t, word, Filed(t, word)[i]) && !Counted(t, [word], File(Filed(t, word)[i]))
  {
    var file := Filed(t, word)[i];
    CountTwice(Keys(Filed(t, word)), i, j);
    CountFiled(t, word, file);
    assert file in Filed(t, word);
    OneWord(t, word, File(file));
  }

  /** A name with an entry in one index only is found in the other's prototype. */
  lemma InheritedOnce(t: Tables, name: string)
    requires Strays(t, name) == 1
    ensures Counted(t, [name], Text(name))
  {
    OneWord(t, name, Text(name));
    CountStray(t, name, name);
  }

  /** And one without entries is found twice, which completes the count next to any other word. */
  lemma InheritedTwice(t: Tables, name: string, other: string)
    requires Strays(t, name) == 2 && other != name
    ensures Counted(t, [name, other], Text(name))
  {
    var words := [name, other];
    assert Known(t, words) >= 1;
    assert words[0] == name && name in words[..Known(t, words)];
    StrayCounts(t, words, name);
  }

  /** The counting is right for a query: what counts are the files with all words. */
  ghost predicate CountsRight(t: Tables, words: seq<string>) {
    forall key :: Counted(t, words, key) <==> key.File? && HasAll(t, words, key.number)
  }

  /** On a well-made index it is exactly if no inherited value counts. */
  lemma RightExactlyWithoutStrays(t: Tables, words: seq<string>)
    requires WellIndexed(t, words)
    ensures CountsRight(t, words) <==> NoStray(t, words)
  {
    forall file: nat ensures Counted(t, words, File(file)) <==> HasAll(t, words, file) {
      CountingIsBruteForce(t, words, file);
    }
    NothingForUndefined(t, words);
    hide Counted, HasAll, WellIndexed;
    if NoStray(t, words) {
      forall key ensures Counted(t, words, key) <==> key.File? && HasAll(t, words, key.number) {
        match key
        case File(_) =>
        case Text(name) => assert !Counted(t, words, Text(name));
        case Undefined =>
      }
    }
    if CountsRight(t, words) {
      forall name ensures !Counted(t, words, Text(name)) {}
    }
  }

  lemma NothingForUndefined(t: Tables, words: seq<string>)
    ensures !Counted(t, words, Undefined)
  {
    NeverUndefined(t, words[..Known(t, words)]);
  }

  lemma {:induction false} NeverUndefined(t: Tables, words: seq<string>)
    ensures Hits(t, words, Undefined) == []
  {
    if words != [] {
      var n := |words| - 1;
      NeverUndefined(t, words[..n]);
      assert Undefined !in Posts(t, t.terms, words[n]) && Undefined !in Posts(t, t.titleterms, words[n]);
      CountPositive(Posted(t, words[n]), Undefined);
    }
  }

  /**
   All queries are counted right exactly when no word's postings repeat a file, neither within the title or text
   postings nor between the two, and every inherited name has an entry of its own in both indexes.
  */
  lemma AgreesExactlyWhenWellIndexed(t: Tables)
    ensures (forall words :: CountsRight(t, words)) <==>
            (forall w :: WellIndexed(t, [w])) && forall w :: w in t.inherited ==> w in t.terms && w in t.titleterms
  {
    if (forall w :: WellIndexed(t, [w])) && forall w :: w in t.inherited ==> w in t.terms && w in t.titleterms {
      forall words ensures CountsRight(t, words) {
        AllWellIndexed(t, words);
        OwnEntriesSuffice(t, words);
        RightExactlyWithoutStrays(t, words);
      }
    }
    if forall words :: CountsRight(t, words) {
      forall w ensures WellIndexed(t, [w]) { if !WellIndexed(t, [w]) { RepeatShows(t, w); } }
      forall w | w in t.inherited ensures w in t.terms && w in t.titleterms {
        if Strays(t, w) > 0 { StrayShows(t, w); }
      }
    }
  }

  lemma AllWellIndexed(t: Tables, words: seq<string>)
    requires forall w :: WellIndexed(t, [w])
    ensures WellIndexed(t, words)
  {
    forall w, i, j | w in words && 0 <= i < j < |Filed(t, w)| ensures Filed(t, w)[i] != Filed(t, w)[j] {
      assert WellIndexed(t, [w]) && w in [w];
    }
  }

  lemma RepeatShows(t: Tables, word: string)
    requires !WellIndexed(t, [word])
    ensures !CountsRight(t, [word])
  {
    var i, j :| 0 <= i < j < |Filed(t, word)| && Filed(t, word)[i] == Filed(t, word)[j];
    PostedTwiceIsLost(t, word, i, j);
    assert HasAll(t, [word], Filed(t, word)[i]);
    assert !Counted(t, [word], File(Filed(t, word)[i]));
  }

  lemma StrayShows(t: Tables, name: string)
    requires Strays(t, name) > 0
    ensures !CountsRight(t, [name]) || !CountsRight(t, [name, name + "'"])
  {
    if Strays(t, name) == 1 { InheritedOnce(t, name); }
    else {
      assert |name + "'"| == |name| + 1;
      InheritedTwice(t, name, name + "'");
    }
    hide Counted, HasAll, Strays;
    assert Counted(t, [name], Text(name)) || Counted(t, [name, name + "'"], Text(name));
  }

  /**
   The other way round a file counts that lacks a word: the other one, in both its title and its text, counts twice
   and makes up for it.
  */
  lemma OverlapCountsTwice(a: string, b: string, file: nat)
    requires a != b
    ensures var t := Data(map[a := One(file)], map[a := One(file)], map[]);
            Counted(t, [a, b], File(file)) && !Occurs(t, b, file)
  {
    var t: Tables := Data(map[a := One(file)], map[a := One(file)], map[]);
    var words := [a, b];
    assert Known(t, words[1..]) == 0 && Known(t, words) == 1;
    assert words[..1] == [] + [a];
    HitsLast(t, [], a, File(file));
    assert Posted(t, a) == [File(file), File(file)];
    CountTwice(Posted(t, a), 0, 1);
    CountLast([File(file)], File(file), File(file));
    assert [File(file)] + [File(file)] == Posted(t, a) && [File(file)][..0] == [];
  }

  // ---------------------------------------------------------------- excluded words

  /** An excluded word keeps all files out it occurs in exactly when each index lists one file for it at most. */
  lemma ExclusionIsExact(t: Tables, word: string)
    requires WellIndexed(t, [word])
    ensures (forall file: nat :: Excluded(t, [word], File(file)) <==> Occurs(t, word, file)) <==>
            |FilesOf(t.terms, word)| <= 1 && |FilesOf(t.titleterms, word)| <= 1
  {
    var text, title := FilesOf(t.terms, word), FilesOf(t.titleterms, word);
    assert word in [word];
    forall file: nat ensures Excluded(t, [word], File(file)) <==> text == [file] || title == [file] {
      LoneEquals(t, t.terms, word, file);
      LoneEquals(t, t.titleterms, word, file);
    }
    forall i, j | 0 <= i < |text| && 0 <= j < |title| ensures text[i] != title[j] {
      assert Filed(t, word)[i] == text[i] && Filed(t, word)[|text| + j] == title[j];
    }
    if |text| > 1 || |title| > 1 {
      var file := NeverAlone(text, title);
      assert Occurs(t, word, file) && !Excluded(t, [word], File(file));
    }
  }

  lemma NeverAlone(text: seq<nat>, title: seq<nat>) returns (file: nat)
    requires |text| > 1 || |title| > 1
    requires forall i, j :: 0 <= i < |text| && 0 <= j < |title| ==> text[i] != title[j]
    ensures (file in text || file in title) && text != [file] && title != [file]
  {
    file := if |text| > 1 then text[0] else title[0];
    assert text != [] && title != [] ==> text[0] != title[0];
  }

  lemma LoneEquals(t: Tables, index: Index, word: string, file: nat)
    ensures Equals(t, index, word, File(file)) <==> FilesOf(index, word) == [file]
  {
  }

  // ---------------------------------------------------------------- what a search comes to

  /** A result; a score of None is not a number. */
  datatype Hit = Hit(key: Key, score: Option<int>)

  datatype Outcome = Answer(results: seq<Hit>) | Throws

  predicate IsFunction(t: Tables, name: string) {
    name in t.inherited && t.inherited[name].Function?
  }

  ghost predicate Rated(t: Tables, words: seq<string>, hit: Hit) {
    match hit.key
    case File(file) =>
      hit.score.Some? && IsBest(t, Hits(t, words[..Known(t, words)], hit.key), file, hit.score.value)
    case _ => hit.score.None?
  }

  ghost predicate Once(results: seq<Hit>) {
    forall i, j :: 0 <= i < j < |results| ==> results[i].key != results[j].key
  }

  ghost predicate Has(results: seq<Hit>, key: Key) {
    exists i :: 0 <= i < |results| && results[i].key == key
  }

  /** A function that is picked has no scores, and reading them throws; anything else picked is a result. */
  ghost predicate Answers(outcome: Outcome, t: Tables, words: seq<string>, excluded: seq<string>) {
    match outcome
    case Throws => exists name :: IsFunction(t, name) && Picked(t, words, excluded, Text(name))
    case Answer(results) =>
      (forall name :: IsFunction(t, name) ==> !Picked(t, words, excluded, Text(name))) &&
      Once(results) && (forall key :: Has(results, key) <==> Picked(t, words, excluded, key)) &&
      forall i :: 0 <= i < |results| ==> Rated(t, words, results[i])
  }

  /** The files that have all words, each once and with the highest of all the words' scores. */
  ghost predicate IsBruteForce(outcome: Outcome, t: Tables, words: seq<string>) {
    outcome.Answer? && Once(outcome.results) &&
    (forall key :: Has(outcome.results, key) <==> key.File? && HasAll(t, words, key.number)) &&
    forall i :: 0 <= i < |outcome.results| ==> ScoredByAll(t, words, outcome.results[i])
  }

  ghost predicate ScoredByAll(t: Tables, words: seq<string>, hit: Hit) {
    hit.key.File? && hit.score.Some? && IsBest(t, words, hit.key.number, hit.score.value)
  }

  lemma NoneExcluded(t: Tables, words: seq<string>)
    ensures forall key :: Picked(t, words, [], key) <==> Counted(t, words, key)
  {
    hide Counted;
  }

  /** On a well-made index a search answers as brute force exactly if no inherited value counts. */
  lemma AnswersAreBruteForce(outcome: Outcome, t: Tables, words: seq<string>)
    requires WellIndexed(t, words) && Answers(outcome, t, words, [])
    ensures IsBruteForce(outcome, t, words) <==> NoStray(t, words)
  {
    NoneExcluded(t, words);
    RightExactlyWithoutStrays(t, words);
    hide Picked, Counted, HasAll, WellIndexed, Once, Has, Rated, ScoredByAll, IsFunction;
    if NoStray(t, words) {
      var results := outcome.results;
      forall i | 0 <= i < |results| ensures ScoredByAll(t, words, results[i]) {
        HasIt(results, i);
        assert Counted(t, words, results[i].key);
        BestOverAll(t, words, results[i]);
      }
    }
    if IsBruteForce(outcome, t, words) {
      forall name ensures !Counted(t, words, Text(name)) {
        assert !Has(outcome.results, Text(name));
      }
    }
  }

  lemma HasIt(results: seq<Hit>, i: nat)
    requires i < |results|
    ensures Has(results, results[i].key)
  {
  }

  lemma BestOverAll(t: Tables, words: seq<string>, hit: Hit)
    requires WellIndexed(t, words) && hit.key.File? && Counted(t, words, hit.key) && Rated(t, words, hit)
    ensures ScoredByAll(t, words, hit)
  {
    ScoreIsOverAllWords(t, words, hit.key.number, hit.score.value);
  }

  // ---------------------------------------------------------------- the source's loops

  type FileMap = map<Key, seq<string>>
  type ScoreMap = map<Key, map<string, int>>

  function ScoreIn(scoreMap: ScoreMap, key: Key, word: string): Option<int> {
    if key in scoreMap && word in scoreMap[key] then Some(scoreMap[key][word]) else None
  }

  function Listed(fileMap: FileMap, key: Key): seq<string> {
    if key in fileMap then fileMap[key] else []
  }

  /** The score a word has for a key once both indexes are through. */
  function Given(t: Tables, key: Key, word: string): Option<int> {
    if !Settable(t, word) then None
    else if key in ScoreKeys(t, t.titleterms, word) then Some(TITLE)
    else if key in ScoreKeys(t, t.terms, word) then Some(TERM)
    else None
  }

  predicate Reached(t: Tables, key: Key, word: string) {
    key in ScoreKeys(t, t.terms, word) || key in ScoreKeys(t, t.titleterms, word)
  }

  ghost predicate NoEmptyLists(fileMap: FileMap) {
    forall key :: key in fileMap ==> fileMap[key] != []
  }

  /** fileMap after the words so far. */
  ghost predicate FilesRecord(fileMap: FileMap, t: Tables, words: seq<string>) {
    NoEmptyLists(fileMap) && forall key :: Listed(fileMap, key) == Hits(t, words, key)
  }

  /** scoreMap after the words so far. */
  ghost predicate ScoresRecord(scoreMap: ScoreMap, t: Tables, words: seq<string>) {
    (forall key, w :: ScoreIn(scoreMap, key, w) == if w in words then Given(t, key, w) else None) &&
    forall key :: key in scoreMap <==> exists w :: w in words && Reached(t, key, w)
  }

  /** scoreMap is before with this score, if it is kept, for the word under these keys. */
  ghost predicate Scored(scoreMap: ScoreMap, before: ScoreMap, keys: seq<Key>, word: string, score: int, kept: bool) {
    (forall key, w :: ScoreIn(scoreMap, key, w) ==
                      if kept && w == word && key in keys then Some(score) else ScoreIn(before, key, w)) &&
    forall key :: key in scoreMap <==> key in before || key in keys
  }

  /** fileMap is before with the word added once for each of these postings. */
  ghost predicate Extended(fileMap: FileMap, before: FileMap, keys: seq<Key>, word: string) {
    forall key :: Listed(fileMap, key) == Listed(before, key) + Repeat(word, Count(keys, key))
  }

  /** scoreMap with a score set under one key, which gets an empty object first if it has none. */
  function WithScore(scoreMap: ScoreMap, key: Key, word: string, score: int, kept: bool): ScoreMap {
    var scores := if key in scoreMap then scoreMap[key] else map[];
    scoreMap[key := if kept then scores[word := score] else scores]
  }

  lemma OneMoreScore(m: ScoreMap, before: ScoreMap, keys: seq<Key>, word: string, score: int, kept: bool, key: Key)
    requires Scored(m, before, keys, word, score, kept)
    ensures Scored(WithScore(m, key, word, score, kept), before, keys + [key], word, score, kept)
  {
    var m' := WithScore(m, key, word, score, kept);
    forall k, w ensures ScoreIn(m', k, w) ==
                        if kept && w == word && k in keys + [key] then Some(score) else ScoreIn(before, k, w)
    {
      assert ScoreIn(m, k, w) == if kept && w == word && k in keys then Some(score) else ScoreIn(before, k, w);
    }
  }

  method SetScores(keys: seq<Key>, word: string, score: int, kept: bool, before: ScoreMap) returns (scoreMap: ScoreMap)
    ensures Scored(scoreMap, before, keys, word, score, kept)
  {
    scoreMap := before;
    assert Scored(scoreMap, before, keys[..0], word, score, kept);
    hide Scored;
    for j := 0 to |keys|
      invariant Scored(scoreMap, before, keys[..j], word, score, kept)
    {
      OneMoreScore(scoreMap, before, keys[..j], word, score, kept, keys[j]);
      OneMore(keys, j);
      scoreMap := WithScore(scoreMap, keys[j], word, score, kept);
    }
    AllOfIt(keys);
  }

  function WithWord(fileMap: FileMap, key: Key, word: string): FileMap {
    fileMap[key := Listed(fileMap, key) + [word]]
  }

  lemma OneMorePosting(m: FileMap, before: FileMap, keys: seq<Key>, word: string, key: Key)
    requires Extended(m, before, keys, word)
    ensures Extended(WithWord(m, key, word), before, keys + [key], word)
  {
    hide WithWord, Listed, Repeat, Count;
    forall k ensures Listed(WithWord(m, key, word), k) == Listed(before, k) + Repeat(word, Count(keys + [key], k)) {
      ListedWith(m, key, word, k);
      OneMoreRepeat(Listed(before, k), word, keys, key, k);
      assert Listed(m, k) == Listed(before, k) + Repeat(word, Count(keys, k));
    }
  }

  lemma ListedWith(m: FileMap, key: Key, word: string, k: Key)
    ensures Listed(WithWord(m, key, word), k) == if k == key then Listed(m, k) + [word] else Listed(m, k)
  {
  }

  lemma OneMoreRepeat(list: seq<string>, word: string, keys: seq<Key>, key: Key, k: Key)
    ensures list + Repeat(word, Count(keys + [key], k)) ==
            if k == key then list + Repeat(word, Count(keys, k)) + [word] else list + Repeat(word, Count(keys, k))
  {
    CountLast(keys, key, k);
    RepeatMore(word, Count(keys, k));
    hide *;
    assert list + (Repeat(word, Count(keys, k)) + [word]) == list + Repeat(word, Count(keys, k)) + [word];
  }

  lemma RepeatMore(word: string, n: nat)
    ensures Repeat(word, n + 1) == Repeat(word, n) + [word]
  {
  }

  lemma WithWordIs(m: FileMap, key: Key, word: string)
    ensures WithWord(m, key, word) == m[key := if key in m then m[key] + [word] else [word]]
    ensures NoEmptyLists(m) ==> NoEmptyLists(WithWord(m, key, word))
  {
    assert [] + [word] == [word];
  }

  /** One posting entered in fileMap */
  method AddWord(before: FileMap, key: Key, word: string) returns (fileMap: FileMap)
    ensures fileMap == WithWord(before, key, word)
  {
    WithWordIs(before, key, word);
    fileMap := before;
    if key in fileMap { fileMap := fileMap[key := fileMap[key] + [word]]; }
    else { fileMap := fileMap[key := [word]]; }
  }

  method MapFiles(keys: seq<Key>, word: string, before: FileMap) returns (fileMap: FileMap)
    requires NoEmptyLists(before)
    ensures Extended(fileMap, before, keys, word) && NoEmptyLists(fileMap)
  {
    fileMap := before;
    assert Extended(fileMap, before, keys[..0], word);
    hide *;
    for j := 0 to |keys|
      invariant Extended(fileMap, before, keys[..j], word) && NoEmptyLists(fileMap)
    {
      OneMorePosting(fileMap, before, keys[..j], word, keys[j]);
      WithWordIs(fileMap, keys[j], word);
      OneMore(keys, j);
      fileMap := AddWord(fileMap, keys[j], word);
    }
    AllOfIt(keys);
  }

  lemma FilesStep(m: FileMap, m': FileMap, t: Tables, words: seq<string>, word: string)
    requires FilesRecord(m, t, words) && Extended(m', m, Posted(t, word), word) && NoEmptyLists(m')
    ensures FilesRecord(m', t, words + [word])
  {
    hide Hits, Posted, NoEmptyLists;
    forall key ensures Listed(m', key) == Hits(t, words + [word], key) {
      HitsLast(t, words, word, key);
      assert Listed(m, key) == Hits(t, words, key);
    }
  }

  /** Title scores are set last, over the text scores. */
  lemma ScoresStep(m: ScoreMap, mid: ScoreMap, m': ScoreMap, t: Tables, words: seq<string>, word: string)
    requires ScoresRecord(m, t, words)
    requires Scored(mid, m, ScoreKeys(t, t.terms, word), word, TERM, Settable(t, word))
    requires Scored(m', mid, ScoreKeys(t, t.titleterms, word), word, TITLE, Settable(t, word))
    ensures ScoresRecord(m', t, words + [word])
  {
    hide ScoreKeys, Settable;
    forall key, w ensures ScoreIn(m', key, w) == if w in words + [word] then Given(t, key, w) else None {
      assert ScoreIn(m, key, w) == if w in words then Given(t, key, w) else None;
    }
    forall key ensures key in m' <==> exists w :: w in words + [word] && Reached(t, key, w) {
      assert key in m' <==> key in m || Reached(t, key, word);
      assert word in words + [word];
      if key in m {
        var w :| w in words && Reached(t, key, w);
        assert w in words + [word];
      }
    }
  }

  method RecordTerm(word: string, t: Tables, fileMap: FileMap, scoreMap: ScoreMap, ghost words: seq<string>)
    returns (fileMap': FileMap, scoreMap': ScoreMap)
    requires FilesRecord(fileMap, t, words) && ScoresRecord(scoreMap, t, words)
    ensures FilesRecord(fileMap', t, words + [word]) && ScoresRecord(scoreMap', t, words + [word])
  {
    hide ScoresRecord, Scored, Extended, ScoreKeys, Posted, Settable, NoEmptyLists;
    var mid := SetScores(ScoreKeys(t, t.terms, word), word, TERM, Settable(t, word), scoreMap);
    scoreMap' := SetScores(ScoreKeys(t, t.titleterms, word), word, TITLE, Settable(t, word), mid);
    ScoresStep(scoreMap, mid, scoreMap', t, words, word);
    fileMap' := MapFiles(Posted(t, word), word, fileMap);
    FilesStep(fileMap, fileMap', t, words, word);
    hide FilesRecord;
  }

  lemma KnownStep(t: Tables, words: seq<string>, i: nat)
    requires i < |words|
    ensures Known(t, words[i..]) == if Unknown(t, words[i]) then 0 else 1 + Known(t, words[i + 1..])
  {
    assert words[i..][1..] == words[i + 1..];
  }

  lemma NothingRecorded(t: Tables)
    ensures FilesRecord(map[], t, []) && ScoresRecord(map[], t, [])
  {
  }

  method RecordTerms(words: seq<string>, t: Tables) returns (fileMap: FileMap, scoreMap: ScoreMap)
    ensures FilesRecord(fileMap, t, words[..Known(t, words)]) && ScoresRecord(scoreMap, t, words[..Known(t, words)])
  {
    fileMap, scoreMap := map[], map[];
    NothingRecorded(t);
    assert words[0..] == words && words[..0] == [];
    hide *;
    var i := 0;
    while i < |words|
      invariant 0 <= i <= |words|
      invariant Known(t, words) == i + Known(t, words[i..])
      invariant FilesRecord(fileMap, t, words[..i]) && ScoresRecord(scoreMap, t, words[..i])
    {
      KnownStep(t, words, i);
      OneMore(words, i);
      if Unknown(t, words[i]) { break; }
      fileMap, scoreMap := RecordTerm(words[i], t, fileMap, scoreMap, words[..i]);
      i := i + 1;
    }
  }

  /** Math.max over the scores read for a file's words: a number if all of them are numbers. */
  method MaxScore(list: seq<string>, scores: map<string, int>) returns (best: Option<int>)
    requires list != []
    ensures best.Some? <==> forall w :: w in list ==> w in scores
    ensures best.Some? ==> (exists w :: w in list && scores[w] == best.value) &&
                           forall w :: w in list ==> scores[w] <= best.value
  {
    if list[0] !in scores { return None; }
    var max := scores[list[0]];
    for i := 1 to |list|
      invariant forall k :: 0 <= k < i ==> list[k] in scores && scores[list[k]] <= max
      invariant exists k :: 0 <= k < i && scores[list[k]] == max
    {
      if list[i] !in scores { return None; }
      if scores[list[i]] > max { max := scores[list[i]]; }
    }
    best := Some(max);
  }

  /** The loop over the excluded words. */
  method Admits(t: Tables, excluded: seq<string>, key: Key) returns (valid: bool)
    ensures valid <==> !Excluded(t, excluded, key)
  {
    hide Equals;
    for i := 0 to |excluded|
      invariant forall k :: 0 <= k < i ==> !Equals(t, t.terms, excluded[k], key) &&
                                           !Equals(t, t.titleterms, excluded[k], key)
    {
      if Equals(t, t.terms, excluded[i], key) || Equals(t, t.titleterms, excluded[i], key) { return false; }
    }
    return true;
  }

  // ---------------------------------------------------------------- from the maps to the results

  lemma {:induction false} HitsArePosted(t: Tables, words: seq<string>, key: Key, w: string)
    requires w in Hits(t, words, key)
    ensures w in words && key in Posted(t, w)
  {
    var n := |words| - 1;
    assert words == words[..n] + [words[n]];
    HitsLast(t, words[..n], words[n], key);
    CountPositive(Posted(t, words[n]), key);
    hide *;
    if w in Hits(t, words[..n], key) { HitsArePosted(t, words[..n], key, w); }
    else { assert w in Repeat(words[n], Count(Posted(t, words[n]), key)); }
  }

  /** Every word listed for a file has its score there. */
  lemma FileScores(scoreMap: ScoreMap, t: Tables, words: seq<string>, file: nat, w: string)
    requires ScoresRecord(scoreMap, t, words) && w in Hits(t, words, File(file))
    ensures ScoreIn(scoreMap, File(file), w) == Some(Score(t, w, file))
  {
    HitsArePosted(t, words, File(file), w);
    PostedOccurs(t, w, file);
    InKeys(FilesOf(t.terms, w), file);
    InKeys(FilesOf(t.titleterms, w), file);
    GivenIn(scoreMap, t, words, File(file), w);
    hide ScoresRecord;
  }

  lemma GivenIn(scoreMap: ScoreMap, t: Tables, words: seq<string>, key: Key, w: string)
    requires ScoresRecord(scoreMap, t, words) && w in words
    ensures ScoreIn(scoreMap, key, w) == Given(t, key, w)
  {
  }

  lemma TextScoreKeys(t: Tables, index: Index, name: string, w: string)
    ensures Text(name) in ScoreKeys(t, index, w) <==>
            w == name && Text(name) in Posts(t, index, name) && !IsFunction(t, name)
  {
    assert Text(w) in [Text(w)];
  }

  lemma TextReached(t: Tables, name: string, w: string)
    ensures Reached(t, Text(name), w) <==> w == name && Text(name) in Posted(t, name) && !IsFunction(t, name)
  {
    TextScoreKeys(t, t.terms, name, w);
    TextScoreKeys(t, t.titleterms, name, w);
    hide ScoreKeys, Posts, IsFunction;
  }

  /** Only its own name is posted for an inherited value. */
  lemma TextPosted(t: Tables, name: string, w: string)
    requires Text(name) in Posted(t, w)
    ensures w == name && name in t.inherited
  {
  }

  /** A function has no scores; __proto__ has an object without any. */
  lemma TextScores(scoreMap: ScoreMap, t: Tables, words: seq<string>, name: string, w: string)
    requires ScoresRecord(scoreMap, t, words) && w in Hits(t, words, Text(name))
    ensures w == name && (Text(name) in scoreMap <==> !IsFunction(t, name)) && ScoreIn(scoreMap, Text(name), w).None?
  {
    HitsArePosted(t, words, Text(name), w);
    TextPosted(t, name, w);
    GivenIn(scoreMap, t, words, Text(name), w);
    TextUnrated(t, name);
    hide Posted, Hits, Reached, Given, IsFunction, ScoreIn;
    forall v ensures Reached(t, Text(name), v) <==> v == name && !IsFunction(t, name) { TextReached(t, name, v); }
  }

  lemma TextUnrated(t: Tables, name: string)
    requires name in t.inherited
    ensures Given(t, Text(name), name).None?
  {
    TextScoreKeys(t, t.terms, name, name);
    TextScoreKeys(t, t.titleterms, name, name);
    hide ScoreKeys, Posts;
  }

  /** What the loop over fileMap picks. */
  lemma PickedInMap(fileMap: FileMap, t: Tables, words: seq<string>, excluded: seq<string>, key: Key)
    requires FilesRecord(fileMap, t, words[..Known(t, words)])
    ensures Picked(t, words, excluded, key) <==>
            key in fileMap && |fileMap[key]| == |words| && !Excluded(t, excluded, key)
  {
    assert words == [] ==> Hits(t, words[..Known(t, words)], key) == [];
    hide Excluded, Known, Hits;
    assert Listed(fileMap, key) == Hits(t, words[..Known(t, words)], key);
  }

  /** The hit list for these keys: each picked one of them once, rated. */
  ghost predicate Collected(results: seq<Hit>, keys: set<Key>, t: Tables, words: seq<string>, excluded: seq<string>) {
    Once(results) &&
    (forall key :: Has(results, key) <==> key in keys && Picked(t, words, excluded, key)) &&
    (forall i :: 0 <= i < |results| ==> Rated(t, words, results[i])) &&
    forall name :: Text(name) in keys && Picked(t, words, excluded, Text(name)) ==> !IsFunction(t, name)
  }

  lemma HasOneMore(results: seq<Hit>, hit: Hit, key: Key)
    ensures Has(results + [hit], key) <==> Has(results, key) || key == hit.key
  {
    var longer := results + [hit];
    assert longer[|results|] == hit;
    if Has(results, key) {
      var i :| 0 <= i < |results| && results[i].key == key;
      assert longer[i].key == key;
    }
  }

  lemma OnceMore(results: seq<Hit>, hit: Hit)
    requires Once(results) && !Has(results, hit.key)
    ensures Once(results + [hit])
  {
  }

  lemma CollectOne(results: seq<Hit>, keys: set<Key>, t: Tables, words: seq<string>, excluded: seq<string>, hit: Hit)
    requires Collected(results, keys, t, words, excluded) && hit.key !in keys
    requires Picked(t, words, excluded, hit.key) && Rated(t, words, hit)
    requires hit.key.Text? ==> !IsFunction(t, hit.key.name)
    ensures Collected(results + [hit], keys + {hit.key}, t, words, excluded)
  {
    hide Once, Has, Picked, Rated, IsFunction;
    OnceMore(results, hit);
    forall key ensures Has(results + [hit], key) <==> key in keys + {hit.key} && Picked(t, words, excluded, key) {
      HasOneMore(results, hit, key);
    }
  }

  lemma SkipOne(results: seq<Hit>, keys: set<Key>, t: Tables, words: seq<string>, excluded: seq<string>, key: Key)
    requires Collected(results, keys, t, words, excluded) && !Picked(t, words, excluded, key)
    ensures Collected(results, keys + {key}, t, words, excluded)
  {
    hide Once, Has, Picked, Rated, IsFunction;
  }

  lemma NothingCollected(t: Tables, words: seq<string>, excluded: seq<string>)
    ensures Collected([], {}, t, words, excluded)
  {
  }

  lemma CollectedAll(results: seq<Hit>, fileMap: FileMap, t: Tables, words: seq<string>, excluded: seq<string>)
    requires FilesRecord(fileMap, t, words[..Known(t, words)])
    requires Collected(results, fileMap.Keys, t, words, excluded)
    ensures Answers(Answer(results), t, words, excluded)
  {
    hide FilesRecord, Once, Has, Picked, Rated, IsFunction;
    forall key | Picked(t, words, excluded, key) ensures key in fileMap {
      PickedInMap(fileMap, t, words, excluded, key);
    }
  }

  /** The scores read for a picked key: those of its words, or none. */
  lemma ScoresFound(fileMap: FileMap, scoreMap: ScoreMap, t: Tables, words: seq<string>, key: Key)
    requires FilesRecord(fileMap, t, words) && ScoresRecord(scoreMap, t, words) && key in fileMap
    ensures fileMap[key] != [] && fileMap[key] == Hits(t, words, key) && !key.Undefined?
    ensures key in scoreMap <==> !(key.Text? && IsFunction(t, key.name))
    ensures forall w :: w in fileMap[key] ==>
                          ScoreIn(scoreMap, key, w) == if key.File? then Some(Score(t, w, key.number)) else None
  {
    assert Listed(fileMap, key) == Hits(t, words, key);
    NeverUndefined(t, words);
    hide FilesRecord, ScoresRecord, Hits, Score, IsFunction;
    forall w | w in fileMap[key]
      ensures ScoreIn(scoreMap, key, w) == if key.File? then Some(Score(t, w, key.number)) else None
    {
      if key.File? { FileScores(scoreMap, t, words, key.number, w); }
      else { TextScores(scoreMap, t, words, key.name, w); }
    }
    var w := fileMap[key][0];
    if key.File? { assert ScoreIn(scoreMap, key, w).Some?; } else { TextScores(scoreMap, t, words, key.name, w); }
  }

  /** Rating a picked key by the highest of the scores read. */
  lemma RatedByMax(scores: map<string, int>, scoreMap: ScoreMap, t: Tables, words: seq<string>, hit: Hit)
    requires hit.key in scoreMap && scores == scoreMap[hit.key]
    requires var list := Hits(t, words[..Known(t, words)], hit.key);
             list != [] && !hit.key.Undefined? &&
             (forall w :: w in list ==> ScoreIn(scoreMap, hit.key, w) ==
                                        if hit.key.File? then Some(Score(t, w, hit.key.number)) else None) &&
             (hit.score.Some? <==> forall w :: w in list ==> w in scores) &&
             (hit.score.Some? ==> (exists w :: w in list && scores[w] == hit.score.value) &&
                                  forall w :: w in list ==> scores[w] <= hit.score.value)
    ensures Rated(t, words, hit)
  {
    var list := Hits(t, words[..Known(t, words)], hit.key);
    hide Hits, Known, Score;
    assert list[0] in list;
    if hit.key.File? {
      forall w | w in list ensures w in scores && scores[w] == Score(t, w, hit.key.number) {
        assert ScoreIn(scoreMap, hit.key, w) == Some(Score(t, w, hit.key.number));
      }
    } else {
      assert ScoreIn(scoreMap, hit.key, list[0]).None?;
    }
  }

  method PerformTermsSearch(words: seq<string>, excluded: seq<string>, t: Tables) returns (outcome: Outcome)
    ensures Answers(outcome, t, words, excluded)
    ensures excluded == [] && WellIndexed(t, words) ==> (IsBruteForce(outcome, t, words) <==> NoStray(t, words))
  {
    hide *;
    var fileMap, scoreMap := RecordTerms(words, t);
    ghost var known := words[..Known(t, words)];
    var results := [];
    var keys := fileMap.Keys;
    assert fileMap.Keys - keys == {};
    NothingCollected(t, words, excluded);
    while keys != {}
      decreases |keys|
      invariant keys <= fileMap.Keys && Collected(results, fileMap.Keys - keys, t, words, excluded)
    {
      var key :| key in keys;
      ghost var done := fileMap.Keys - keys;
      keys := keys - {key};
      assert fileMap.Keys - keys == done + {key};
      PickedInMap(fileMap, t, words, excluded, key);
      if |fileMap[key]| == |words| {
        var valid := Admits(t, excluded, key);
        if valid {
          ScoresFound(fileMap, scoreMap, t, known, key);
          if key !in scoreMap {
            ItThrows(t, words, excluded, key);
            return Throws;
          }
          var score := MaxScore(fileMap[key], scoreMap[key]);
          RatedByMax(scoreMap[key], scoreMap, t, words, Hit(key, score));
          CollectOne(results, done, t, words, excluded, Hit(key, score));
          results := results + [Hit(key, score)];
        } else {
          SkipOne(results, done, t, words, excluded, key);
        }
      } else {
        SkipOne(results, done, t, words, excluded, key);
      }
    }
    assert fileMap.Keys - keys == fileMap.Keys;
    CollectedAll(results, fileMap, t, words, excluded);
    outcome := Answer(results);
    if WellIndexed(t, words) && excluded == [] { AnswersAreBruteForce(outcome, t, words); }
  }

  lemma ItThrows(t: Tables, words: seq<string>, excluded: seq<string>, key: Key)
    requires key.Text? && IsFunction(t, key.name) && Picked(t, words, excluded, key)
    ensures Answers(Throws, t, words, excluded)
    ensures excluded == [] && WellIndexed(t, words) ==> (IsBruteForce(Throws, t, words) <==> NoStray(t, words))
  {
    assert key == Text(key.name);
    hide *;
    if WellIndexed(t, words) && excluded == [] { AnswersAreBruteForce(Throws, t, words); }
  }

  /** The index {constructor: 0} is well made and lists file 0 for that word, but searching for it throws. */
  lemma InheritedNameThrows(outcome: Outcome)
    requires var t := Data(map["constructor" := One(0)], map[], map["constructor" := Function(1)]);
             Answers(outcome, t, ["constructor"], [])
    ensures var t := Data(map["constructor" := One(0)], map[], map["constructor" := Function(1)]);
            WellIndexed(t, ["constructor"]) && HasAll(t, ["constructor"], 0) && outcome == Throws
  {
    var t: Tables := Data(map["constructor" := One(0)], map[], map["constructor" := Function(1)]);
    assert FilesOf(t.terms, "constructor") == [0] && FilesOf(t.titleterms, "constructor") == [];
    InheritedOnce(t, "constructor");
    NoneExcluded(t, ["constructor"]);
    hide Picked, Counted;
    assert IsFunction(t, "constructor") && Picked(t, ["constructor"], [], Text("constructor"));
  }
}
