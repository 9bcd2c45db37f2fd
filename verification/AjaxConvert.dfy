/**
 ajaxConvert: bring a response through a list of data types, by direct converters or by pairs.
*/
module AjaxConvert {
  import opened Lists

  // A converter's key is read as a typed arrow, and the value true as "nothing to do".

  /** "*" or a name */
  datatype DataType = Any | Named(name: string)

  /** The empty name, which is falsy: the loop stops there. */
  const NAMELESS := Named("")

  /**
   "src dst", the key's first two words, and any words behind them, as a space at the end makes one.  Keys of one word
   are never found.
  */
  datatype Key = Key(src: DataType, dst: DataType, more: seq<string>)

  /** The key of a direct converter. */
  function Direct(src: DataType, dst: DataType): Key {
    Key(src, dst, [])
  }

  /** A converter function, true, or a falsy value. */
  datatype Converter = Function(id: nat) | Same | Off

  datatype Entry = Entry(key: Key, value: Converter)

  /** The converters map, in the order for-in meets its keys. */
  type Converters = seq<Entry>

  /** The response as it came in, or the outcome of the converter under this key. */
  datatype Response = Raw(dataType: DataType) | Converted(key: Key, from: Response)

  function Origin(r: Response): DataType {
    match r
    case Raw(t) => t
    case Converted(_, from) => Origin(from)
  }

  /** Every converter in r accepted what it was given. */
  predicate Worked(works: (Key, Response) -> bool, r: Response) {
    r.Converted? ==> works(r.key, r.from) && Worked(works, r.from)
  }

  function TypeOf(r: Response): DataType {
    match r
    case Raw(t) => t
    case Converted(key, _) => key.dst
  }

  // ---------------------------------------------------------------- looking converters up

  function Lookup(cs: Converters, key: Key): (c: Converter)
    ensures c != Off ==> Entry(key, c) in cs
  {
    if cs == [] then Off
    else if cs[|cs| - 1].key == key then cs[|cs| - 1].value
    else Lookup(cs[..|cs| - 1], key)
  }

  /** Which key serves for src to dst: its own, else the one from "*". */
  function ArrowKey(cs: Converters, src: DataType, dst: DataType): (key: Key)
    ensures key.dst == dst && (key.src == src || key.src == Any)
  {
    if Lookup(cs, Direct(src, dst)) != Off then Direct(src, dst) else Direct(Any, dst)
  }

  /** The converter for src to dst, or the one for anything to dst. */
  function Arrow(cs: Converters, src: DataType, dst: DataType): Converter {
    Lookup(cs, ArrowKey(cs, src, dst))
  }

  /** The first key from i on that ends in dst and whose source can be reached from src. */
  function FirstPair(cs: Converters, src: DataType, dst: DataType, i: nat): Option<nat>
    requires i <= |cs|
    decreases |cs| - i
  {
    if i == |cs| then None
    else if cs[i].key.dst == dst && Arrow(cs, src, cs[i].key.src) != Off then Some(i)
    else FirstPair(cs, src, dst, i + 1)
  }

  lemma {:induction false} FirstPairMeans(cs: Converters, src: DataType, dst: DataType, i: nat)
    requires i <= |cs|
    ensures var p := FirstPair(cs, src, dst, i);
            && (p.Some? ==>
                  i <= p.value < |cs| && cs[p.value].key.dst == dst && Arrow(cs, src, cs[p.value].key.src) != Off)
            && (p.None? ==> forall k :: i <= k < |cs| && cs[k].key.dst == dst ==> Arrow(cs, src, cs[k].key.src) == Off)
    decreases |cs| - i
  {
    if i < |cs| { FirstPairMeans(cs, src, dst, i + 1); }
  }

  /**
   What an iteration does: apply the converter under `key` (None: nothing, or nothing found) and go on from
   `current`.
  */
  datatype Choice = Choice(conv: Converter, key: Key, current: DataType, again: bool)

  /** The search of one iteration, for prev != current, neither of them "*". */
  function Choose(cs: Converters, prev: DataType, current: DataType): Choice {
    var direct := Arrow(cs, prev, current);
    if direct != Off then Choice(direct, ArrowKey(cs, prev, current), current, false)
    else
      var pair := FirstPair(cs, prev, current, 0);
      if pair.None? then Choice(Off, Direct(prev, current), current, false)
      else
        FirstPairMeans(cs, prev, current, 0);
        var mid := cs[pair.value].key.src;
        var first, second := Arrow(cs, prev, mid), Lookup(cs, cs[pair.value].key);
        if first == Same then Choice(second, cs[pair.value].key, current, false)
        else if second != Same then Choice(first, ArrowKey(cs, prev, mid), mid, true)
        else Choice(first, ArrowKey(cs, prev, mid), current, false)
  }

  // ---------------------------------------------------------------- which converter it is

  /** A map's keys do not repeat. */
  ghost predicate Proper(cs: Converters) {
    forall i, j :: 0 <= i < j < |cs| ==> cs[i].key != cs[j].key
  }

  lemma {:induction false} LookupFinds(cs: Converters, key: Key, c: Converter)
    requires Proper(cs) && c != Off
    ensures Lookup(cs, key) == c <==> Entry(key, c) in cs
  {
    if cs != [] {
      var n := |cs| - 1;
      LookupFinds(cs[..n], key, c);
      assert cs == cs[..n] + [cs[n]];
    }
  }

  /** c under this key serves to get from src to dst: under "src dst" if there is anything, else under "* dst". */
  ghost predicate Serves(cs: Converters, src: DataType, dst: DataType, key: Key, c: Converter) {
    && c != Off && Entry(key, c) in cs
    && (key == Direct(src, dst) ||
        (key == Direct(Any, dst) && forall c' :: c' != Off ==> Entry(Direct(src, dst), c') !in cs))
  }

  lemma ArrowServes(cs: Converters, src: DataType, dst: DataType)
    requires Proper(cs)
    ensures forall key, c :: Serves(cs, src, dst, key, c) <==>
                               Arrow(cs, src, dst) == c != Off && ArrowKey(cs, src, dst) == key
  {
    forall key, c ensures c != Off ==> (Lookup(cs, key) == c <==> Entry(key, c) in cs) {
      if c != Off { LookupFinds(cs, key, c); }
    }
    hide Lookup;
  }

  /** Entry k ends in dst and begins where something leads to from src. */
  ghost predicate Usable(cs: Converters, src: DataType, dst: DataType, k: nat)
    requires k < |cs|
  {
    cs[k].key.dst == dst && exists key, c :: Serves(cs, src, cs[k].key.src, key, c)
  }

  /**
   A converter under "src dst" or else "* dst" is chosen before any pair; of the pairs the first one is, in the order of
   the keys.  An equivalence in it stands for nothing: the other half is the whole way.  Otherwise its first half is
   taken, and the target comes again.
  */
  lemma ChoiceIsFirst(cs: Converters, src: DataType, dst: DataType)
    requires Proper(cs)
    ensures var c := Choose(cs, src, dst);
            && (forall key, conv :: Serves(cs, src, dst, key, conv) ==> c == Choice(conv, key, dst, false))
            && ((forall key, conv :: !Serves(cs, src, dst, key, conv)) ==>
                  && ((forall k :: 0 <= k < |cs| ==> !Usable(cs, src, dst, k)) ==> c.conv == Off)
                  && forall k, key, conv ::
                       0 <= k < |cs| && cs[k].key.dst == dst && (forall j :: 0 <= j < k ==> !Usable(cs, src, dst, j)) &&
                       Serves(cs, src, cs[k].key.src, key, conv) ==>
                         if conv == Same then c == Choice(cs[k].value, cs[k].key, dst, false)
                         else if cs[k].value == Same then c == Choice(conv, key, dst, false)
                         else c == Choice(conv, key, cs[k].key.src, true))
  {
    ArrowServes(cs, src, dst);
    NoneServes(cs, src, dst);
    FirstPairMeans(cs, src, dst, 0);
    if FirstPair(cs, src, dst, 0).Some? { NoneBeforeFirst(cs, src, dst, 0); }
    hide Lookup, ArrowKey, Serves, Usable, FirstPair, Arrow, Proper;
    forall k | 0 <= k < |cs| ensures Lookup(cs, cs[k].key) == cs[k].value { ProperKey(cs, k); }
    forall k | 0 <= k < |cs|
      ensures Usable(cs, src, dst, k) <==> cs[k].key.dst == dst && Arrow(cs, src, cs[k].key.src) != Off
      ensures forall key, conv :: Serves(cs, src, cs[k].key.src, key, conv) ==>
                Arrow(cs, src, cs[k].key.src) == conv != Off && ArrowKey(cs, src, cs[k].key.src) == key
    {
      ArrowServes(cs, src, cs[k].key.src);
      UsableIf(cs, src, dst, k);
    }
  }

  lemma ProperKey(cs: Converters, k: nat)
    requires Proper(cs) && k < |cs|
    ensures Lookup(cs, cs[k].key) == cs[k].value
  {
    ProperLookup(cs, k);
    hide Lookup;
  }

  lemma NoneServes(cs: Converters, src: DataType, dst: DataType)
    requires Proper(cs)
    ensures (forall key, conv :: !Serves(cs, src, dst, key, conv)) ==> Arrow(cs, src, dst) == Off
  {
    ArrowServes(cs, src, dst);
    hide Lookup, ArrowKey, Serves;
    if Arrow(cs, src, dst) != Off { assert Serves(cs, src, dst, ArrowKey(cs, src, dst), Arrow(cs, src, dst)); }
  }

  lemma UsableIf(cs: Converters, src: DataType, dst: DataType, k: nat)
    requires Proper(cs) && k < |cs|
    ensures Usable(cs, src, dst, k) <==> cs[k].key.dst == dst && Arrow(cs, src, cs[k].key.src) != Off
  {
    var mid := cs[k].key.src;
    ArrowServes(cs, src, mid);
    hide Serves, Lookup, ArrowKey;
    assert Serves(cs, src, mid, ArrowKey(cs, src, mid), Arrow(cs, src, mid)) <==> Arrow(cs, src, mid) != Off;
  }

  // ---------------------------------------------------------------- typing

  /** true under a key for src or "*" makes a src a dst as it stands; what a converter calls "*" passes for anything. */
  predicate Passes(cs: Converters, src: DataType, dst: DataType) {
    src == dst || src == Any ||
    exists i :: 0 <= i < |cs| && (cs[i].key.src == src || cs[i].key.src == Any) && cs[i].key.dst == dst &&
                Lookup(cs, cs[i].key) == Same
  }

  ghost predicate Chain(cs: Converters, ts: seq<DataType>) {
    ts != [] && forall i :: 0 <= i < |ts| - 1 ==> Passes(cs, ts[i], ts[i + 1])
  }

  /** r counts as a t, through any number of entries that are true. */
  ghost predicate HasType(cs: Converters, r: Response, t: DataType) {
    exists ts :: Chain(cs, ts) && ts[0] == TypeOf(r) && ts[|ts| - 1] == t
  }

  /** Every converter was given what its key says it takes. */
  ghost predicate WellTyped(cs: Converters, r: Response)
    decreases r
  {
    r.Converted? ==>
      (r.key.src == Any || HasType(cs, r.from, r.key.src)) && Lookup(cs, r.key).Function? && WellTyped(cs, r.from)
  }

  lemma TypeItself(cs: Converters, r: Response)
    ensures HasType(cs, r, TypeOf(r))
  {
    assert Chain(cs, [TypeOf(r)]);
  }

  lemma TypePasses(cs: Converters, r: Response, s: DataType, t: DataType)
    requires HasType(cs, r, s) && Passes(cs, s, t)
    ensures HasType(cs, r, t)
  {
    var ts :| Chain(cs, ts) && ts[0] == TypeOf(r) && ts[|ts| - 1] == s;
    var longer := ts + [t];
    forall i | 0 <= i < |longer| - 1 ensures Passes(cs, longer[i], longer[i + 1]) {
      if i < |ts| - 1 { assert Passes(cs, ts[i], ts[i + 1]); }
    }
    assert Chain(cs, longer);
  }

  /**
   Nothing leads from src to dst, in one step or two; or the first pair that could is an equivalence and a falsy
   entry.
  */
  ghost predicate NoWay(cs: Converters, src: DataType, dst: DataType) {
    Arrow(cs, src, dst) == Off &&
    forall k :: 0 <= k < |cs| && cs[k].key.dst == dst && Arrow(cs, src, cs[k].key.src) != Off ==>
                  exists l :: 0 <= l <= k && cs[l].key.dst == dst && Arrow(cs, src, cs[l].key.src) == Same &&
                              Lookup(cs, cs[l].key) == Off
  }

  /** What an iteration chooses is well typed; it chooses nothing only if there is no way. */
  lemma {:induction false} ChoiceIsTyped(cs: Converters, prev: DataType, current: DataType, r: Response)
    requires WellTyped(cs, r) && HasType(cs, r, prev)
    ensures var c := Choose(cs, prev, current);
            match c.conv
            case Function(_) =>
              Lookup(cs, c.key).Function? && WellTyped(cs, Converted(c.key, r)) &&
              HasType(cs, Converted(c.key, r), c.current)
            case Same => HasType(cs, r, c.current)
            case Off => NoWay(cs, prev, current)
    ensures var c := Choose(cs, prev, current); !c.again ==> c.current == current
  {
    var c := Choose(cs, prev, current);
    if Arrow(cs, prev, current) != Off {
      if c.conv.Function? { TypeItself(cs, Converted(c.key, r)); } else { TypePasses(cs, r, prev, current); }
    } else {
      FirstPairMeans(cs, prev, current, 0);
      var pair := FirstPair(cs, prev, current, 0);
      if pair.Some? {
        NoneBeforeFirst(cs, prev, current, 0);
        var mid := cs[pair.value].key.src;
        var first := Arrow(cs, prev, mid);
        if first == Same {
          TypePasses(cs, r, prev, mid);
          if c.conv == Same { TypePasses(cs, r, mid, current); }
          else if c.conv.Function? { TypeItself(cs, Converted(c.key, r)); }
        } else {
          TypeItself(cs, Converted(c.key, r));
          if !c.again { TypePasses(cs, Converted(c.key, r), mid, current); }
        }
      }
    }
  }

  lemma {:induction false} NoneBeforeFirst(cs: Converters, src: DataType, dst: DataType, i: nat)
    requires i <= |cs| && FirstPair(cs, src, dst, i).Some?
    ensures forall k :: i <= k < FirstPair(cs, src, dst, i).value && k < |cs| && cs[k].key.dst == dst ==>
              Arrow(cs, src, cs[k].key.src) == Off
    decreases |cs| - i
  {
    if !(cs[i].key.dst == dst && Arrow(cs, src, cs[i].key.src) != Off) { NoneBeforeFirst(cs, src, dst, i + 1); }
  }

  // ---------------------------------------------------------------- detours

  /** On the way from prev to target, the type an iteration converts to first, putting the target back. */
  function Detour(cs: Converters, target: DataType, prev: DataType): Option<DataType> {
    if target == Any || prev == Any || prev == target || target == NAMELESS || prev == NAMELESS then None
    else if !Choose(cs, prev, target).again then None
    else Some(Choose(cs, prev, target).current)
  }

  /** Each detour leads to the next. */
  ghost predicate Detours(cs: Converters, target: DataType, types: seq<DataType>) {
    forall i :: 0 <= i < |types| - 1 ==> Detour(cs, target, types[i]) == Some(types[i + 1])
  }

  /** And the last one back to the first. */
  ghost predicate Cycle(cs: Converters, target: DataType, types: seq<DataType>) {
    types != [] && Detours(cs, target, types) && Detour(cs, target, types[|types| - 1]) == Some(types[0])
  }

  ghost predicate NoCycle(cs: Converters) {
    forall target, types :: !Cycle(cs, target, types)
  }

  lemma DetourMeans(cs: Converters, target: DataType, prev: DataType)
    requires Detour(cs, target, prev).Some?
    ensures var next := Detour(cs, target, prev).value;
            Arrow(cs, prev, target) == Off && Arrow(cs, prev, next).Function? &&
            exists i :: 0 <= i < |cs| && cs[i].key.src == next && cs[i].key.dst == target
  {
    FirstPairMeans(cs, prev, target, 0);
    hide Lookup, ArrowKey;
  }

  lemma NoneDirect(cs: Converters, src: DataType, dst: DataType)
    requires Arrow(cs, src, dst) == Off
    ensures Lookup(cs, Direct(src, dst)) == Off
  {
    hide Lookup;
  }

  lemma CycleLink(cs: Converters, target: DataType, types: seq<DataType>, i: nat, j: nat)
    requires Cycle(cs, target, types) && i < |types| && j == (if i + 1 < |types| then i + 1 else 0)
    ensures Detour(cs, target, types[i]) == Some(types[j])
  {
    hide Detour;
  }

  /**
   The types of a cycle are joined by converter functions, and each begins a key for the target but has no direct
   converter to it: the key has a falsy entry, or further words that keep the lookup from finding it.
  */
  lemma CycleIsFalsy(cs: Converters, target: DataType, types: seq<DataType>, i: nat, j: nat)
    requires Cycle(cs, target, types) && i < |types| && j == (if i + 1 < |types| then i + 1 else 0)
    ensures Lookup(cs, Direct(types[j], target)) == Off
    ensures exists k :: 0 <= k < |cs| && cs[k].key.src == types[j] && cs[k].key.dst == target &&
                        (Lookup(cs, cs[k].key) == Off || cs[k].key.more != [])
    ensures Arrow(cs, types[i], types[j]).Function?
  {
    CycleLink(cs, target, types, i, j);
    CycleLink(cs, target, types, j, if j + 1 < |types| then j + 1 else 0);
    DetourMeans(cs, target, types[i]);
    DetourMeans(cs, target, types[j]);
    NoneDirect(cs, types[j], target);
    var k :| 0 <= k < |cs| && cs[k].key.src == types[j] && cs[k].key.dst == target;
    assert cs[k].key.more == [] ==> cs[k].key == Direct(types[j], target);
    hide *;
  }

  ghost function Sources(cs: Converters): (s: set<DataType>)
    ensures |s| <= |cs|
    ensures forall i :: 0 <= i < |cs| ==> cs[i].key.src in s
  {
    if cs == [] then {} else Sources(cs[..|cs| - 1]) + {cs[|cs| - 1].key.src}
  }

  lemma {:induction false} Pigeonhole(s: set<DataType>, types: seq<DataType>)
    requires forall i :: 0 <= i < |types| ==> types[i] in s
    requires forall i, j :: 0 <= i < j < |types| ==> types[i] != types[j]
    ensures |types| <= |s|
  {
    if types != [] {
      var n := |types| - 1;
      Pigeonhole(s - {types[n]}, types[..n]);
    }
  }

  /** Without a cycle no type comes twice, so there are not many detours. */
  lemma FewDetours(cs: Converters, target: DataType, types: seq<DataType>)
    requires NoCycle(cs) && Detours(cs, target, types)
    ensures |types| <= |cs| + 1
  {
    forall i, j | 0 <= i < j < |types| ensures types[i] != types[j] {
      var part := types[i..j];
      if types[i] == types[j] { assert Cycle(cs, target, part); }
    }
    if types != [] {
      var rest := types[1..];
      forall i | 0 <= i < |rest| ensures rest[i] in Sources(cs) {
        assert Detour(cs, target, types[i]) == Some(types[i + 1]);
        DetourMeans(cs, target, types[i]);
      }
      Pigeonhole(Sources(cs), rest);
    }
  }

  // ---------------------------------------------------------------- the loop's course

  /** Where the loop stands: the type reached, and those to come. */
  datatype Loop = Loop(current: DataType, todo: seq<DataType>)

  /** One iteration with converters that do not throw; None once the loop is left. */
  function Step(cs: Converters, s: Loop): Option<Loop> {
    if s.todo == [] || s.current == NAMELESS then None
    else
      var target, rest := s.todo[0], s.todo[1..];
      if target == NAMELESS then Some(Loop(target, rest))
      else if target == Any then Some(Loop(s.current, rest))
      else if s.current == Any || s.current == target then Some(Loop(target, rest))
      else
        var c := Choose(cs, s.current, target);
        if c.conv == Off then None
        else if c.again then Some(Loop(c.current, s.todo))
        else Some(Loop(target, rest))
  }

  function After(cs: Converters, s: Loop, n: nat): Option<Loop> {
    if n == 0 then Some(s)
    else match After(cs, s, n - 1) case None => None case Some(s') => Step(cs, s')
  }

  ghost predicate Ends(cs: Converters, s: Loop) {
    exists n: nat :: After(cs, s, n).None?
  }

  ghost function Bound(cs: Converters, s: Loop): (n: nat)
    requires Ends(cs, s)
    ensures After(cs, s, n).None?
  {
    var n: nat :| After(cs, s, n).None?; n
  }

  lemma {:induction false} AfterFirst(cs: Converters, s: Loop, n: nat)
    requires Step(cs, s).Some?
    ensures After(cs, s, n + 1) == After(cs, Step(cs, s).value, n)
  {
    if n > 0 { AfterFirst(cs, s, n - 1); }
  }

  /** `seen` are the detours made for the type that is to come next. */
  ghost predicate OnDetour(cs: Converters, s: Loop, seen: seq<DataType>) {
    seen != [] && seen[|seen| - 1] == s.current && (s.todo != [] ==> Detours(cs, s.todo[0], seen))
  }

  lemma StepDetours(cs: Converters, s: Loop, seen: seq<DataType>)
    requires OnDetour(cs, s, seen) && Step(cs, s).Some?
    ensures var s' := Step(cs, s).value;
            if |s'.todo| < |s.todo| then OnDetour(cs, s', [s'.current])
            else s'.todo == s.todo && OnDetour(cs, s', seen + [s'.current])
  {
    var s', longer := Step(cs, s).value, seen + [Step(cs, s).value.current];
    if |s'.todo| == |s.todo| {
      assert Detour(cs, s.todo[0], s.current) == Some(s'.current);
      forall i | 0 <= i < |longer| - 1 ensures Detour(cs, s.todo[0], longer[i]) == Some(longer[i + 1]) {
        assert longer[i] == seen[i] && (i + 1 < |seen| ==> longer[i + 1] == seen[i + 1]);
      }
    }
  }

  lemma {:induction false} EndsWithoutCycle(cs: Converters, s: Loop, seen: seq<DataType>) returns (n: nat)
    requires NoCycle(cs) && OnDetour(cs, s, seen)
    ensures After(cs, s, n).None?
    decreases |s.todo|, |cs| + 1 - |seen|
  {
    hide Choose, Cycle, Detour;
    if Step(cs, s).None? {
      n := 1;
      assert After(cs, s, 0) == Some(s);
    } else {
      var s' := Step(cs, s).value;
      StepDetours(cs, s, seen);
      if |s'.todo| < |s.todo| {
        n := EndsWithoutCycle(cs, s', [s'.current]);
      } else {
        FewDetours(cs, s.todo[0], seen + [s'.current]);
        n := EndsWithoutCycle(cs, s', seen + [s'.current]);
      }
      AfterFirst(cs, s, n);
      n := n + 1;
    }
  }

  /** Round a cycle the loop goes for ever. */
  lemma {:induction false} CycleGoesOn(cs: Converters, target: DataType, types: seq<DataType>, n: nat) returns (i: nat)
    requires Cycle(cs, target, types)
    ensures i < |types| && After(cs, Loop(types[0], [target]), n) == Some(Loop(types[i], [target]))
  {
    if n == 0 {
      i := 0;
    } else {
      var before := CycleGoesOn(cs, target, types, n - 1);
      i := if before + 1 < |types| then before + 1 else 0;
      assert Detour(cs, target, types[before]) == Some(types[i]);
      DetourConverts(cs, target, types[before]);
      hide Choose, Cycle;
    }
  }

  lemma DetourConverts(cs: Converters, target: DataType, prev: DataType)
    requires Detour(cs, target, prev).Some?
    ensures Choose(cs, prev, target).conv != Off
  {
    FirstPairMeans(cs, prev, target, 0);
  }

  /**
   The loop ends for all lists of data types, whatever its converters do, exactly when no target has a cycle of
   detours; a converter that throws only ends it earlier.
  */
  lemma EndsExactlyWithoutCycles(cs: Converters)
    ensures (forall s :: Ends(cs, s)) <==> NoCycle(cs)
  {
    hide Choose, Detour, Step;
    if NoCycle(cs) {
      forall s ensures Ends(cs, s) { var n := EndsWithoutCycle(cs, s, [s.current]); }
    }
    if target, types :| Cycle(cs, target, types) {
      var s := Loop(types[0], [target]);
      forall n: nat ensures After(cs, s, n).Some? { var i := CycleGoesOn(cs, target, types, n); }
      assert !Ends(cs, s);
    }
  }

  /** With functions and true only, under keys of two words, there is none. */
  lemma ProperHasNoCycle(cs: Converters)
    requires forall i :: 0 <= i < |cs| ==> cs[i].value != Off && cs[i].key.more == []
    requires forall i, j :: 0 <= i < j < |cs| ==> cs[i].key != cs[j].key
    ensures NoCycle(cs)
  {
    forall target, types ensures !Cycle(cs, target, types) {
      if Cycle(cs, target, types) {
        CycleIsFalsy(cs, target, types, |types| - 1, 0);
        hide Cycle, Lookup;
        var k :| 0 <= k < |cs| && cs[k].key.src == types[0] && cs[k].key.dst == target &&
                 (Lookup(cs, cs[k].key) == Off || cs[k].key.more != []);
        ProperLookup(cs, k);
        assert false;
      }
    }
  }

  lemma {:induction false} ProperLookup(cs: Converters, k: nat)
    requires k < |cs| && forall i, j :: 0 <= i < j < |cs| ==> cs[i].key != cs[j].key
    ensures Lookup(cs, cs[k].key) == cs[k].value
  {
    if k < |cs| - 1 { ProperLookup(cs[..|cs| - 1], k); }
  }

  // ---------------------------------------------------------------- ajaxConvert

  datatype Failure = NoConversion(src: DataType, dst: DataType) | ConverterThrew(key: Key)

  datatype Outcome = Success(data: Response) | ParserError(error: Failure) | Throws(error: Failure)

  /** The last type asked for, "*" meaning whatever came before it. */
  function Requested(ts: seq<DataType>): DataType {
    if ts == [] then Any
    else if ts[|ts| - 1] == Any then Requested(ts[..|ts| - 1])
    else ts[|ts| - 1]
  }

  /** The same, seen from where the loop stands. */
  function Goal(current: DataType, todo: seq<DataType>): DataType
    decreases |todo|
  {
    if todo == [] then current else Goal(if todo[0] == Any then current else todo[0], todo[1..])
  }

  /** The first type named: a response of unknown type "*" counts as that. */
  function Source(ts: seq<DataType>): DataType {
    if ts == [] then Any else if ts[0] == Any then Source(ts[1..]) else ts[0]
  }

  /** The last type named, and the first. */
  lemma {:induction false} NamedTypes(ts: seq<DataType>, k: nat)
    requires k < |ts| && ts[k] != Any
    ensures (forall j :: k < j < |ts| ==> ts[j] == Any) ==> Requested(ts) == ts[k]
    ensures (forall j :: 0 <= j < k ==> ts[j] == Any) ==> Source(ts) == ts[k]
    decreases |ts|
  {
    if k < |ts| - 1 { NamedTypesInit(ts, k); }
    if k > 0 {
      NamedTypes(ts[1..], k - 1);
      if forall j :: 0 <= j < k ==> ts[j] == Any {
        assert forall j :: 0 <= j < k - 1 ==> ts[1..][j] == ts[j + 1];
      }
    }
  }

  lemma {:induction false} NamedTypesInit(ts: seq<DataType>, k: nat)
    requires k < |ts| && ts[k] != Any
    ensures (forall j :: k < j < |ts| ==> ts[j] == Any) ==> Requested(ts) == ts[k]
  {
    if k < |ts| - 1 { NamedTypesInit(ts[..|ts| - 1], k); }
  }

  lemma {:induction false} GoalIsRequested(current: DataType, todo: seq<DataType>)
    ensures Goal(current, todo) == Requested([current] + todo)
    decreases |todo|
  {
    if todo == [] {
      assert [current] + todo == [current];
    } else if todo[0] == Any {
      GoalIsRequested(current, todo[1..]);
      AnyChangesNothing(current, todo[1..]);
      assert [current] + todo == [current, Any] + todo[1..];
    } else {
      GoalIsRequested(todo[0], todo[1..]);
      HeadChangesNothing(current, todo);
      assert [todo[0]] + todo[1..] == todo;
    }
  }

  lemma {:induction false} AnyChangesNothing(current: DataType, ts: seq<DataType>)
    ensures Requested([current, Any] + ts) == Requested([current] + ts)
  {
    var a, b, n := [current, Any] + ts, [current] + ts, |ts| - 1;
    if ts == [] {
      assert a[..1] == [current] && b == [current] && b[..0] == [];
    } else {
      AnyChangesNothing(current, ts[..n]);
      assert a[..|a| - 1] == [current, Any] + ts[..n] && b[..|b| - 1] == [current] + ts[..n];
    }
  }

  lemma {:induction false} HeadChangesNothing(current: DataType, ts: seq<DataType>)
    requires ts != [] && ts[0] != Any
    ensures Requested([current] + ts) == Requested(ts)
  {
    var a, n := [current] + ts, |ts| - 1;
    if ts[n] == Any {
      HeadChangesNothing(current, ts[..n]);
      assert a[..|a| - 1] == [current] + ts[..n];
    }
  }

  /** The for-in search for a pair */
  method SeekPair(cs: Converters, prev: DataType, current: DataType) returns (pair: Option<nat>)
    ensures pair == FirstPair(cs, prev, current, 0)
  {
    var i := 0;
    while i < |cs|
      invariant 0 <= i <= |cs| && FirstPair(cs, prev, current, 0) == FirstPair(cs, prev, current, i)
    {
      if cs[i].key.dst == current && Arrow(cs, prev, cs[i].key.src) != Off { return Some(i); }
      i := i + 1;
    }
    pair := None;
  }

  /** Looking for a converter, direct or as half of a pair */
  method Search(cs: Converters, prev: DataType, current: DataType) returns (c: Choice)
    ensures c == Choose(cs, prev, current)
  {
    c := Choice(Arrow(cs, prev, current), ArrowKey(cs, prev, current), current, false);
    if c.conv == Off {
      c := Choice(Off, Direct(prev, current), current, false);
      var pair := SeekPair(cs, prev, current);
      FirstPairMeans(cs, prev, current, 0);
      if pair.Some? {
        var mid := cs[pair.value].key.src;
        c := Choice(Arrow(cs, prev, mid), ArrowKey(cs, prev, mid), current, false);
        if c.conv == Same {
          c := Choice(Lookup(cs, cs[pair.value].key), cs[pair.value].key, current, false);
        } else if Lookup(cs, cs[pair.value].key) != Same {
          c := c.(current := mid, again := true);
        }
      }
    }
  }

  /** Some step fails: there is no way from src to dst, or the chosen converter threw. */
  ghost predicate Explains(cs: Converters, works: (Key, Response) -> bool, failure: Failure) {
    match failure
    case NoConversion(src, dst) => NoWay(cs, src, dst)
    case ConverterThrew(key) =>
      Lookup(cs, key).Function? && exists r :: WellTyped(cs, Converted(key, r)) && !works(key, r)
  }

  /** The conversion of one iteration, for types that differ; `again` asks to put the target back on the list */
  method ConvertStep(cs: Converters, prev: DataType, target: DataType, response: Response,
                     works: (Key, Response) -> bool)
    returns (next: DataType, again: bool, converted: Response, failure: Option<Failure>)
    requires WellTyped(cs, response) && HasType(cs, response, prev)
    ensures failure.None? ==> WellTyped(cs, converted) && HasType(cs, converted, next)
    ensures failure.None? ==>
              Origin(converted) == Origin(response) && (Worked(works, response) ==> Worked(works, converted))
    ensures failure.Some? ==> Explains(cs, works, failure.value)
    ensures failure.None? ==> var c := Choose(cs, prev, target); c.conv != Off && next == c.current && again == c.again
    ensures !again ==> next == target
  {
    ChoiceIsTyped(cs, prev, target, response);
    hide WellTyped, HasType, Choose, FirstPair, NoWay;
    var c := Search(cs, prev, target);
    next, again, converted, failure := c.current, c.again, response, None;
    if c.conv == Off {
      failure := Some(NoConversion(prev, target));
    } else if c.conv != Same {
      if !works(c.key, response) {
        failure := Some(ConverterThrew(c.key));
      } else {
        converted := Converted(c.key, response);
      }
    }
  }

  /**
   What holds of the response between iterations: a leading "*" leaves it to count as the first type named; nothing
   is known of its type once the loop stops at an empty name.
  */
  ghost predicate Typed(cs: Converters, works: (Key, Response) -> bool, r: Response, s: Loop, source: DataType) {
    Origin(r) == source && Worked(works, r) && WellTyped(cs, r) &&
    (HasType(cs, r, s.current) || s.current == NAMELESS || (s.current == Any && r == Raw(Source(s.todo))))
  }

  /** No empty name is asked for or led to. */
  predicate AllNamed(cs: Converters, s: Loop) {
    s.current != NAMELESS && NAMELESS !in s.todo && forall k :: 0 <= k < |cs| ==> cs[k].key.src != NAMELESS
  }

  lemma StaysNamed(cs: Converters, s: Loop)
    requires AllNamed(cs, s) && Step(cs, s).Some?
    ensures AllNamed(cs, Step(cs, s).value)
  {
    if s.todo[0] != Any && s.current != Any && s.current != s.todo[0] { FirstPairMeans(cs, s.current, s.todo[0], 0); }
    hide Lookup, ArrowKey, FirstPair;
  }

  /** One iteration. */
  method Iterate(cs: Converters, s: Loop, response: Response, works: (Key, Response) -> bool, ghost source: DataType)
    returns (s': Loop, converted: Response, failure: Option<Failure>)
    requires s.todo != [] && s.current != NAMELESS && Typed(cs, works, response, s, source)
    ensures failure.None? ==> Step(cs, s) == Some(s') && Typed(cs, works, converted, s', source)
    ensures failure.Some? ==> Explains(cs, works, failure.value)
  {
    hide WellTyped, HasType, Explains, Worked, Choose, Passes;
    s', converted, failure := s, response, None;
    TypeItself(cs, response);
    var prev, current, todo := s.current, s.todo[0], s.todo[1..];
    assert [current] + todo == s.todo;
    if current == NAMELESS {
    } else if current == Any {
      current := prev;
    } else if prev == Any {
      AnyPasses(cs, response, current);
    } else if prev != current {
      var next, again;
      next, again, converted, failure := ConvertStep(cs, prev, current, response, works);
      if failure.Some? { return; }
      if again { todo := [current] + todo; }
      current := next;
    }
    s' := Loop(current, todo);
  }

  /** The loop, from a start it leaves. */
  method RunLoop(cs: Converters, start: Loop, raw: Response, throws: bool, works: (Key, Response) -> bool,
                 ghost source: DataType) returns (result: Outcome)
    requires Ends(cs, start) && Typed(cs, works, raw, start, source)
    ensures result.Success? ==> Origin(result.data) == source && Worked(works, result.data)
    ensures result.Success? ==> WellTyped(cs, result.data)
    ensures result.Success? && AllNamed(cs, start) ==> HasType(cs, result.data, Goal(start.current, start.todo))
    ensures !result.Success? ==>
              Explains(cs, works, result.error) && (result.Throws? <==> throws && result.error.ConverterThrew?)
  {
    hide *;
    AfterNone(cs, start);
    ghost var n := Bound(cs, start);
    var s, response := start, raw;
    ghost var k: nat := 0;
    while s.todo != [] && s.current != NAMELESS
      invariant AllNamed(cs, start) ==> AllNamed(cs, s)
      invariant Goal(s.current, s.todo) == Goal(start.current, start.todo)
      invariant Typed(cs, works, response, s, source)
      invariant k < n && After(cs, start, k) == Some(s)
      decreases n - k
    {
      if Step(cs, s).Some? { StepKeepsGoal(cs, s); }
      if Step(cs, s).Some? && AllNamed(cs, s) { StaysNamed(cs, s); }
      var s', converted, failure := Iterate(cs, s, response, works, source);
      if failure.Some? {
        return if throws && failure.value.ConverterThrew? then Throws(failure.value) else ParserError(failure.value);
      }
      AfterNext(cs, start, k, s);
      s, response, k := s', converted, k + 1;
    }
    if AllNamed(cs, s) { NotNameless(cs, s); }
    TypedAtEnd(cs, works, response, s, source);
    result := Success(response);
  }

  /**
   ajaxConvert with the converters map, the data types, s.throws, and what the converter functions
   do: `works` says whether the one under this key accepts this response.
  */
  method Convert(cs: Converters, dataTypes: seq<DataType>, throws: bool, works: (Key, Response) -> bool)
    returns (result: Outcome)
    requires dataTypes != [] ==> Ends(cs, Loop(dataTypes[0], dataTypes[1..]))
    ensures result.Success? ==> Origin(result.data) == Source(dataTypes) && Worked(works, result.data)
    ensures result.Success? ==> WellTyped(cs, result.data)
    ensures result.Success? && (dataTypes != [] ==> AllNamed(cs, Loop(dataTypes[0], dataTypes[1..]))) ==>
              HasType(cs, result.data, Requested(dataTypes))
    ensures !result.Success? ==>
              Explains(cs, works, result.error) && (result.Throws? <==> throws && result.error.ConverterThrew?)
  {
    var response := Raw(Source(dataTypes));
    TypeItself(cs, response);
    if dataTypes == [] { return Success(response); }
    var s := Loop(dataTypes[0], dataTypes[1..]);
    GoalIsRequested(s.current, s.todo);
    assert [s.current] + s.todo == dataTypes;
    hide After, Explains, WellTyped, Requested, Worked;
    result := RunLoop(cs, s, response, throws, works, Source(dataTypes));
  }

  lemma AfterNone(cs: Converters, s: Loop)
    ensures After(cs, s, 0) == Some(s)
  {
  }

  lemma AfterNext(cs: Converters, start: Loop, k: nat, s: Loop)
    requires After(cs, start, k) == Some(s)
    ensures After(cs, start, k + 1) == Step(cs, s)
  {
  }

  lemma TypedAtEnd(cs: Converters, works: (Key, Response) -> bool, r: Response, s: Loop, source: DataType)
    requires Typed(cs, works, r, s, source) && (s.todo == [] || s.current == NAMELESS)
    ensures Origin(r) == source && Worked(works, r) && WellTyped(cs, r)
    ensures s.current != NAMELESS ==> HasType(cs, r, Goal(s.current, s.todo))
  {
    TypeItself(cs, r);
  }

  lemma NotNameless(cs: Converters, s: Loop)
    requires AllNamed(cs, s)
    ensures s.current != NAMELESS
  {
  }

  lemma StepKeepsGoal(cs: Converters, s: Loop)
    requires Step(cs, s).Some?
    ensures Goal(Step(cs, s).value.current, Step(cs, s).value.todo) == Goal(s.current, s.todo)
  {
    hide Choose;
  }

  lemma AnyPasses(cs: Converters, r: Response, t: DataType)
    ensures HasType(cs, r, Any) ==> HasType(cs, r, t)
  {
    if HasType(cs, r, Any) { TypePasses(cs, r, Any, t); }
  }

  /**
   A falsy entry the loop does not get past: on the way from a to c the detour to b is made again and again, as
   long as the converter to b does not throw.
  */
  lemma {:induction false} FalsyEntryLoops(n: nat)
    ensures var a, b, c := Named("a"), Named("b"), Named("c");
            var cs := [Entry(Direct(Any, b), Function(0)), Entry(Direct(b, c), Off)];
            After(cs, Loop(a, [c]), n + 1) == Some(Loop(b, [c]))
  {
    var a, b, c := Named("a"), Named("b"), Named("c");
    var cs := [Entry(Direct(Any, b), Function(0)), Entry(Direct(b, c), Off)];
    SameDetour(cs, a, b, c);
    DetourForEver(cs, a, b, c, n);
  }

  lemma DetourForEver(cs: Converters, a: DataType, b: DataType, c: DataType, n: nat)
    requires Step(cs, Loop(a, [c])) == Some(Loop(b, [c])) && Detour(cs, c, b) == Some(b)
    ensures After(cs, Loop(a, [c]), n + 1) == Some(Loop(b, [c]))
  {
    hide Choose, Detour, Step;
    AfterFirst(cs, Loop(a, [c]), n);
    assert Cycle(cs, c, [b]);
    var i := CycleGoesOn(cs, c, [b], n);
  }

  /** The second entry is found as the end of a pair and never directly. */
  lemma SameDetour(cs: Converters, a: DataType, b: DataType, c: DataType)
    requires a != b && b != c && a != c && a.Named? && b.Named? && c.Named? &&
             a != NAMELESS && b != NAMELESS && c != NAMELESS
    requires |cs| == 2 && cs[0] == Entry(Direct(Any, b), Function(0)) && cs[1].key.src == b && cs[1].key.dst == c
    requires cs[1].value == Off || (cs[1].value.Function? && cs[1].key.more != [])
    ensures Detour(cs, c, a) == Some(b) && Detour(cs, c, b) == Some(b) && Step(cs, Loop(a, [c])) == Some(Loop(b, [c]))
  {
    assert cs[..1] == [Entry(Direct(Any, b), Function(0))] && cs[..1][..0] == [];
    assert Lookup(cs[..1], Direct(a, c)) == Off && Lookup(cs[..1], Direct(b, c)) == Off &&
           Lookup(cs[..1], Direct(Any, c)) == Off;
    assert Lookup(cs[..1], Direct(a, b)) == Off && Lookup(cs[..1], Direct(b, b)) == Off &&
           Lookup(cs[..1], Direct(Any, b)) == Function(0);
    assert FirstPair(cs, a, c, 1) == Some(1) && FirstPair(cs, b, c, 1) == Some(1);
  }

  /**
   Nor does it get past a function under a key of three words, as in "* b" and "b c " with a space behind it: the pair
   search reads the key as one from b to c, the direct lookup never finds it.
  */
  lemma {:induction false} LongKeyLoops(n: nat)
    ensures var a, b, c := Named("a"), Named("b"), Named("c");
            var cs := [Entry(Direct(Any, b), Function(0)), Entry(Key(b, c, [""]), Function(1))];
            After(cs, Loop(a, [c]), n + 1) == Some(Loop(b, [c]))
  {
    var a, b, c := Named("a"), Named("b"), Named("c");
    var cs := [Entry(Direct(Any, b), Function(0)), Entry(Key(b, c, [""]), Function(1))];
    SameDetour(cs, a, b, c);
    DetourForEver(cs, a, b, c, n);
  }

  /** And a falsy entry it never meets: the converter for anything makes up for it. */
  lemma FalsyEntryPassed()
    ensures var b, c := Named("b"), Named("c");
            NoCycle([Entry(Direct(Any, c), Function(0)), Entry(Direct(b, c), Off)])
  {
    var b, c := Named("b"), Named("c");
    var cs := [Entry(Direct(Any, c), Function(0)), Entry(Direct(b, c), Off)];
    assert cs[..1] == [Entry(Direct(Any, c), Function(0))] && cs[..1][..0] == [];
    forall target, types ensures !Cycle(cs, target, types) {
      if Cycle(cs, target, types) {
        CycleIsFalsy(cs, target, types, |types| - 1, 0);
        assert false;
      }
    }
  }

  /** An empty name the loop stops at: what was to become a c is left as it came out of the converter to "". */
  lemma EmptyNameStops(a: DataType, c: DataType, n: nat)
    requires a.Named? && c.Named? && a != c && a != NAMELESS && c != NAMELESS
    ensures var cs := [Entry(Direct(a, NAMELESS), Function(0)), Entry(Direct(NAMELESS, c), Function(1))];
            After(cs, Loop(a, [c]), 1) == Some(Loop(NAMELESS, [c])) && After(cs, Loop(a, [c]), n + 2).None?
  {
    var cs := [Entry(Direct(a, NAMELESS), Function(0)), Entry(Direct(NAMELESS, c), Function(1))];
    assert cs[..1] == [Entry(Direct(a, NAMELESS), Function(0))] && cs[..1][..0] == [];
    assert Lookup(cs[..1], Direct(a, c)) == Off && Lookup(cs[..1], Direct(Any, c)) == Off;
    assert Lookup(cs[..1], Direct(a, NAMELESS)) == Function(0);
    assert FirstPair(cs, a, c, 1) == Some(1);
    assert After(cs, Loop(a, [c]), 0) == Some(Loop(a, [c]));
    if n > 0 { EmptyNameStops(a, c, n - 1); }
  }
}
