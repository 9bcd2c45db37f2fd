/**
 Values on a heap of arrays and plain objects, and what it means for two of them to have the same structure.
*/
module HeapStructure {
  import opened Lists

  // That is said by unfolding where there are no cycles, and by bisimulation and by the paths that tell two values
  // apart on any heap.

  type Addr = nat

  /** Zero's sign and NaN are told apart; every other number is its value. */
  datatype Number = NaN | NegativeZero | Real(r: real)

  datatype Value = Undefined | Null | Num(n: Number) | Str(s: string) | Boolean(b: bool) | Func(id: nat)
                 | Ref(addr: Addr)

  datatype Field = Field(key: string, value: Value)

  /**
   An array, None for a hole, or a plain object: what its constructor property holds, and its own keys as for-in
   meets them.
  */
  datatype Object = Arr(elems: seq<Option<Value>>) | Rec(ctor: nat, fields: seq<Field>)

  type Heap = map<Addr, Object>

  predicate DistinctKeys(fields: seq<Field>) {
    forall i, j :: 0 <= i < j < |fields| ==> fields[i].key != fields[j].key
  }

  predicate In(h: Heap, v: Value) {
    v.Ref? ==> v.addr in h
  }

  /** Own keys are distinct, and references lead to objects. */
  ghost predicate HeapOk(h: Heap) {
    forall a :: a in h ==>
      match h[a]
      case Arr(elems) => forall i :: 0 <= i < |elems| && elems[i].Some? ==> In(h, elems[i].value)
      case Rec(_, fields) => DistinctKeys(fields) && forall i :: 0 <= i < |fields| ==> In(h, fields[i].value)
  }

  function Height(rank: Addr -> nat, v: Value): nat {
    if v.Ref? then rank(v.addr) + 1 else 0
  }

  /** rank falls along every reference: the heap has no cycle (objects may be shared). */
  ghost predicate Acyclic(h: Heap, rank: Addr -> nat) {
    forall a :: a in h ==>
      match h[a]
      case Arr(elems) => forall i :: 0 <= i < |elems| && elems[i].Some? ==> Height(rank, elems[i].value) <= rank(a)
      case Rec(_, fields) => forall i :: 0 <= i < |fields| ==> Height(rank, fields[i].value) <= rank(a)
  }

  // ---------------------------------------------------------------- structure

  /** What a value looks like with all references followed. */
  datatype Tree = Leaf(v: Value) | Array(elems: seq<Option<Tree>>) | Record(ctor: nat, fields: map<string, Tree>)

  ghost function Unfold(h: Heap, rank: Addr -> nat, v: Value): Tree
    requires HeapOk(h) && Acyclic(h, rank) && In(h, v)
    decreases Height(rank, v), 1, 0
  {
    if !v.Ref? then Leaf(v)
    else match h[v.addr]
      case Arr(elems) => Array(seq(|elems|, i requires 0 <= i < |elems| =>
        if elems[i].Some? then Some(Unfold(h, rank, elems[i].value)) else None))
      case Rec(ctor, fields) => Record(ctor, UnfoldFields(h, rank, v.addr, |fields|))
  }

  ghost function UnfoldFields(h: Heap, rank: Addr -> nat, a: Addr, n: nat): (m: map<string, Tree>)
    requires HeapOk(h) && Acyclic(h, rank) && a in h && h[a].Rec? && n <= |h[a].fields|
    decreases rank(a), 2, n
  {
    if n == 0 then map[]
    else UnfoldFields(h, rank, a, n - 1)[h[a].fields[n - 1].key := Unfold(h, rank, h[a].fields[n - 1].value)]
  }

  /** _.has, with the value found */
  function Find(fields: seq<Field>, key: string): (v: Option<Value>)
    ensures v.Some? ==> exists i :: 0 <= i < |fields| && fields[i] == Field(key, v.value)
    ensures v.None? ==> forall i :: 0 <= i < |fields| ==> fields[i].key != key
  {
    if fields == [] then None
    else if fields[|fields| - 1].key == key then Some(fields[|fields| - 1].value)
    else Find(fields[..|fields| - 1], key)
  }

  // ---------------------------------------------------------------- what a map of fields is

  /** The map has these fields' keys and nothing else, each with its tree. */
  ghost predicate MapsTo(m: map<string, Tree>, fields: seq<Field>, trees: seq<Tree>) {
    |trees| == |fields| == |m| &&
    (forall i :: 0 <= i < |fields| ==> fields[i].key in m && m[fields[i].key] == trees[i]) &&
    forall k :: k in m ==> exists i :: 0 <= i < |fields| && fields[i].key == k
  }

  predicate AllIn(h: Heap, fields: seq<Field>) {
    forall i :: 0 <= i < |fields| ==> In(h, fields[i].value)
  }

  ghost function Trees(h: Heap, rank: Addr -> nat, fields: seq<Field>): (trees: seq<Tree>)
    requires HeapOk(h) && Acyclic(h, rank) && AllIn(h, fields)
    ensures |trees| == |fields| && forall i :: 0 <= i < |fields| ==> trees[i] == Unfold(h, rank, fields[i].value)
  {
    seq(|fields|, i requires 0 <= i < |fields| => Unfold(h, rank, fields[i].value))
  }

  lemma MapsOneMore(m: map<string, Tree>, fields: seq<Field>, trees: seq<Tree>, f: Field, tree: Tree)
    requires MapsTo(m, fields, trees) && DistinctKeys(fields + [f])
    ensures MapsTo(m[f.key := tree], fields + [f], trees + [tree])
  {
    var all, all', m' := fields + [f], trees + [tree], m[f.key := tree];
    NewKey(m, fields, trees, f);
    assert |m'| == |m| + 1;
    forall i | 0 <= i < |all| ensures all[i].key in m' && m'[all[i].key] == all'[i] {
      if i < |fields| { assert all[i] == fields[i] && m[fields[i].key] == trees[i] && fields[i].key != f.key; }
    }
    forall k | k in m' ensures exists i :: 0 <= i < |all| && all[i].key == k {
      if k == f.key { assert all[|fields|].key == k; } else {
        var i :| 0 <= i < |fields| && fields[i].key == k;
        assert all[i].key == k;
      }
    }
  }

  lemma NewKey(m: map<string, Tree>, fields: seq<Field>, trees: seq<Tree>, f: Field)
    requires MapsTo(m, fields, trees) && DistinctKeys(fields + [f])
    ensures f.key !in m && forall i :: 0 <= i < |fields| ==> fields[i].key != f.key
  {
    var all := fields + [f];
    forall i | 0 <= i < |fields| ensures fields[i].key != f.key { assert all[i].key != all[|fields|].key; }
  }

  lemma {:induction false} FieldsMapped(h: Heap, rank: Addr -> nat, a: Addr, n: nat)
    requires HeapOk(h) && Acyclic(h, rank) && a in h && h[a].Rec? && n <= |h[a].fields|
    ensures MapsTo(UnfoldFields(h, rank, a, n), h[a].fields[..n], Trees(h, rank, h[a].fields[..n]))
  {
    var fields := h[a].fields;
    FieldsOk(h, a);
    UnfoldsLast(h, rank, a, n);
    hide HeapOk, Acyclic, Unfold, UnfoldFields, DistinctKeys, AllIn, Trees, In;
    if n == 0 {
      assert fields[..0] == [];
    } else {
      hide MapsTo;
      FieldsMapped(h, rank, a, n - 1);
      LastField(fields, n);
      TreesLast(h, rank, fields[..n - 1], fields[n - 1]);
      MapsOneMore(UnfoldFields(h, rank, a, n - 1), fields[..n - 1], Trees(h, rank, fields[..n - 1]), fields[n - 1],
                  Unfold(h, rank, fields[n - 1].value));
    }
  }

  lemma LastField(fields: seq<Field>, n: nat)
    requires 0 < n <= |fields|
    ensures fields[..n] == fields[..n - 1] + [fields[n - 1]]
  {
  }

  lemma UnfoldsLast(h: Heap, rank: Addr -> nat, a: Addr, n: nat)
    requires HeapOk(h) && Acyclic(h, rank) && a in h && h[a].Rec? && n <= |h[a].fields|
    ensures if n == 0 then UnfoldFields(h, rank, a, n) == map[]
            else var f := h[a].fields[n - 1];
                 UnfoldFields(h, rank, a, n) == UnfoldFields(h, rank, a, n - 1)[f.key := Unfold(h, rank, f.value)]
  {
    hide Unfold;
  }

  lemma FieldsOk(h: Heap, a: Addr)
    requires HeapOk(h) && a in h && h[a].Rec?
    ensures forall n :: 0 <= n <= |h[a].fields| ==> DistinctKeys(h[a].fields[..n]) && AllIn(h, h[a].fields[..n])
    ensures AllIn(h, h[a].fields) && forall i :: 0 <= i < |h[a].fields| ==> In(h, h[a].fields[i].value)
  {
  }

  lemma TreesLast(h: Heap, rank: Addr -> nat, fields: seq<Field>, f: Field)
    requires HeapOk(h) && Acyclic(h, rank) && AllIn(h, fields) && In(h, f.value)
    ensures AllIn(h, fields + [f])
    ensures Trees(h, rank, fields + [f]) == Trees(h, rank, fields) + [Unfold(h, rank, f.value)]
  {
    hide HeapOk, Acyclic, Unfold, In;
  }

  /** Maps of fields are equal when they have as many and one's are among the other's. */
  lemma MapsEqual(m: map<string, Tree>, fields: seq<Field>, trees: seq<Tree>, m': map<string, Tree>)
    requires MapsTo(m, fields, trees)
    ensures m == m' <==>
            |m| == |m'| && forall i :: 0 <= i < |fields| ==> fields[i].key in m' && m'[fields[i].key] == trees[i]
  {
    if |m| == |m'| && forall i :: 0 <= i < |fields| ==> fields[i].key in m' && m'[fields[i].key] == trees[i] {
      forall k | k in m ensures k in m' && m'[k] == m[k] {
        var i :| 0 <= i < |fields| && fields[i].key == k;
      }
      SameSizeSameKeys(m.Keys, m'.Keys);
    }
  }

  lemma FoundIsMapped(m: map<string, Tree>, fields: seq<Field>, trees: seq<Tree>, key: string)
    requires MapsTo(m, fields, trees)
    ensures Find(fields, key).Some? <==> key in m
    ensures key in m ==>
              exists i :: 0 <= i < |fields| && fields[i] == Field(key, Find(fields, key).value) && m[key] == trees[i]
  {
    hide Find;
    if Find(fields, key).Some? {
      var i :| 0 <= i < |fields| && fields[i] == Field(key, Find(fields, key).value);
      assert m[fields[i].key] == trees[i];
    }
  }

  /** Two records unfold alike exactly when each of the first's fields has an equal one and the counts agree. */
  lemma RecordsAlike(h: Heap, rank: Addr -> nat, a: Addr, b: Addr)
    requires HeapOk(h) && Acyclic(h, rank) && a in h && b in h && h[a].Rec? && h[b].Rec?
    ensures Unfold(h, rank, Ref(a)) == Unfold(h, rank, Ref(b)) <==>
            && h[a].ctor == h[b].ctor && |h[a].fields| == |h[b].fields|
            && forall i :: 0 <= i < |h[a].fields| ==>
                 var other := Find(h[b].fields, h[a].fields[i].key);
                 other.Some? && Unfold(h, rank, h[a].fields[i].value) == Unfold(h, rank, other.value)
  {
    var fa, fb := h[a].fields, h[b].fields;
    UnfoldsRecord(h, rank, a);
    UnfoldsRecord(h, rank, b);
    AllMapped(h, rank, a);
    AllMapped(h, rank, b);
    MapsAlike(h, rank, UnfoldFields(h, rank, a, |fa|), fa, UnfoldFields(h, rank, b, |fb|), fb);
    hide *;
  }

  lemma UnfoldsRecord(h: Heap, rank: Addr -> nat, a: Addr)
    requires HeapOk(h) && Acyclic(h, rank) && a in h && h[a].Rec?
    ensures Unfold(h, rank, Ref(a)) == Record(h[a].ctor, UnfoldFields(h, rank, a, |h[a].fields|))
  {
    hide UnfoldFields;
  }

  lemma MapsAlike(h: Heap, rank: Addr -> nat, ma: map<string, Tree>, fa: seq<Field>, mb: map<string, Tree>,
                  fb: seq<Field>)
    requires HeapOk(h) && Acyclic(h, rank) && AllIn(h, fa) && AllIn(h, fb)
    requires MapsTo(ma, fa, Trees(h, rank, fa)) && MapsTo(mb, fb, Trees(h, rank, fb))
    ensures forall i :: 0 <= i < |fa| ==> In(h, fa[i].value)
    ensures forall i :: 0 <= i < |fa| && Find(fb, fa[i].key).Some? ==> In(h, Find(fb, fa[i].key).value)
    ensures ma == mb <==>
            |fa| == |fb| &&
            forall i :: 0 <= i < |fa| ==>
              var other := Find(fb, fa[i].key);
              other.Some? && Unfold(h, rank, fa[i].value) == Unfold(h, rank, other.value)
  {
    var ta := Trees(h, rank, fa);
    MapsEqual(ma, fa, ta, mb);
    assert |ma| == |fa| && |mb| == |fb|;
    hide HeapOk, Acyclic, Unfold, UnfoldFields, Find, In, MapsTo;
    forall i | 0 <= i < |fa|
      ensures var other := Find(fb, fa[i].key);
              (other.Some? ==> In(h, other.value)) &&
              ((fa[i].key in mb && mb[fa[i].key] == ta[i]) <==>
               other.Some? && Unfold(h, rank, fa[i].value) == Unfold(h, rank, other.value))
    {
      FoundUnfolds(h, rank, mb, fb, fa[i].key);
    }
  }

  lemma FoundUnfolds(h: Heap, rank: Addr -> nat, m: map<string, Tree>, fields: seq<Field>, key: string)
    requires HeapOk(h) && Acyclic(h, rank) && AllIn(h, fields) && MapsTo(m, fields, Trees(h, rank, fields))
    ensures Find(fields, key).Some? <==> key in m
    ensures key in m ==>
              In(h, Find(fields, key).value) && m[key] == Unfold(h, rank, Find(fields, key).value)
  {
    FoundIsMapped(m, fields, Trees(h, rank, fields), key);
    hide HeapOk, Acyclic, Unfold, MapsTo, Find;
  }

  lemma AllMapped(h: Heap, rank: Addr -> nat, a: Addr)
    requires HeapOk(h) && Acyclic(h, rank) && a in h && h[a].Rec?
    ensures AllIn(h, h[a].fields) && forall i :: 0 <= i < |h[a].fields| ==> In(h, h[a].fields[i].value)
    ensures MapsTo(UnfoldFields(h, rank, a, |h[a].fields|), h[a].fields, Trees(h, rank, h[a].fields))
  {
    FieldsOk(h, a);
    FieldsMapped(h, rank, a, |h[a].fields|);
    hide *;
    assert h[a].fields[..|h[a].fields|] == h[a].fields;
  }

  lemma SameSizeSameKeys(a: set<string>, b: set<string>)
    requires a <= b && |a| == |b|
    ensures a == b
  {
    assert |b - a| == |b| - |a|;
  }

  // ---------------------------------------------------------------- alike on any heap

  /**
   alike relates values that no finite number of steps tells apart.  On a heap with cycles this is
   what structural equality means; two values have the same structure when some such set relates them.
  */
  ghost predicate Bisimulation(h: Heap, alike: set<(Value, Value)>) {
    forall p :: p in alike ==> In(h, p.0) && In(h, p.1) && Matches(h, alike, p.0, p.1)
  }

  ghost predicate Matches(h: Heap, alike: set<(Value, Value)>, a: Value, b: Value)
    requires In(h, a) && In(h, b)
  {
    if !a.Ref? || !b.Ref? then a == b
    else match (h[a.addr], h[b.addr])
      case (Arr(xs), Arr(ys)) =>
        |xs| == |ys| && forall i :: 0 <= i < |xs| ==>
          xs[i].Some? == ys[i].Some? && (xs[i].Some? ==> (xs[i].value, ys[i].value) in alike)
      case (Rec(c, fa), Rec(d, fb)) =>
        c == d && |fa| == |fb| && forall i :: 0 <= i < |fa| ==>
          Find(fb, fa[i].key).Some? && (fa[i].value, Find(fb, fa[i].key).value) in alike
      case _ => false
  }

  ghost predicate Alike(h: Heap, alike: set<(Value, Value)>, a: Value, b: Value) {
    Bisimulation(h, alike) && (a, b) in alike
  }

  // ---------------------------------------------------------------- differences, and the paths to them

  /** From an object to one of its parts. */
  datatype Step = Index(i: nat) | Prop(key: string)

  ghost function Part(h: Heap, v: Value, step: Step): (part: Option<Value>)
    requires HeapOk(h) && In(h, v)
    ensures part.Some? ==> v.Ref? && In(h, part.value)
  {
    if !v.Ref? then None
    else match (h[v.addr], step)
      case (Arr(elems), Index(i)) => if i < |elems| then elems[i] else None
      case (Rec(_, fields), Prop(key)) => Find(fields, key)
      case _ => None
  }

  /** Told apart by their class, or as primitives by their value. */
  predicate UnlikeKinds(h: Heap, a: Value, b: Value)
    requires In(h, a) && In(h, b)
  {
    if a.Ref? && b.Ref? then h[a.addr].Arr? != h[b.addr].Arr? else a != b
  }

  /** Told apart by length and holes, or by constructor and keys. */
  ghost predicate UnlikeShapes(h: Heap, a: Addr, b: Addr)
    requires a in h && b in h
  {
    match (h[a], h[b])
    case (Arr(xs), Arr(ys)) => |xs| != |ys| || exists i :: 0 <= i < |xs| && xs[i].Some? != ys[i].Some?
    case (Rec(c, fa), Rec(d, fb)) => c != d || |fa| != |fb| || exists i :: 0 <= i < |fa| && Find(fb, fa[i].key).None?
    case _ => true
  }

  /** A difference is met without opening an object of a twice, or one of those seen. */
  ghost predicate Differ(h: Heap, a: Value, b: Value, seen: set<Addr>)
    requires HeapOk(h) && In(h, a) && In(h, b)
    decreases h.Keys - seen, 0
  {
    UnlikeKinds(h, a, b) || (a.Ref? && b.Ref? && a.addr !in seen && DifferInside(h, a.addr, b.addr, seen + {a.addr}))
  }

  /** The same, once a has been opened. */
  ghost predicate DifferInside(h: Heap, a: Addr, b: Addr, seen: set<Addr>)
    requires HeapOk(h) && a in h && b in h
    decreases h.Keys - seen, 1
  {
    UnlikeShapes(h, a, b) ||
    exists step :: Part(h, Ref(a), step).Some? && Part(h, Ref(b), step).Some? &&
                   Differ(h, Part(h, Ref(a), step).value, Part(h, Ref(b), step).value, seen)
  }

  ghost function Walk(h: Heap, v: Value, path: seq<Step>): (end: Option<Value>)
    requires HeapOk(h) && In(h, v)
    ensures end.Some? ==> In(h, end.value)
    decreases |path|
  {
    if path == [] then Some(v)
    else match Part(h, v, path[0])
      case None => None
      case Some(x) => Walk(h, x, path[1..])
  }

  /** The objects opened on the way. */
  ghost function Opened(h: Heap, v: Value, path: seq<Step>): (trail: seq<Addr>)
    requires HeapOk(h) && In(h, v) && Walk(h, v, path).Some?
    ensures |trail| == |path|
    decreases |path|
  {
    if path == [] then [] else [v.addr] + Opened(h, Part(h, v, path[0]).value, path[1..])
  }

  ghost predicate Distinct(s: seq<Addr>) {
    forall i, j :: 0 <= i < j < |s| ==> s[i] != s[j]
  }

  /** At the end of this path a and b differ. */
  ghost predicate TellsApart(h: Heap, a: Value, b: Value, path: seq<Step>)
    requires HeapOk(h) && In(h, a) && In(h, b)
  {
    Walk(h, a, path).Some? && Walk(h, b, path).Some? &&
    var x, y := Walk(h, a, path).value, Walk(h, b, path).value;
    UnlikeKinds(h, x, y) || (x.Ref? && y.Ref? && UnlikeShapes(h, x.addr, y.addr))
  }

  /** What has to be opened of a to see that difference: the last object only if the two are not told apart by class. */
  ghost function Trail(h: Heap, a: Value, b: Value, path: seq<Step>): seq<Addr>
    requires HeapOk(h) && In(h, a) && In(h, b) && TellsApart(h, a, b, path)
  {
    var x, y := Walk(h, a, path).value, Walk(h, b, path).value;
    Opened(h, a, path) + if UnlikeKinds(h, x, y) then [] else [x.addr]
  }

  /** No object twice, and none of those seen. */
  ghost predicate AllNew(trail: seq<Addr>, seen: set<Addr>) {
    Distinct(trail) && forall i :: 0 <= i < |trail| ==> trail[i] !in seen
  }

  ghost predicate SimplyTellsApart(h: Heap, a: Value, b: Value, path: seq<Step>, seen: set<Addr>)
    requires HeapOk(h) && In(h, a) && In(h, b)
  {
    TellsApart(h, a, b, path) && AllNew(Trail(h, a, b, path), seen)
  }

  lemma {:induction false} PathToDifference(h: Heap, a: Value, b: Value, seen: set<Addr>) returns (path: seq<Step>)
    requires HeapOk(h) && In(h, a) && In(h, b) && Differ(h, a, b, seen)
    ensures SimplyTellsApart(h, a, b, path, seen)
    decreases h.Keys - seen
  {
    hide HeapOk, UnlikeShapes, Part;
    path := [];
    if !UnlikeKinds(h, a, b) && !UnlikeShapes(h, a.addr, b.addr) {
      var seen' := seen + {a.addr};
      var step :| Part(h, a, step).Some? && Part(h, b, step).Some? &&
                  Differ(h, Part(h, a, step).value, Part(h, b, step).value, seen');
      var rest := PathToDifference(h, Part(h, a, step).value, Part(h, b, step).value, seen');
      path := [step] + rest;
      assert path[1..] == rest;
      PathExtends(h, a, b, step, rest, seen);
    }
  }

  /** A step in front of a path: the object opened by it must be met nowhere on the rest. */
  lemma PathExtends(h: Heap, a: Value, b: Value, step: Step, rest: seq<Step>, seen: set<Addr>)
    requires HeapOk(h) && In(h, a) && In(h, b) && a.Ref? && b.Ref? && Part(h, a, step).Some? && Part(h, b, step).Some?
    ensures SimplyTellsApart(h, a, b, [step] + rest, seen) <==>
            a.addr !in seen &&
            SimplyTellsApart(h, Part(h, a, step).value, Part(h, b, step).value, rest, seen + {a.addr})
  {
    hide HeapOk, UnlikeShapes, Part, Differ, UnlikeKinds, AllNew;
    var path, x, y := [step] + rest, Part(h, a, step).value, Part(h, b, step).value;
    assert path[1..] == rest && path[0] == step;
    assert Walk(h, a, path) == Walk(h, x, rest) && Walk(h, b, path) == Walk(h, y, rest);
    assert TellsApart(h, a, b, path) <==> TellsApart(h, x, y, rest);
    if TellsApart(h, x, y, rest) {
      HeadIsNew(a.addr, Trail(h, x, y, rest), seen);
      assert Trail(h, a, b, path) == [a.addr] + Trail(h, x, y, rest);
    }
  }

  lemma HeadIsNew(x: Addr, tail: seq<Addr>, seen: set<Addr>)
    ensures AllNew([x] + tail, seen) <==> x !in seen && AllNew(tail, seen + {x})
  {
    var all := [x] + tail;
    forall i | 0 <= i < |tail| ensures tail[i] == all[i + 1] {}
    if AllNew(all, seen) {
      assert all[0] == x;
      forall i | 0 <= i < |tail| ensures tail[i] !in seen + {x} { assert all[i + 1] != all[0]; }
      forall i, j | 0 <= i < j < |tail| ensures tail[i] != tail[j] { assert all[i + 1] != all[j + 1]; }
    }
  }

  lemma {:induction false} DifferenceOnPath(h: Heap, a: Value, b: Value, path: seq<Step>, seen: set<Addr>)
    requires HeapOk(h) && In(h, a) && In(h, b) && SimplyTellsApart(h, a, b, path, seen)
    ensures Differ(h, a, b, seen)
    decreases |path|
  {
    hide HeapOk, UnlikeShapes, Part;
    if path == [] {
      if !UnlikeKinds(h, a, b) {
        assert Trail(h, a, b, path) == [a.addr] && [a.addr][0] == a.addr;
        assert DifferInside(h, a.addr, b.addr, seen + {a.addr});
      }
    } else {
      var step, rest := path[0], path[1..];
      assert path == [step] + rest;
      PartOfBoth(h, a, b, path);
      PathExtends(h, a, b, step, rest, seen);
      DifferenceOnPath(h, Part(h, a, step).value, Part(h, b, step).value, rest, seen + {a.addr});
      assert DifferInside(h, a.addr, b.addr, seen + {a.addr});
    }
  }

  lemma PartOfBoth(h: Heap, a: Value, b: Value, path: seq<Step>)
    requires HeapOk(h) && In(h, a) && In(h, b) && path != [] && Walk(h, a, path).Some? && Walk(h, b, path).Some?
    ensures a.Ref? && b.Ref? && Part(h, a, path[0]).Some? && Part(h, b, path[0]).Some?
  {
  }

  /** Differ, said without recursion: some path that opens no object of a twice, or one seen, ends in a difference. */
  lemma DifferMeans(h: Heap, a: Value, b: Value, seen: set<Addr>)
    requires HeapOk(h) && In(h, a) && In(h, b)
    ensures Differ(h, a, b, seen) <==> exists path :: SimplyTellsApart(h, a, b, path, seen)
  {
    hide Differ, SimplyTellsApart, HeapOk;
    if Differ(h, a, b, seen) { var path := PathToDifference(h, a, b, seen); }
    if path :| SimplyTellsApart(h, a, b, path, seen) { DifferenceOnPath(h, a, b, path, seen); }
  }

  // ---------------------------------------------------------------- structure as the absence of differences

  lemma {:induction false} WalkOn(h: Heap, v: Value, path: seq<Step>, step: Step)
    requires HeapOk(h) && In(h, v)
    ensures Walk(h, v, path + [step]) ==
            match Walk(h, v, path)
            case None => None
            case Some(x) => Part(h, x, step)
    decreases |path|
  {
    hide HeapOk, Part;
    if path == [] {
      assert (path + [step])[0] == step && (path + [step])[1..] == [];
    } else if Part(h, v, path[0]).Some? {
      assert (path + [step])[0] == path[0] && (path + [step])[1..] == path[1..] + [step];
      WalkOn(h, Part(h, v, path[0]).value, path[1..], step);
    } else {
      assert (path + [step])[0] == path[0];
    }
  }

  /** Values that are alike are told apart by neither kind nor shape, and their parts are alike. */
  lemma AlikeParts(h: Heap, alike: set<(Value, Value)>, x: Value, y: Value)
    requires HeapOk(h) && Bisimulation(h, alike) && (x, y) in alike
    ensures In(h, x) && In(h, y) && !UnlikeKinds(h, x, y) && (x.Ref? && y.Ref? ==> !UnlikeShapes(h, x.addr, y.addr))
    ensures forall step :: Part(h, x, step).Some? && Part(h, y, step).Some? ==>
                             (Part(h, x, step).value, Part(h, y, step).value) in alike
  {
    assert Matches(h, alike, (x, y).0, (x, y).1);
    if x.Ref? && y.Ref? && h[x.addr].Rec? && h[y.addr].Rec? {
      var fa, fb := h[x.addr].fields, h[y.addr].fields;
      forall step | Part(h, x, step).Some? && Part(h, y, step).Some?
        ensures (Part(h, x, step).value, Part(h, y, step).value) in alike
      {
        var i :| 0 <= i < |fa| && fa[i] == Field(step.key, Part(h, x, step).value);
      }
    }
  }

  lemma {:induction false} AlikeAlong(h: Heap, alike: set<(Value, Value)>, a: Value, b: Value, path: seq<Step>)
    requires HeapOk(h) && Bisimulation(h, alike) && (a, b) in alike && In(h, a) && In(h, b)
    ensures !TellsApart(h, a, b, path)
    decreases |path|
  {
    AlikeParts(h, alike, a, b);
    hide HeapOk, Bisimulation, UnlikeKinds, UnlikeShapes, Part;
    if path != [] && Part(h, a, path[0]).Some? && Part(h, b, path[0]).Some? {
      AlikeAlong(h, alike, Part(h, a, path[0]).value, Part(h, b, path[0]).value, path[1..]);
    }
  }

  ghost function ElementsHeld(h: Heap): set<Value> {
    set o, i | o in h && h[o].Arr? && 0 <= i < |h[o].elems| && h[o].elems[i].Some? :: h[o].elems[i].value
  }

  ghost function FieldsHeld(h: Heap): set<Value> {
    set o, i | o in h && h[o].Rec? && 0 <= i < |h[o].fields| :: h[o].fields[i].value
  }

  /** x and y are reached from a and b by the same path. */
  ghost predicate Together(h: Heap, a: Value, b: Value, x: Value, y: Value)
    requires HeapOk(h) && In(h, a) && In(h, b)
  {
    exists path :: Walk(h, a, path) == Some(x) && Walk(h, b, path) == Some(y)
  }

  lemma PartIsHeld(h: Heap, v: Value, step: Step)
    requires HeapOk(h) && In(h, v) && Part(h, v, step).Some?
    ensures Part(h, v, step).value in ElementsHeld(h) + FieldsHeld(h)
  {
    var x := Part(h, v, step).value;
    if h[v.addr].Rec? {
      var i :| 0 <= i < |h[v.addr].fields| && h[v.addr].fields[i] == Field(step.key, x);
      assert x in FieldsHeld(h);
    }
  }

  ghost function Paired(h: Heap, a: Value, b: Value): set<(Value, Value)>
    requires HeapOk(h) && In(h, a) && In(h, b)
  {
    var held := ElementsHeld(h) + FieldsHeld(h) + {a, b};
    set x, y | x in held && y in held && Together(h, a, b, x, y) :: (x, y)
  }

  /** The pairs reached together go on being reached together. */
  lemma PairedParts(h: Heap, a: Value, b: Value, x: Value, y: Value, step: Step)
    requires HeapOk(h) && In(h, a) && In(h, b) && In(h, x) && In(h, y) && Together(h, a, b, x, y)
    requires Part(h, x, step).Some? && Part(h, y, step).Some?
    ensures (Part(h, x, step).value, Part(h, y, step).value) in Paired(h, a, b)
  {
    var path :| Walk(h, a, path) == Some(x) && Walk(h, b, path) == Some(y);
    WalkOn(h, a, path, step);
    WalkOn(h, b, path, step);
    PartIsHeld(h, x, step);
    PartIsHeld(h, y, step);
    hide HeapOk, Part, Walk, ElementsHeld, FieldsHeld;
    assert Together(h, a, b, Part(h, x, step).value, Part(h, y, step).value);
  }

  lemma PairMatches(h: Heap, a: Value, b: Value, x: Value, y: Value)
    requires HeapOk(h) && In(h, a) && In(h, b) && In(h, x) && In(h, y) && Together(h, a, b, x, y)
    requires !UnlikeKinds(h, x, y) && (x.Ref? && y.Ref? ==> !UnlikeShapes(h, x.addr, y.addr))
    ensures Matches(h, Paired(h, a, b), x, y)
  {
    if x.Ref? && y.Ref? {
      forall step | Part(h, x, step).Some? && Part(h, y, step).Some?
        ensures (Part(h, x, step).value, Part(h, y, step).value) in Paired(h, a, b)
      {
        PairedParts(h, a, b, x, y, step);
      }
      hide Paired, Together;
      if h[x.addr].Arr? {
        var xs, ys := h[x.addr].elems, h[y.addr].elems;
        forall i | 0 <= i < |xs| && xs[i].Some? ensures (xs[i].value, ys[i].value) in Paired(h, a, b) {
          assert Part(h, x, Index(i)) == xs[i] && Part(h, y, Index(i)) == ys[i];
        }
      } else {
        var fa, fb := h[x.addr].fields, h[y.addr].fields;
        forall i | 0 <= i < |fa|
          ensures Find(fb, fa[i].key).Some? && (fa[i].value, Find(fb, fa[i].key).value) in Paired(h, a, b)
        {
          FindsItself(fa, i);
          assert Part(h, x, Prop(fa[i].key)) == Some(fa[i].value) && Part(h, y, Prop(fa[i].key)) == Find(fb, fa[i].key);
        }
      }
    }
  }

  lemma FindsItself(fields: seq<Field>, i: nat)
    requires i < |fields| && DistinctKeys(fields)
    ensures Find(fields, fields[i].key) == Some(fields[i].value)
  {
    var found := Find(fields, fields[i].key);
    assert found.Some?;
    var k :| 0 <= k < |fields| && fields[k] == Field(fields[i].key, found.value);
  }

  /** Two values have the same structure exactly when no path tells them apart. */
  lemma StructureIsNoDifference(h: Heap, a: Value, b: Value)
    requires HeapOk(h) && In(h, a) && In(h, b)
    ensures (exists alike :: Alike(h, alike, a, b)) <==> forall path :: !TellsApart(h, a, b, path)
  {
    if alike :| Alike(h, alike, a, b) {
      forall path ensures !TellsApart(h, a, b, path) { AlikeAlong(h, alike, a, b, path); }
    }
    if forall path :: !TellsApart(h, a, b, path) {
      var alike := Paired(h, a, b);
      forall p | p in alike ensures In(h, p.0) && In(h, p.1) && Matches(h, alike, p.0, p.1) {
        PairStays(h, a, b, p.0, p.1);
        PairMatches(h, a, b, p.0, p.1);
      }
      assert Walk(h, a, []) == Some(a) && Walk(h, b, []) == Some(b);
      assert Together(h, a, b, a, b);
      assert Alike(h, alike, a, b);
    }
  }

  lemma PairStays(h: Heap, a: Value, b: Value, x: Value, y: Value)
    requires HeapOk(h) && In(h, a) && In(h, b) && Together(h, a, b, x, y) && forall path :: !TellsApart(h, a, b, path)
    ensures In(h, x) && In(h, y) && !UnlikeKinds(h, x, y) && (x.Ref? && y.Ref? ==> !UnlikeShapes(h, x.addr, y.addr))
  {
    hide HeapOk, UnlikeKinds, UnlikeShapes, Walk;
    var path :| Walk(h, a, path) == Some(x) && Walk(h, b, path) == Some(y);
    assert !TellsApart(h, a, b, path);
  }

  /** No path from v comes back to an object it has opened. */
  ghost predicate NoCycleFrom(h: Heap, v: Value)
    requires HeapOk(h) && In(h, v)
  {
    forall path :: Walk(h, v, path).Some? ==>
      var end := Walk(h, v, path).value;
      Distinct(Opened(h, v, path) + if end.Ref? then [end.addr] else [])
  }

  /** Then opening no object twice is no restriction, and the shortcut for cycles never fires, whatever b is. */
  lemma WithoutCycle(h: Heap, a: Value, b: Value)
    requires HeapOk(h) && In(h, a) && In(h, b) && NoCycleFrom(h, a)
    ensures (exists path :: SimplyTellsApart(h, a, b, path, {})) <==> exists path :: TellsApart(h, a, b, path)
  {
    if path :| TellsApart(h, a, b, path) {
      var end := Walk(h, a, path).value;
      var all := Opened(h, a, path) + if end.Ref? then [end.addr] else [];
      var trail := Trail(h, a, b, path);
      assert Distinct(all);
      assert trail == all[..|trail|];
      assert SimplyTellsApart(h, a, b, path, {});
    }
  }

  // ---------------------------------------------------------------- unfolding

  /** On a heap without cycles: what unfolds differently differs, the objects seen lying higher up. */
  lemma {:induction false} UnfoldsDifferently(h: Heap, rank: Addr -> nat, a: Value, b: Value, seen: set<Addr>)
    requires HeapOk(h) && Acyclic(h, rank) && In(h, a) && In(h, b)
    requires forall s :: s in seen ==> rank(s) >= Height(rank, a)
    ensures Unfold(h, rank, a) == Unfold(h, rank, b) <==> !Differ(h, a, b, seen)
    decreases Height(rank, a)
  {
    if a.Ref? && b.Ref? && h[a.addr].Arr? == h[b.addr].Arr? {
      var seen' := seen + {a.addr};
      forall step | Part(h, a, step).Some? && Part(h, b, step).Some?
        ensures Unfold(h, rank, Part(h, a, step).value) == Unfold(h, rank, Part(h, b, step).value) <==>
                !Differ(h, Part(h, a, step).value, Part(h, b, step).value, seen')
      {
        PartIsLower(h, rank, a, step);
        UnfoldsDifferently(h, rank, Part(h, a, step).value, Part(h, b, step).value, seen');
      }
      UnfoldsAlike(h, rank, a, b);
      hide HeapOk, Acyclic, UnlikeShapes, Part, Unfold;
      assert Differ(h, a, b, seen) <==> DifferInside(h, a.addr, b.addr, seen');
    }
  }

  lemma PartIsLower(h: Heap, rank: Addr -> nat, v: Value, step: Step)
    requires HeapOk(h) && Acyclic(h, rank) && In(h, v) && Part(h, v, step).Some?
    ensures Height(rank, Part(h, v, step).value) <= rank(v.addr)
  {
    if h[v.addr].Rec? {
      var i :| 0 <= i < |h[v.addr].fields| && h[v.addr].fields[i] == Field(step.key, Part(h, v, step).value);
    }
  }

  lemma UnfoldsAlike(h: Heap, rank: Addr -> nat, a: Value, b: Value)
    requires HeapOk(h) && Acyclic(h, rank) && In(h, a) && In(h, b) && a.Ref? && b.Ref? &&
             h[a.addr].Arr? == h[b.addr].Arr?
    ensures Unfold(h, rank, a) == Unfold(h, rank, b) <==>
            !UnlikeShapes(h, a.addr, b.addr) &&
            forall step :: Part(h, a, step).Some? && Part(h, b, step).Some? ==>
                             Unfold(h, rank, Part(h, a, step).value) == Unfold(h, rank, Part(h, b, step).value)
  {
    if h[a.addr].Arr? {
      ArraysAlike(h, rank, a.addr, b.addr);
      hide Unfold;
      var xs, ys := h[a.addr].elems, h[b.addr].elems;
      forall i | 0 <= i < |xs| && i < |ys|
        ensures Part(h, a, Index(i)) == xs[i] && Part(h, b, Index(i)) == ys[i]
      {
      }
    } else {
      RecordsAlike(h, rank, a.addr, b.addr);
      hide Unfold;
      var fa, fb := h[a.addr].fields, h[b.addr].fields;
      forall i | 0 <= i < |fa|
        ensures Part(h, a, Prop(fa[i].key)) == Some(fa[i].value) && Part(h, b, Prop(fa[i].key)) == Find(fb, fa[i].key)
      {
        FindsItself(fa, i);
      }
      forall step | Part(h, a, step).Some?
        ensures exists i :: 0 <= i < |fa| && fa[i] == Field(step.key, Part(h, a, step).value)
      {
      }
    }
  }

  lemma ArraysAlike(h: Heap, rank: Addr -> nat, a: Addr, b: Addr)
    requires HeapOk(h) && Acyclic(h, rank) && a in h && b in h && h[a].Arr? && h[b].Arr?
    ensures Unfold(h, rank, Ref(a)) == Unfold(h, rank, Ref(b)) <==>
            |h[a].elems| == |h[b].elems| &&
            forall i :: 0 <= i < |h[a].elems| ==> SameElement(h, rank, h[a].elems[i], h[b].elems[i])
  {
    var xs, ys := h[a].elems, h[b].elems;
    var us, vs := Unfold(h, rank, Ref(a)).elems, Unfold(h, rank, Ref(b)).elems;
    assert |us| == |xs| && |vs| == |ys|;
    if |xs| == |ys| {
      forall i | 0 <= i < |xs| ensures us[i] == vs[i] <==> SameElement(h, rank, xs[i], ys[i]) {}
    }
  }

  ghost predicate SameElement(h: Heap, rank: Addr -> nat, x: Option<Value>, y: Option<Value>)
    requires HeapOk(h) && Acyclic(h, rank) && (x.Some? ==> In(h, x.value)) && (y.Some? ==> In(h, y.value))
  {
    x.Some? == y.Some? && (x.Some? ==> Unfold(h, rank, x.value) == Unfold(h, rank, y.value))
  }
}
