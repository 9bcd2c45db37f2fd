/**
 Underscore's eq: deep comparison of heap graphs, with a stack of the objects being traversed that
 cuts cycles short, a countdown over array indices and a countdown of own keys.
*/
module DeepEqual {
  import opened Lists
  import opened HeapStructure

  // ---------------------------------------------------------------- primitives

  /** Strict equality: zeros of either sign are identical, NaN is not identical to itself. */
  predicate Identical(a: Value, b: Value) {
    if a.Num? && b.Num? then
      !a.n.NaN? && !b.n.NaN? && Magnitude(a.n) == Magnitude(b.n)
    else a == b
  }

  function Magnitude(n: Number): real {
    if n.Real? then n.r else 0.0
  }

  predicate IsZero(a: Value) {
    a.Num? && (a.n.NegativeZero? || a.n == Real(0.0))
  }

  datatype Class = StringClass | NumberClass | BooleanClass | FunctionClass | ArrayClass | ObjectClass | NoClass

  /** The class eq compares first. */
  function ClassOf(h: Heap, a: Value): Class
    requires In(h, a)
  {
    match a
    case Undefined => NoClass
    case Null => NoClass
    case Num(_) => NumberClass
    case Str(_) => StringClass
    case Boolean(_) => BooleanClass
    case Func(_) => FunctionClass
    case Ref(addr) => if h[addr].Arr? then ArrayClass else ObjectClass
  }

  // ---------------------------------------------------------------- eq

  /** The stack of objects being traversed, shared by all calls. */
  class Traversal {
    var items: seq<Addr>

    constructor ()
      ensures items == []
    {
      items := [];
    }

    ghost function Seen(): set<Addr>
      reads this
    {
      set a | a in items
    }
  }

  /** a == b for two values of one primitive class, once they are not identical */
  function SamePrimitive(a: Value, b: Value): bool {
    match (a, b)
    case (Str(s), Str(t)) => s == t
    case (Num(m), Num(n)) =>
      if m.NaN? then n.NaN?
      else if IsZero(a) then m == n
      else !n.NaN? && Magnitude(m) == Magnitude(n)
    case (Boolean(p), Boolean(q)) => p == q
    case _ => false
  }

  /** One comparison, within those whose objects are on the stack. */
  method Eq(h: Heap, a: Value, b: Value, stack: Traversal) returns (r: bool)
    requires HeapOk(h) && In(h, a) && In(h, b)
    modifies stack
    ensures old(stack.items) <= stack.items && (r ==> stack.items == old(stack.items))
    ensures r <==> !Differ(h, a, b, old(stack.Seen()))
    decreases h.Keys - stack.Seen(), 0
  {
    hide UnlikeShapes, DifferInside, HeapOk;
    if Identical(a, b) {
      if a.Ref? { SameNeverDiffers(h, a, stack.Seen()); }
      return !IsZero(a) || a == b;
    }
    if a.Undefined? || a.Null? || b.Undefined? || b.Null? {
      return false;
    }
    if ClassOf(h, a) != ClassOf(h, b) {
      return false;
    }
    if !a.Ref? {
      return SamePrimitive(a, b);
    }
    var length := |stack.items|;
    while length > 0
      invariant 0 <= length <= |stack.items|
      invariant forall k :: length <= k < |stack.items| ==> stack.items[k] != a.addr
    {
      length := length - 1;
      if stack.items[length] == a.addr { return true; }
    }
    r := EqOpened(h, a.addr, b.addr, stack);
  }

  /** What eq does with two objects of one class, the first not on the stack. */
  method EqOpened(h: Heap, a: Addr, b: Addr, stack: Traversal) returns (r: bool)
    requires HeapOk(h) && a in h && b in h && h[a].Arr? == h[b].Arr? && a !in stack.items
    modifies stack
    ensures old(stack.items) <= stack.items && (r ==> stack.items == old(stack.items))
    ensures r <==> !DifferInside(h, a, b, old(stack.Seen()) + {a})
    decreases h.Keys - stack.Seen() - {a}, 2
  {
    ghost var seen := stack.Seen() + {a};
    stack.items := stack.items + [a];
    assert stack.Seen() == seen;
    hide HeapOk;
    if h[a].Arr? {
      r := EqArrays(h, a, b, stack);
    } else {
      if h[a].ctor != h[b].ctor { return false; }
      r := EqRecords(h, a, b, stack);
    }
    stack.items := stack.items[..|stack.items| - 1];
  }

  /** An object never differs from itself. */
  lemma SameNeverDiffers(h: Heap, a: Value, seen: set<Addr>)
    requires HeapOk(h) && In(h, a)
    ensures !Differ(h, a, a, seen)
  {
    DifferMeans(h, a, a, seen);
    if path :| SimplyTellsApart(h, a, a, path, seen) {
      var x := Walk(h, a, path).value;
      if x.Ref? { SameShape(h, x.addr); }
    }
  }

  lemma SameShape(h: Heap, a: Addr)
    requires HeapOk(h) && a in h
    ensures !UnlikeShapes(h, a, a)
  {
    if h[a].Rec? {
      forall i | 0 <= i < |h[a].fields| ensures Find(h[a].fields, h[a].fields[i].key).Some? {
        FindsItself(h[a].fields, i);
      }
    }
  }

  /** Elements not told apart. */
  ghost predicate LikeElements(h: Heap, x: Option<Value>, y: Option<Value>, seen: set<Addr>)
    requires HeapOk(h) && (x.Some? ==> In(h, x.value)) && (y.Some? ==> In(h, y.value))
  {
    x.Some? == y.Some? && (x.Some? ==> !Differ(h, x.value, y.value, seen))
  }

  lemma ArraysDiffer(h: Heap, a: Addr, b: Addr, seen: set<Addr>)
    requires HeapOk(h) && a in h && b in h && h[a].Arr? && h[b].Arr?
    ensures DifferInside(h, a, b, seen) <==>
            |h[a].elems| != |h[b].elems| ||
            exists i :: 0 <= i < |h[a].elems| && !LikeElements(h, h[a].elems[i], h[b].elems[i], seen)
  {
    hide HeapOk, Differ;
    var xs, ys := h[a].elems, h[b].elems;
    forall i | 0 <= i < |xs| && i < |ys|
      ensures Part(h, Ref(a), Index(i)) == xs[i] && Part(h, Ref(b), Index(i)) == ys[i]
    {
    }
    if step :| Part(h, Ref(a), step).Some? && Part(h, Ref(b), step).Some? &&
               Differ(h, Part(h, Ref(a), step).value, Part(h, Ref(b), step).value, seen) {
      assert !LikeElements(h, xs[step.i], ys[step.i], seen);
    }
  }

  /** The array branch, without the stack's push and pop */
  method EqArrays(h: Heap, a: Addr, b: Addr, stack: Traversal) returns (result: bool)
    requires HeapOk(h) && a in h && b in h && h[a].Arr? && h[b].Arr?
    modifies stack
    ensures old(stack.items) <= stack.items && (result ==> stack.items == old(stack.items))
    ensures result <==> !DifferInside(h, a, b, old(stack.Seen()))
    decreases h.Keys - stack.Seen(), 1
  {
    ghost var seen := stack.Seen();
    ArraysDiffer(h, a, b, seen);
    hide Differ, DifferInside;
    var xs, ys := h[a].elems, h[b].elems;
    var size := |xs|;
    result := size == |ys|;
    if result {
      while size > 0
        invariant 0 <= size <= |xs| == |ys| && result
        invariant stack.items == old(stack.items)
        invariant forall i :: size <= i < |xs| ==> LikeElements(h, xs[i], ys[i], seen)
      {
        size := size - 1;
        result := xs[size].Some? == ys[size].Some?;
        if result {
          var x := if xs[size].Some? then xs[size].value else Undefined;
          var y := if ys[size].Some? then ys[size].value else Undefined;
          if xs[size].None? { UndefinedIsLikeItself(h, seen); }
          result := Eq(h, x, y, stack);
        }
        if !result { break; }
      }
    }
  }

  lemma UndefinedIsLikeItself(h: Heap, seen: set<Addr>)
    requires HeapOk(h)
    ensures !Differ(h, Undefined, Undefined, seen)
  {
  }

  /** Field f has an equal in b. */
  ghost predicate LikeField(h: Heap, f: Field, b: Addr, seen: set<Addr>)
    requires HeapOk(h) && In(h, f.value) && b in h && h[b].Rec?
  {
    var other := Find(h[b].fields, f.key);
    other.Some? && !Differ(h, f.value, other.value, seen)
  }

  lemma RecordsDiffer(h: Heap, a: Addr, b: Addr, seen: set<Addr>)
    requires HeapOk(h) && a in h && b in h && h[a].Rec? && h[b].Rec? && h[a].ctor == h[b].ctor
    ensures DifferInside(h, a, b, seen) <==>
            |h[a].fields| != |h[b].fields| ||
            exists i :: 0 <= i < |h[a].fields| && !LikeField(h, h[a].fields[i], b, seen)
  {
    hide Differ;
    var fa, fb := h[a].fields, h[b].fields;
    forall i | 0 <= i < |fa|
      ensures Part(h, Ref(a), Prop(fa[i].key)) == Some(fa[i].value) &&
              Part(h, Ref(b), Prop(fa[i].key)) == Find(fb, fa[i].key)
    {
      FindsItself(fa, i);
    }
    hide HeapOk;
    if step :| Part(h, Ref(a), step).Some? && Part(h, Ref(b), step).Some? &&
               Differ(h, Part(h, Ref(a), step).value, Part(h, Ref(b), step).value, seen) {
      var i :| 0 <= i < |fa| && fa[i] == Field(step.key, Part(h, Ref(a), step).value);
      assert !LikeField(h, fa[i], b, seen);
    }
    if i :| 0 <= i < |fa| && !LikeField(h, fa[i], b, seen) {
      assert Part(h, Ref(a), Prop(fa[i].key)) == Some(fa[i].value);
    }
  }

  /** The object branch after the constructor test, without the stack's push and pop */
  method EqRecords(h: Heap, a: Addr, b: Addr, stack: Traversal) returns (result: bool)
    requires HeapOk(h) && a in h && b in h && h[a].Rec? && h[b].Rec? && h[a].ctor == h[b].ctor
    modifies stack
    ensures old(stack.items) <= stack.items && (result ==> stack.items == old(stack.items))
    ensures result <==> !DifferInside(h, a, b, old(stack.Seen()))
    decreases h.Keys - stack.Seen(), 1
  {
    ghost var seen := stack.Seen();
    RecordsDiffer(h, a, b, seen);
    hide Differ, DifferInside;
    var fa, fb := h[a].fields, h[b].fields;
    var size: int := 0;
    result := true;
    var k := 0;
    while k < |fa|
      invariant 0 <= k <= |fa| && size == k && result
      invariant stack.items == old(stack.items)
      invariant forall i :: 0 <= i < k ==> LikeField(h, fa[i], b, seen)
    {
      size := size + 1;
      var other := Find(fb, fa[k].key);
      result := other.Some?;
      if result {
        result := Eq(h, fa[k].value, other.value, stack);
      }
      if !result { break; }
      k := k + 1;
    }
    if result {
      var l := 0;
      while l < |fb|
        invariant 0 <= l <= |fb| && size == |fa| - l >= 0
      {
        size := size - 1;
        if size == -1 { break; }
        l := l + 1;
      }
      result := size == 0;
    }
  }

  /**
   _.isEqual.  On every heap it is false exactly when some path that opens no object of a twice ends in a
   difference.  If no path from a comes back to an object, that is: when the two differ in structure, whatever
   b is.  And on a heap without cycles, shared objects or not: when they unfold differently.
  */
  method IsEqual(h: Heap, a: Value, b: Value) returns (r: bool)
    requires HeapOk(h) && In(h, a) && In(h, b)
    ensures r <==> !exists path :: SimplyTellsApart(h, a, b, path, {})
    ensures NoCycleFrom(h, a) ==> (r <==> exists alike :: Alike(h, alike, a, b))
    ensures (exists alike :: Alike(h, alike, a, b)) ==> r
    ensures forall rank :: Acyclic(h, rank) ==> (r <==> Unfold(h, rank, a) == Unfold(h, rank, b))
  {
    hide *;
    DifferMeans(h, a, b, {});
    DifferenceInStructure(h, a, b);
    DifferenceUnfolded(h, a, b);
    var stack := new Traversal();
    NothingSeen(stack);
    r := Eq(h, a, b, stack);
  }

  lemma DifferenceInStructure(h: Heap, a: Value, b: Value)
    requires HeapOk(h) && In(h, a) && In(h, b)
    ensures NoCycleFrom(h, a) ==> (Differ(h, a, b, {}) <==> !exists alike :: Alike(h, alike, a, b))
    ensures (exists alike :: Alike(h, alike, a, b)) ==> !Differ(h, a, b, {})
  {
    assert forall path :: SimplyTellsApart(h, a, b, path, {}) ==> TellsApart(h, a, b, path);
    hide *;
    DifferMeans(h, a, b, {});
    StructureIsNoDifference(h, a, b);
    if NoCycleFrom(h, a) { WithoutCycle(h, a, b); }
  }

  lemma DifferenceUnfolded(h: Heap, a: Value, b: Value)
    requires HeapOk(h) && In(h, a) && In(h, b)
    ensures forall rank :: Acyclic(h, rank) ==> (Differ(h, a, b, {}) <==> Unfold(h, rank, a) != Unfold(h, rank, b))
  {
    hide *;
    forall rank | Acyclic(h, rank) ensures Differ(h, a, b, {}) <==> Unfold(h, rank, a) != Unfold(h, rank, b) {
      UnfoldsDifferently(h, rank, a, b, {});
    }
  }

  lemma NothingSeen(stack: Traversal)
    requires stack.items == []
    ensures stack.Seen() == {}
  {
  }

  /**
   Where cycles are cut too short: x = [x] and [[]] have different structure, but the path that shows it comes
   back to x.
  */
  lemma CycleCutShort()
    ensures var h: Heap := map[0 := Arr([Some(Ref(0))]), 1 := Arr([Some(Ref(2))]), 2 := Arr([])];
            HeapOk(h) && !(exists path :: SimplyTellsApart(h, Ref(0), Ref(1), path, {})) &&
            forall alike :: !Alike(h, alike, Ref(0), Ref(1))
  {
    var h: Heap := map[0 := Arr([Some(Ref(0))]), 1 := Arr([Some(Ref(2))]), 2 := Arr([])];
    ArraysDiffer(h, 0, 1, {0});
    assert !Differ(h, Ref(0), Ref(2), {0});
    DifferMeans(h, Ref(0), Ref(1), {});
    SelfAgainstEmpty(h);
    StructureIsNoDifference(h, Ref(0), Ref(1));
  }

  lemma SelfAgainstEmpty(h: Heap)
    requires h == map[0 := Arr([Some(Ref(0))]), 1 := Arr([Some(Ref(2))]), 2 := Arr([])] && HeapOk(h)
    ensures exists path :: TellsApart(h, Ref(0), Ref(1), path)
  {
    var path := [Index(0)];
    assert path[1..] == [];
    assert Walk(h, Ref(0), path) == Some(Ref(0)) && Walk(h, Ref(1), path) == Some(Ref(2));
    assert TellsApart(h, Ref(0), Ref(1), path);
  }
}
