/**
 jQuery.event: the handler lists of one element, delegated handlers spliced in front of the
 directly bound ones, and the queue built from them for an event.  A list is compared with the
 registrations it holds, in the order they were made.
*/
module EventHandlers {
  import opened Lists
  import opened Dom

  type Selector = string

  /** handleObj, with the number of the registration; selector None for a directly bound handler. */
  datatype HandleObj = HandleObj(serial: nat, guid: nat, origType: string, namespace: string,
                                 selector: Option<Selector>)

  /** The array kept for one type, with its count of delegated handlers. */
  datatype HandlerList = HandlerList(handlers: seq<HandleObj>, delegateCount: nat)

  /** One word of `types`, split into its type ("" if missing) and its namespaces. */
  datatype TypeSpec = TypeSpec(name: string, namespace: string)

  /** What remove looks for: None and "" where an argument leaves it open. */
  datatype Wanted = Wanted(origType: Option<string>, guid: Option<nat>, namespace: string, selector: Option<Selector>)

  // ---------------------------------------------------------------- the registrations in plain order

  function IsDelegated(): HandleObj -> bool {
    (h: HandleObj) => h.selector.Some?
  }

  function IsDirect(): HandleObj -> bool {
    (h: HandleObj) => h.selector.None?
  }

  function Delegated(regs: seq<HandleObj>): seq<HandleObj> {
    Kept(regs, IsDelegated())
  }

  function Direct(regs: seq<HandleObj>): seq<HandleObj> {
    Kept(regs, IsDirect())
  }

  /** The list an element keeps for the registrations regs: the delegated ones, then the others, each in order. */
  ghost predicate Holds(l: HandlerList, regs: seq<HandleObj>) {
    l.handlers == Delegated(regs) + Direct(regs) && l.delegateCount == |Delegated(regs)|
  }

  /** Splicing a delegated handler in at delegateCount, pushing any other. */
  function WithHandler(l: HandlerList, h: HandleObj): HandlerList
    requires l.delegateCount <= |l.handlers|
  {
    if h.selector.Some? then
      HandlerList(l.handlers[..l.delegateCount] + [h] + l.handlers[l.delegateCount..], l.delegateCount + 1)
    else l.(handlers := l.handlers + [h])
  }

  lemma AddedInPlace(l: HandlerList, regs: seq<HandleObj>, h: HandleObj)
    requires Holds(l, regs)
    ensures l.delegateCount <= |l.handlers| && Holds(WithHandler(l, h), regs + [h])
  {
    assert l.handlers[..l.delegateCount] == Delegated(regs) && l.handlers[l.delegateCount..] == Direct(regs);
  }

  // ---------------------------------------------------------------- removal

  /** The test remove makes on each handler. */
  predicate Selects(nsTest: (string, string) -> bool, w: Wanted, h: HandleObj) {
    && (w.origType.None? || w.origType == Some(h.origType))
    && (w.guid.None? || w.guid == Some(h.guid))
    && (w.namespace == "" || nsTest(w.namespace, h.namespace))
    && (w.selector.None? || w.selector == h.selector || (w.selector == Some("**") && h.selector.Some?))
  }

  function Stays(nsTest: (string, string) -> bool, w: Wanted): HandleObj -> bool {
    (h: HandleObj) => !Selects(nsTest, w, h)
  }

  /**
   Which registrations off leaves: those of another type, with another handler's guid, outside the namespaces, or with
   another selector, as far as it names these.  Without a selector delegated ones go too, with "**" only those.
  */
  lemma OffLeaves(nsTest: (string, string) -> bool, w: Wanted, regs: seq<HandleObj>, h: HandleObj)
    ensures h in Kept(regs, Stays(nsTest, w)) <==>
            h in regs &&
            ((w.origType.Some? && h.origType != w.origType.value) ||
             (w.guid.Some? && h.guid != w.guid.value) ||
             (w.namespace != "" && !nsTest(w.namespace, h.namespace)) ||
             (w.selector.Some? &&
              (h.selector.None? || (w.selector.value != "**" && h.selector.value != w.selector.value))))
  {
    KeptIn(regs, Stays(nsTest, w), h);
  }

  lemma KeptCommutes(regs: seq<HandleObj>, f: HandleObj -> bool, g: HandleObj -> bool)
    ensures Kept(Kept(regs, f), g) == Kept(Kept(regs, g), f)
  {
    var both := (h: HandleObj) => f(h) && g(h);
    KeptTwice(regs, f, g, both);
    KeptTwice(regs, g, f, both);
  }

  lemma {:induction false} RemovedEverywhere(l: HandlerList, regs: seq<HandleObj>, f: HandleObj -> bool)
    requires Holds(l, regs)
    ensures Holds(HandlerList(Kept(l.handlers, f), |Kept(l.handlers[..l.delegateCount], f)|), Kept(regs, f))
  {
    KeptCommutes(regs, IsDelegated(), f);
    KeptCommutes(regs, IsDirect(), f);
    KeptAppend(Delegated(regs), Direct(regs), f);
    assert l.handlers[..l.delegateCount] == Delegated(regs);
  }

  lemma {:induction false} KeptNone(s: seq<HandleObj>, f: HandleObj -> bool)
    requires forall h :: h in s ==> !f(h)
    ensures Kept(s, f) == []
  {
    if s != [] { KeptNone(s[..|s| - 1], f); }
  }

  /** Handlers are delegated exactly up to delegateCount, and there are some. */
  lemma ListShape(l: HandlerList, regs: seq<HandleObj>)
    requires Holds(l, regs)
    ensures l.delegateCount <= |l.handlers| && l.handlers[..l.delegateCount] == Delegated(regs) &&
            l.handlers[l.delegateCount..] == Direct(regs)
    ensures forall i :: 0 <= i < |l.handlers| ==> (l.handlers[i].selector.Some? <==> i < l.delegateCount)
    ensures l.handlers == [] <==> regs == []
  {
    forall h ensures h in Delegated(regs) <==> h in regs && h.selector.Some? { KeptIn(regs, IsDelegated(), h); }
    forall h ensures h in Direct(regs) <==> h in regs && h.selector.None? { KeptIn(regs, IsDirect(), h); }
    forall i | 0 <= i < |l.handlers| ensures l.handlers[i].selector.Some? <==> i < l.delegateCount {
      assert l.handlers[i] in if i < l.delegateCount then Delegated(regs) else Direct(regs);
    }
    if regs != [] { assert regs[0] in l.handlers; }
  }

  /** The registrations of each type that has any, in the order they were made. */
  type Registry = map<string, seq<HandleObj>>

  function Of(regs: Registry, t: string): seq<HandleObj> {
    if t in regs then regs[t] else []
  }

  function Updated(regs: Registry, t: string, left: seq<HandleObj>): Registry {
    if left == [] then regs - {t} else regs[t := left]
  }

  /**
   for-in still meets type number i of the order: its list keeps a handler, or no type that was met before is
   redirected to it.
  */
  ghost predicate Met(was: Registry, f: HandleObj -> bool, redirect: string -> string, order: seq<string>, i: nat)
    requires i < |order|
  {
    Kept(Of(was, order[i]), f) != [] || forall j :: 0 <= j < i && redirect(order[j]) == order[i] ==>
                                              !Met(was, f, redirect, order, j)
  }

  /** One of the first n types is met and redirected to t. */
  ghost predicate Reached(was: Registry, f: HandleObj -> bool, redirect: string -> string, order: seq<string>, n: nat,
                          t: string)
    requires n <= |order|
  {
    exists i :: 0 <= i < n && redirect(order[i]) == t && Met(was, f, redirect, order, i)
  }

  /** After the first n types exactly the lists reached have been filtered. */
  ghost predicate Swept(was: Registry, now: Registry, f: HandleObj -> bool, redirect: string -> string,
                        order: seq<string>, n: nat)
    requires n <= |order|
  {
    forall t :: Of(now, t) == if Reached(was, f, redirect, order, n, t) then Kept(Of(was, t), f) else Of(was, t)
  }

  lemma NothingSwept(was: Registry, f: HandleObj -> bool, redirect: string -> string, order: seq<string>)
    ensures Swept(was, was, f, redirect, order, 0)
  {
  }

  lemma MetStep(was: Registry, now: Registry, f: HandleObj -> bool, redirect: string -> string, order: seq<string>,
                i: nat)
    requires i < |order| && Swept(was, now, f, redirect, order, i) && Of(was, order[i]) != []
    ensures Of(now, order[i]) != [] <==> Met(was, f, redirect, order, i)
  {
    hide Kept;
  }

  /** Where type number i is gone by now nothing is done; elsewhere its list is filtered, once more perhaps. */
  lemma SweptOneMore(was: Registry, now: Registry, f: HandleObj -> bool, redirect: string -> string,
                     order: seq<string>, i: nat)
    requires i < |order| && Swept(was, now, f, redirect, order, i) && Of(was, order[i]) != []
    ensures var t := redirect(order[i]);
            Swept(was, if Of(now, order[i]) == [] then now else Updated(now, t, Kept(Of(now, t), f)), f, redirect,
                  order, i + 1)
  {
    var t := redirect(order[i]);
    MetStep(was, now, f, redirect, order, i);
    KeptTwice(Of(was, t), f, f, f);
    UpdatedMeans(now, t, Kept(Of(now, t), f));
    hide Kept, Met, Reached, Of, Updated;
    forall x { ReachedOneMore(was, f, redirect, order, i, x); }
  }

  lemma UpdatedMeans(regs: Registry, t: string, left: seq<HandleObj>)
    ensures forall x :: Of(Updated(regs, t, left), x) == if x == t then left else Of(regs, x)
  {
  }

  lemma ReachedOneMore(was: Registry, f: HandleObj -> bool, redirect: string -> string, order: seq<string>, i: nat,
                       x: string)
    requires i < |order|
    ensures Reached(was, f, redirect, order, i + 1, x) <==>
            Reached(was, f, redirect, order, i, x) || (x == redirect(order[i]) && Met(was, f, redirect, order, i))
  {
    hide Met;
  }

  /**
   Whatever the order: the lists of the types that no special event redirects are filtered, and those that a type
   with handlers left is redirected to; as they were are those that no type is redirected to.
  */
  lemma SweptAnyOrder(was: Registry, now: Registry, f: HandleObj -> bool, redirect: string -> string,
                      order: seq<string>, k: string)
    requires Swept(was, now, f, redirect, order, |order|) && k in order
    ensures redirect(k) == k ==> Of(now, k) == Kept(Of(was, k), f)
    ensures Kept(Of(was, k), f) != [] ==> Of(now, redirect(k)) == Kept(Of(was, redirect(k)), f)
    ensures forall t :: (forall key :: key in order ==> redirect(key) != t) ==> Of(now, t) == Of(was, t)
  {
    hide Kept;
    var i :| 0 <= i < |order| && order[i] == k;
    if redirect(k) == k && !Met(was, f, redirect, order, i) {
      var j :| 0 <= j < i && redirect(order[j]) == k && Met(was, f, redirect, order, j);
      assert Reached(was, f, redirect, order, |order|, k);
    }
  }

  /** The order can matter: of two types redirected to each other the one met first keeps its handlers. */
  lemma OrderMatters(a: string, b: string, h: HandleObj, f: HandleObj -> bool)
    requires a != b && !f(h)
    ensures var was: Registry, redirect := map[a := [h], b := [h]], t => if t == a then b else if t == b then a else t;
            Reached(was, f, redirect, [a, b], 2, b) && !Reached(was, f, redirect, [a, b], 2, a) &&
            Reached(was, f, redirect, [b, a], 2, a) && !Reached(was, f, redirect, [b, a], 2, b)
  {
    var was: Registry, redirect := map[a := [h], b := [h]], t => if t == a then b else if t == b then a else t;
    KeptNone([h], f);
    hide Kept;
    assert Met(was, f, redirect, [a, b], 0) && !Met(was, f, redirect, [a, b], 1);
    assert Met(was, f, redirect, [b, a], 0) && !Met(was, f, redirect, [b, a], 1);
  }

  /** The splice loop has filtered what lies behind position j, and counted down for what it took from the first d. */
  ghost predicate Splicing(all: seq<HandleObj>, d: nat, f: HandleObj -> bool, j: nat, handlers: seq<HandleObj>,
                           count: int)
  {
    && j <= |all| && d <= |all| && handlers == all[..j] + Kept(all[j..], f)
    && count == if j >= d then d else j + |Kept(all[j..d], f)|
  }

  lemma SpliceStart(all: seq<HandleObj>, d: nat, f: HandleObj -> bool)
    requires d <= |all|
    ensures Splicing(all, d, f, |all|, all, d)
  {
    assert all[..|all|] + [] == all;
  }

  lemma {:induction false} SpliceStep(all: seq<HandleObj>, d: nat, f: HandleObj -> bool, j: nat,
                                      handlers: seq<HandleObj>, count: int)
    requires j < |all| && Splicing(all, d, f, j + 1, handlers, count)
    ensures j < |handlers| && handlers[j] == all[j]
    ensures if f(all[j]) then Splicing(all, d, f, j, handlers, count)
            else Splicing(all, d, f, j, handlers[..j] + handlers[j + 1..], if j < d then count - 1 else count)
  {
    SplicedList(all, f, j);
    if j < d { SplicedCount(all, d, f, j); }
    hide Kept;
  }

  lemma SplicedList(all: seq<HandleObj>, f: HandleObj -> bool, j: nat)
    requires j < |all|
    ensures var was, now := all[..j + 1] + Kept(all[j + 1..], f), all[..j] + Kept(all[j..], f);
            was[j] == all[j] && (if f(all[j]) then was == now else was[..j] + was[j + 1..] == now)
  {
    hide *;
    KeptHead(all, j, f);
    TakeOneMore(all, j);
    Spliced(all[..j], all[j], all[..j + 1], Kept(all[j + 1..], f));
  }

  lemma KeptHead(all: seq<HandleObj>, j: nat, f: HandleObj -> bool)
    requires j < |all|
    ensures Kept(all[j..], f) == (if f(all[j]) then [all[j]] else []) + Kept(all[j + 1..], f)
  {
    KeptAppend([all[j]], all[j + 1..], f);
    assert Kept([all[j]][..0], f) == [] && Kept([all[j]], f) == if f(all[j]) then [all[j]] else [];
    hide *;
    assert all[j..] == [all[j]] + all[j + 1..];
  }

  lemma TakeOneMore(all: seq<HandleObj>, j: nat)
    requires j < |all|
    ensures all[..j + 1] == all[..j] + [all[j]]
  {
  }

  lemma SplicedCount(all: seq<HandleObj>, d: nat, f: HandleObj -> bool, j: nat)
    requires j < d <= |all|
    ensures (if j + 1 >= d then d else j + 1 + |Kept(all[j + 1..d], f)|) ==
            j + |Kept(all[j..d], f)| + if f(all[j]) then 0 else 1
  {
    KeptFromFront(all, j, d, f);
  }

  lemma Spliced(before: seq<HandleObj>, h: HandleObj, upTo: seq<HandleObj>, tail: seq<HandleObj>)
    requires upTo == before + [h]
    ensures (upTo + tail)[|before|] == h && upTo + tail == before + ([h] + tail)
    ensures (upTo + tail)[..|before|] + (upTo + tail)[|before| + 1..] == before + tail
  {
    assert (upTo + tail)[..|before|] == before && (upTo + tail)[|before| + 1..] == tail;
  }

  lemma SpliceEnd(all: seq<HandleObj>, d: nat, f: HandleObj -> bool, handlers: seq<HandleObj>, count: int)
    requires Splicing(all, d, f, 0, handlers, count)
    ensures handlers == Kept(all, f) && count == |Kept(all[..d], f)|
  {
    assert all[0..] == all && all[0..d] == all[..d];
    assert d == 0 ==> all[..d] == [];
  }

  /** Every list holds its type's registrations, of which there are some. */
  ghost predicate AllHold(events: map<string, HandlerList>, regs: Registry) {
    && events.Keys == regs.Keys
    && forall t :: t in events ==> regs[t] != [] && Holds(events[t], regs[t])
  }

  lemma HoldOneMore(events: map<string, HandlerList>, regs: Registry, t: string, l: HandlerList,
                    rs: seq<HandleObj>)
    requires AllHold(events, regs) && Holds(l, rs) && rs != []
    ensures AllHold(events[t := l], regs[t := rs])
  {
    hide Holds;
  }

  lemma HoldOneLess(events: map<string, HandlerList>, regs: Registry, t: string)
    requires AllHold(events, regs)
    ensures AllHold(events - {t}, regs - {t})
  {
    hide Holds;
  }

  lemma HeldList(events: map<string, HandlerList>, regs: Registry, t: string)
    requires AllHold(events, regs)
    ensures (t in events <==> t in regs) && Holds(if t in events then events[t] else HandlerList([], 0), Of(regs, t))
  {
    NothingHeld();
    hide Holds;
  }

  lemma UpdatedIs(regs: Registry, t: string, left: seq<HandleObj>)
    ensures Updated(regs, t, left) == if left == [] then regs - {t} else regs[t := left]
  {
  }

  lemma NothingLeft(regs: Registry, t: string, f: HandleObj -> bool)
    requires t !in regs
    ensures Updated(regs, t, Kept(Of(regs, t), f)) == regs
  {
  }

  class Element {
    /** The type a special event registers under, delegated or not; any other event registers under its own. */
    const special: (string, bool) -> string
    /** the namespace pattern of remove, against a handler's namespace */
    const nsTest: (string, string) -> bool
    var events: map<string, HandlerList>
    var serial: nat
    ghost var regs: Registry

    constructor (special: (string, bool) -> string, nsTest: (string, string) -> bool)
      ensures Valid() && regs == map[] && this.special == special && this.nsTest == nsTest
    {
      this.special, this.nsTest := special, nsTest;
      events, serial, regs := map[], 0, map[];
    }

    ghost predicate Valid()
      reads this
    {
      AllHold(events, regs)
    }

    ghost function Regs(t: string): seq<HandleObj>
      reads this
    {
      Of(regs, t)
    }

    /** add, for one word of `types` */
    method AddOne(spec: TypeSpec, guid: nat, selector: Option<Selector>)
      requires Valid()
      modifies this
      ensures Valid()
      ensures if spec.name == "" then regs == old(regs) && serial == old(serial)
              else serial == old(serial) + 1 &&
                   var t := special(spec.name, selector.Some?);
                   var h := HandleObj(old(serial), guid, spec.name, spec.namespace, selector);
                   regs == old(regs)[t := old(Regs(t)) + [h]]
    {
      if spec.name == "" { return; }
      var t := special(spec.name, selector.Some?);
      var h := HandleObj(serial, guid, spec.name, spec.namespace, selector);
      var l := HandlerList([], 0);
      if t in events { l := events[t]; }
      ghost var rs := Of(regs, t);
      HeldList(events, regs, t);
      AddedInPlace(l, rs, h);
      HoldOneMore(events, regs, t, WithHandler(l, h), rs + [h]);
      hide *;
      serial, regs, events := serial + 1, regs[t := rs + [h]], events[t := WithHandler(l, h)];
    }

    /** The splice loop of remove over one list */
    method RemoveMatching(l: HandlerList, w: Wanted, ghost rs: seq<HandleObj>) returns (l': HandlerList)
      requires Holds(l, rs)
      ensures Holds(l', Kept(rs, Stays(nsTest, w)))
    {
      ListShape(l, rs);
      RemovedEverywhere(l, rs, Stays(nsTest, w));
      SpliceStart(l.handlers, l.delegateCount, Stays(nsTest, w));
      hide Holds, Delegated, Direct, Splicing, Kept;
      var handlers, delegateCount: int, j := l.handlers, l.delegateCount, |l.handlers|;
      while j > 0
        invariant 0 <= j <= |l.handlers|
        invariant Splicing(l.handlers, l.delegateCount, Stays(nsTest, w), j, handlers, delegateCount)
      {
        j := j - 1;
        SpliceStep(l.handlers, l.delegateCount, Stays(nsTest, w), j, handlers, delegateCount);
        var h := handlers[j];
        if Selects(nsTest, w, h) {
          handlers := handlers[..j] + handlers[j + 1..];
          if h.selector.Some? { delegateCount := delegateCount - 1; }
        }
      }
      SpliceEnd(l.handlers, l.delegateCount, Stays(nsTest, w), handlers, delegateCount);
      l' := HandlerList(handlers, delegateCount);
    }

    /** remove, for one word that names a type */
    method RemoveOne(name: string, w: Wanted)
      requires Valid()
      modifies this`events, this`regs
      ensures Valid()
      ensures var t := special(name, w.selector.Some?);
              var left := Kept(old(Regs(t)), Stays(nsTest, w));
              regs == Updated(old(regs), t, left)
    {
      var t := special(name, w.selector.Some?);
      HeldList(events, regs, t);
      ghost var left := Kept(Of(regs, t), Stays(nsTest, w));
      UpdatedIs(regs, t, left);
      if t !in regs { NothingLeft(regs, t, Stays(nsTest, w)); }
      hide *;
      if t !in events { return; }
      var l := RemoveMatching(events[t], w, Of(regs, t));
      ListShape(l, left);
      if l.handlers == [] {
        HoldOneLess(events, regs, t);
        events := events - {t};
        regs := regs - {t};
      } else {
        HoldOneMore(events, regs, t, l, left);
        events := events[t := l];
        regs := regs[t := left];
      }
    }

    lemma StillThere(t: string)
      requires Valid()
      ensures t in events <==> Of(regs, t) != []
    {
    }

    /** Where the lists of special events are. */
    function Redirect(w: Wanted): string -> string {
      t => special(t, w.selector.Some?)
    }

    /** Type number i of for-in's order: nothing if it is gone by now. */
    method RemoveFromNext(w: Wanted, order: seq<string>, i: nat, ghost was: Registry)
      requires Valid() && i < |order| && Of(was, order[i]) != []
      requires Swept(was, regs, Stays(nsTest, w), Redirect(w), order, i)
      modifies this`events, this`regs
      ensures Valid() && Swept(was, regs, Stays(nsTest, w), Redirect(w), order, i + 1)
    {
      SweptOneMore(was, regs, Stays(nsTest, w), Redirect(w), order, i);
      StillThere(order[i]);
      assert Redirect(w)(order[i]) == special(order[i], w.selector.Some?);
      hide *;
      if order[i] in events { RemoveOne(order[i], w); }
    }

    /** remove, for one word without a type: the same for every type there is, in the order for-in takes */
    method RemoveFromAll(w: Wanted, order: seq<string>)
      requires Valid() && w.origType.None?
      requires forall t :: t in order <==> t in events
      modifies this`events, this`regs
      ensures Valid()
      ensures Swept(old(regs), regs, Stays(nsTest, w), Redirect(w), order, |order|)
    {
      ghost var was := regs;
      NothingSwept(was, Stays(nsTest, w), Redirect(w), order);
      assert forall i :: 0 <= i < |order| ==> Of(was, order[i]) != [];
      hide *;
      for i := 0 to |order|
        invariant Valid() && Swept(was, regs, Stays(nsTest, w), Redirect(w), order, i)
      {
        RemoveFromNext(w, order, i, was);
      }
    }

    /** The queue for an event of type t, the element itself being `self` in the tree */
    method HandlerQueue(t: string, tree: Tree, self: Path, event: Event) returns (queue: seq<Matched>)
      requires Valid()
      ensures queue == Expected(Regs(t), tree, self, event)
    {
      var l := if t in events then events[t] else HandlerList([], 0);
      HeldList(events, regs, t);
      hide AllHold;
      ListShape(l, Regs(t));
      queue := [];
      if l.delegateCount != 0 && event.isNode && !event.badClick {
        queue := ClimbFromTarget(l, Regs(t), tree, self, event);
      } else {
        NoDelegated(Regs(t), tree, Rising(event.target, self), event, l.delegateCount);
      }
      if l.delegateCount < |l.handlers| {
        queue := queue + [Matched(self, l.handlers[l.delegateCount..])];
      }
    }

    /** The outer loop, from the target up to the element */
    method ClimbFromTarget(l: HandlerList, ghost rs: seq<HandleObj>, tree: Tree, self: Path, event: Event)
      returns (queue: seq<Matched>)
      requires Holds(l, rs)
      ensures queue == DelegatedPart(rs, tree, Rising(event.target, self), event)
    {
      hide Holds, Matching, DelegatedAt, DelegatedPart;
      queue := [];
      var cur := event.target;
      var more := cur != self;
      ghost var rest := Rising(cur, self);
      ghost var goal := DelegatedPart(rs, tree, rest, event);
      while more
        invariant more ==> cur != self
        invariant rest == if more then Rising(cur, self) else []
        invariant queue + DelegatedPart(rs, tree, rest, event) == goal
        decreases more, |cur|
      {
        var found := VisitNode(l, rs, tree, cur, event);
        FirstNodeAppended(queue, rs, tree, rest, event);
        queue := queue + found;
        rest := rest[1..];
        if cur == [] {
          more := false;
        } else {
          cur := Parent(cur);
          more := cur != self;
        }
      }
      NothingAppended(queue, rs, tree, event);
    }

    method VisitNode(l: HandlerList, ghost rs: seq<HandleObj>, tree: Tree, cur: Path, event: Event)
      returns (found: seq<Matched>)
      requires Holds(l, rs)
      ensures found == DelegatedAt(rs, tree, cur, event)
    {
      found := [];
      if IsElement(tree, cur) && !event.disabled(cur) {
        var matched := MatchedHandlers(l, rs, cur, event);
        if matched != [] { found := [Matched(cur, matched)]; }
      }
    }

    /** The inner loop: the delegated handlers whose selector matches cur, each selector tried once */
    method MatchedHandlers(l: HandlerList, ghost rs: seq<HandleObj>, cur: Path, event: Event)
      returns (matched: seq<HandleObj>)
      requires Holds(l, rs)
      ensures matched == Kept(rs, Matching(event, cur))
    {
      ListShape(l, rs);
      matched := [];
      var tried: map<Selector, bool> := map[];
      var i := 0;
      while i < l.delegateCount
        invariant 0 <= i <= l.delegateCount
        invariant forall sel :: sel in tried ==> tried[sel] == event.hits(sel, cur)
        invariant matched == Kept(l.handlers[..i], Matching(event, cur))
      {
        var sel := l.handlers[i].selector.value;
        if sel !in tried { tried := tried[sel := event.hits(sel, cur)]; }
        if tried[sel] { matched := matched + [l.handlers[i]]; }
        assert l.handlers[..i + 1][..i] == l.handlers[..i];
        i := i + 1;
      }
      KeptTwice(rs, IsDelegated(), Matching(event, cur), Matching(event, cur));
    }
  }

  // ---------------------------------------------------------------- the queue for an event

  /** A node and the handlers to run there. */
  datatype Matched = Matched(elem: Path, handlers: seq<HandleObj>)

  /**
   What handlers reads off an event: its target, whether that is a node, whether this is a click of
   another than the primary button, which elements are skipped as disabled, and what selectors match.
  */
  datatype Event = Event(target: Path, isNode: bool, badClick: bool, disabled: Path -> bool,
                         hits: (Selector, Path) -> bool)

  /** From the target up to, but without, self; to the root if self is not above. */
  function Rising(cur: Path, self: Path): seq<Path> {
    if cur == self then [] else [cur] + if cur == [] then [] else Rising(Parent(cur), self)
  }

  function Matching(event: Event, cur: Path): HandleObj -> bool {
    (h: HandleObj) => h.selector.Some? && event.hits(h.selector.value, cur)
  }

  /** At one node: the registrations whose selector it matches, in registration order. */
  function DelegatedAt(regs: seq<HandleObj>, tree: Tree, cur: Path, event: Event): seq<Matched> {
    var hs := Kept(regs, Matching(event, cur));
    if IsElement(tree, cur) && !event.disabled(cur) && hs != [] then [Matched(cur, hs)] else []
  }

  function DelegatedPart(regs: seq<HandleObj>, tree: Tree, nodes: seq<Path>, event: Event): seq<Matched> {
    if nodes == [] then [] else DelegatedAt(regs, tree, nodes[0], event) + DelegatedPart(regs, tree, nodes[1..], event)
  }

  lemma FirstNodeAppended(queue: seq<Matched>, regs: seq<HandleObj>, tree: Tree, nodes: seq<Path>, event: Event)
    requires nodes != []
    ensures queue + DelegatedPart(regs, tree, nodes, event) ==
            queue + DelegatedAt(regs, tree, nodes[0], event) + DelegatedPart(regs, tree, nodes[1..], event)
  {
    hide DelegatedAt;
  }

  lemma NothingAppended(queue: seq<Matched>, regs: seq<HandleObj>, tree: Tree, event: Event)
    ensures queue + DelegatedPart(regs, tree, [], event) == queue
  {
  }

  /**
   What an event calls: delegated matches from the target upward, then the direct handlers, all in registration
   order.
  */
  function Expected(regs: seq<HandleObj>, tree: Tree, self: Path, event: Event): seq<Matched> {
    (if event.isNode && !event.badClick then DelegatedPart(regs, tree, Rising(event.target, self), event) else []) +
    (if Direct(regs) != [] then [Matched(self, Direct(regs))] else [])
  }

  lemma {:induction false} NoDelegated(regs: seq<HandleObj>, tree: Tree, nodes: seq<Path>, event: Event, count: nat)
    requires count == |Delegated(regs)|
    ensures count == 0 ==> DelegatedPart(regs, tree, nodes, event) == []
  {
    if nodes != [] && count == 0 {
      KeptTwice(regs, IsDelegated(), Matching(event, nodes[0]), Matching(event, nodes[0]));
      assert Kept(regs, Matching(event, nodes[0])) == Kept(Delegated(regs), Matching(event, nodes[0])) == [];
      NoDelegated(regs, tree, nodes[1..], event, count);
    }
  }

  lemma KeptFromFront(s: seq<HandleObj>, i: nat, n: nat, f: HandleObj -> bool)
    requires i < |s| && n <= |s|
    ensures i < n ==> Kept(s[i..n], f) == (if f(s[i]) then [s[i]] else []) + Kept(s[i + 1..n], f)
    ensures i + 1 == n ==> Kept(s[i + 1..n], f) == []
  {
    if i < n {
      assert s[i..n] == [s[i]] + s[i + 1..n] && [s[i]][..0] == [];
      KeptAppend([s[i]], s[i + 1..n], f);
    }
  }

  lemma NothingHeld()
    ensures Holds(HandlerList([], 0), [])
  {
  }

  // ---------------------------------------------------------------- the queue on its own terms

  /** p lies on the way up from the target: below self, or anywhere above the target if self is not. */
  ghost predicate OnTheWay(target: Path, self: Path, p: Path) {
    |p| <= |target| && p == target[..|p|] && (|self| <= |target| && self == target[..|self|] ==> |self| < |p|)
  }

  lemma {:induction false} RisingMeans(cur: Path, self: Path)
    ensures forall p :: p in Rising(cur, self) <==> OnTheWay(cur, self, p)
    ensures forall i, j :: 0 <= i < j < |Rising(cur, self)| ==> |Rising(cur, self)[i]| > |Rising(cur, self)[j]|
    ensures forall i :: 0 <= i < |Rising(cur, self)| ==> |Rising(cur, self)[i]| <= |cur|
  {
    if cur == self {
      assert cur[..|cur|] == cur;
    } else if cur == [] {
      assert self != [];
    } else {
      var up := Parent(cur);
      RisingMeans(up, self);
      assert forall n :: 0 <= n <= |up| ==> up[..n] == cur[..n];
      assert cur == cur[..|cur|];
      forall p ensures p in Rising(cur, self) <==> OnTheWay(cur, self, p) {
        if |p| <= |up| { assert OnTheWay(cur, self, p) <==> OnTheWay(up, self, p); }
      }
    }
  }

  /** Whether a registration is to run at p for this event. */
  ghost function DueAt(tree: Tree, self: Path, event: Event, p: Path): HandleObj -> bool {
    (h: HandleObj) =>
      match h.selector
      case None => p == self
      case Some(sel) =>
        event.isNode && !event.badClick && OnTheWay(event.target, self, p) && IsElement(tree, p) &&
        !event.disabled(p) && event.hits(sel, p)
  }

  lemma {:induction false} DelegatedMeans(regs: seq<HandleObj>, tree: Tree, nodes: seq<Path>, event: Event)
    requires forall i, j :: 0 <= i < j < |nodes| ==> |nodes[i]| > |nodes[j]|
    ensures var q := DelegatedPart(regs, tree, nodes, event);
            && (forall m :: m in q <==> m.elem in nodes && m in DelegatedAt(regs, tree, m.elem, event))
            && (forall i, j :: 0 <= i < j < |q| ==> |q[i].elem| > |q[j].elem|)
  {
    if nodes != [] {
      DelegatedMeans(regs, tree, nodes[1..], event);
      AtOneNode(regs, tree, nodes[0], event);
      hide DelegatedAt, DelegatedPart;
      var here, rest := DelegatedAt(regs, tree, nodes[0], event), DelegatedPart(regs, tree, nodes[1..], event);
      DelegatedPartIs(regs, tree, nodes, event);
      assert nodes == [nodes[0]] + nodes[1..];
      forall m | m in rest ensures |m.elem| < |nodes[0]| {
        var i :| 0 <= i < |nodes[1..]| && nodes[1..][i] == m.elem;
        assert nodes[i + 1] == m.elem;
      }
      FirstDeeper(here, rest, |nodes[0]|);
    }
  }

  lemma DelegatedPartIs(regs: seq<HandleObj>, tree: Tree, nodes: seq<Path>, event: Event)
    requires nodes != []
    ensures DelegatedPart(regs, tree, nodes, event) ==
            DelegatedAt(regs, tree, nodes[0], event) + DelegatedPart(regs, tree, nodes[1..], event)
  {
    hide DelegatedAt;
  }

  lemma AtOneNode(regs: seq<HandleObj>, tree: Tree, cur: Path, event: Event)
    ensures |DelegatedAt(regs, tree, cur, event)| <= 1
    ensures forall m :: m in DelegatedAt(regs, tree, cur, event) ==> m.elem == cur
  {
    hide Kept, IsElement;
  }

  lemma FirstDeeper(here: seq<Matched>, rest: seq<Matched>, depth: nat)
    requires |here| <= 1 && forall m :: m in here ==> |m.elem| == depth
    requires forall m :: m in rest ==> |m.elem| < depth
    requires forall i, j :: 0 <= i < j < |rest| ==> |rest[i].elem| > |rest[j].elem|
    ensures forall i, j :: 0 <= i < j < |here + rest| ==> |(here + rest)[i].elem| > |(here + rest)[j].elem|
  {
    if here != [] { assert here == [here[0]] && here[0] in here; }
  }

  lemma DueOnTheWay(regs: seq<HandleObj>, tree: Tree, self: Path, event: Event, p: Path)
    requires OnTheWay(event.target, self, p)
    ensures Kept(regs, DueAt(tree, self, event, p)) ==
            if event.isNode && !event.badClick && IsElement(tree, p) && !event.disabled(p)
            then Kept(regs, Matching(event, p)) else []
  {
    assert p != self;
    if event.isNode && !event.badClick && IsElement(tree, p) && !event.disabled(p) {
      forall h: HandleObj ensures DueAt(tree, self, event, p)(h) == Matching(event, p)(h) {
        if h.selector.Some? {
          assert DueAt(tree, self, event, p)(h) == event.hits(h.selector.value, p);
        } else {
          assert !DueAt(tree, self, event, p)(h);
        }
      }
      KeptSame(regs, DueAt(tree, self, event, p), Matching(event, p));
    } else {
      KeptNone(regs, DueAt(tree, self, event, p));
    }
  }

  lemma DueAtSelf(regs: seq<HandleObj>, tree: Tree, self: Path, event: Event)
    ensures Kept(regs, DueAt(tree, self, event, self)) == Direct(regs)
  {
    forall h: HandleObj ensures DueAt(tree, self, event, self)(h) == IsDirect()(h) { NotSelf(event.target, self); }
    KeptSame(regs, DueAt(tree, self, event, self), IsDirect());
  }

  lemma DueNowhereElse(regs: seq<HandleObj>, tree: Tree, self: Path, event: Event, p: Path)
    requires !OnTheWay(event.target, self, p) && p != self
    ensures Kept(regs, DueAt(tree, self, event, p)) == []
  {
    KeptNone(regs, DueAt(tree, self, event, p));
  }

  /**
   Which handlers an event calls, and where: the delegated ones at every enabled element on the way up that their
   selector matches, deepest first, and at last, at the element itself, the direct ones; at each node all that are due,
   in the order of registration.
  */
  lemma QueueMeans(regs: seq<HandleObj>, tree: Tree, self: Path, event: Event)
    ensures var q := Expected(regs, tree, self, event);
            && (forall m :: m in q <==> m.handlers == Kept(regs, DueAt(tree, self, event, m.elem)) != [])
            && (forall i, j :: 0 <= i < j < |q| ==>
                  if q[j].elem == self then j == |q| - 1 else |q[i].elem| > |q[j].elem|)
  {
    var nodes := Rising(event.target, self);
    RisingMeans(event.target, self);
    DelegatedMeans(regs, tree, nodes, event);
    NotSelf(event.target, self);
    hide DueAt, OnTheWay, Kept, DelegatedPart, Rising, Matching, IsElement;
    forall m ensures m in Expected(regs, tree, self, event) <==>
                     m.handlers == Kept(regs, DueAt(tree, self, event, m.elem)) != []
    {
      QueuedIfDue(regs, tree, self, event, m);
    }
  }

  lemma QueuedIfDue(regs: seq<HandleObj>, tree: Tree, self: Path, event: Event, m: Matched)
    ensures m in Expected(regs, tree, self, event) <==>
            m.handlers == Kept(regs, DueAt(tree, self, event, m.elem)) != []
  {
    QueuedAt(regs, tree, self, event, m);
    hide DueAt, OnTheWay, Kept, DelegatedPart, Rising, Matching, IsElement;
    if OnTheWay(event.target, self, m.elem) {
      DueOnTheWay(regs, tree, self, event, m.elem);
      hide Expected;
    } else if m.elem == self { DueAtSelf(regs, tree, self, event); }
    else { DueNowhereElse(regs, tree, self, event, m.elem); }
  }

  lemma QueuedAt(regs: seq<HandleObj>, tree: Tree, self: Path, event: Event, m: Matched)
    ensures m in Expected(regs, tree, self, event) <==>
            if OnTheWay(event.target, self, m.elem)
            then event.isNode && !event.badClick && m in DelegatedAt(regs, tree, m.elem, event)
            else m.elem == self && m.handlers == Direct(regs) != []
  {
    RisingMeans(event.target, self);
    DelegatedMeans(regs, tree, Rising(event.target, self), event);
    NotSelf(event.target, self);
    hide OnTheWay, Kept, DelegatedPart, Rising, Matching, IsElement, DelegatedAt;
  }

  lemma NotSelf(target: Path, self: Path)
    ensures !OnTheWay(target, self, self)
  {
  }
}
