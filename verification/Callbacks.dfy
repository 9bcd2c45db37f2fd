/**
 jQuery.Callbacks as a step machine: `pc` is where the fire loops stand.
*/
module Callbacks {
  import opened Lists

  // Between two calls of callbacks the loops run at once (Tick).  A callback may do any operation before it returns;
  // while a list fires, operations only change its fields.

  datatype Options = Options(once: bool, memory: bool, unique: bool, stopOnFalse: bool)

  /** A function in the list, with the number of the registration that put it there. */
  datatype Entry<+F> = Entry(fn: F, id: nat)

  /** A fired value, with the number of the fireWith call that was accepted. */
  datatype Event<+V> = Event(args: V, serial: nat)

  datatype Call<+F, +V> = Call(fn: F, id: nat, event: Event<V>)

  datatype Pc = Idle | Outer | Inner | InCall

  /**
   The closure variables (`live` is false once list is ""), then the history: for each
   registration its function and the serial being or last delivered when it was added, then the values
   accepted and the calls made.
  */
  datatype State<+F, +V> = State(
    opts: Options,
    list: seq<Entry<F>>, live: bool, queue: seq<Event<V>>, memory: Option<Event<V>>,
    locked: bool, fired: bool, firingIndex: int, pc: Pc,
    added: seq<F>, births: seq<nat>, sent: seq<V>, calls: seq<Call<F, V>>)

  datatype Op<+F, +V> = Add(fns: seq<F>) | Remove(fns: seq<F>) | Empty | Disable | Lock | Fire(args: V)

  datatype Move<+F, +V> = Do(op: Op<F, V>) | Tick | Return(isFalse: bool)

  function Fresh<F, V>(opts: Options): State<F, V> {
    State(opts, [], true, [], None, false, false, -1, Idle, [], [], [], [])
  }

  // ---------------------------------------------------------------- the operations

  predicate Has<F(==)>(list: seq<Entry<F>>, fn: F) {
    exists e :: e in list && e.fn == fn
  }

  /** The serial being delivered, else the last one delivered, else the first to come. */
  function Current<F, V>(s: State<F, V>): nat {
    if s.memory.Some? then s.memory.value.serial else 0
  }

  function Push<F(==), V>(s: State<F, V>, fns: seq<F>): State<F, V>
    decreases |fns|
  {
    if fns == [] then s
    else
      var n := |fns| - 1;
      var s' := Push(s, fns[..n]);
      if s.opts.unique && Has(s'.list, fns[n]) then s'
      else s'.(list := s'.list + [Entry(fns[n], |s'.births|)],
               added := s'.added + [fns[n]], births := s'.births + [Current(s)])
  }

  /** The start of fire(), up to the test of its outer loop. */
  function StartFire<F, V>(s: State<F, V>): State<F, V> {
    s.(locked := s.locked || s.opts.once, fired := true, pc := Outer)
  }

  function AddFns<F(==), V>(s: State<F, V>, fns: seq<F>): State<F, V> {
    if !s.live then s
    else if s.memory.Some? && s.pc.Idle? then
      StartFire(Push(s.(firingIndex := |s.list| - 1, queue := s.queue + [s.memory.value]), fns))
    else Push(s, fns)
  }

  function Without<F(==)>(list: seq<Entry<F>>, fn: F): seq<Entry<F>> {
    Kept(list, (e: Entry<F>) => e.fn != fn)
  }

  function Min(a: int, b: int): int {
    if a < b then a else b
  }

  /** How many entries the loops have passed. */
  function Passed<F, V>(s: State<F, V>): nat {
    if s.firingIndex < 0 then 0 else Min(s.firingIndex + 1, |s.list|)
  }

  function RemoveFn<F(==), V>(s: State<F, V>, fn: F): State<F, V> {
    var n := Passed(s);
    s.(list := Without(s.list, fn), firingIndex := s.firingIndex - n + |Without(s.list[..n], fn)|)
  }

  function RemoveFns<F(==), V>(s: State<F, V>, fns: seq<F>): State<F, V>
    decreases |fns|
  {
    if fns == [] then s else RemoveFn(RemoveFns(s, fns[..|fns| - 1]), fns[|fns| - 1])
  }

  function Apply<F(==), V>(s: State<F, V>, op: Op<F, V>): State<F, V> {
    match op
    case Add(fns) => AddFns(s, fns)
    case Remove(fns) => RemoveFns(s, fns)
    case Empty => if s.live then s.(list := []) else s
    case Disable => s.(locked := true, queue := [], list := [], live := false, memory := None)
    case Lock =>
      if s.memory.None? && s.pc.Idle? then s.(locked := true, queue := [], list := [], live := false)
      else s.(locked := true, queue := [])
    case Fire(args) =>
      if s.locked then s
      else
        var s' := s.(queue := s.queue + [Event(args, |s.sent|)], sent := s.sent + [args]);
        if s.pc.Idle? then StartFire(s') else s'
  }

  /** The end of fire(), after its outer loop. */
  function Finish<F, V>(s: State<F, V>): State<F, V> {
    var s' := s.(memory := if s.opts.memory then s.memory else None, pc := Idle);
    if !s.locked then s'
    else s'.(list := [], live := s'.memory.Some?)
  }

  /** One stretch of the fire loops: to the next call, the next event or the end. */
  function TickOf<F, V>(s: State<F, V>): State<F, V> {
    match s.pc
    case Outer =>
      if s.queue == [] then Finish(s)
      else s.(memory := Some(s.queue[0]), queue := s.queue[1..], pc := Inner)
    case Inner =>
      if s.firingIndex + 1 < |s.list| && 0 <= s.firingIndex + 1 && s.memory.Some? then
        s.(firingIndex := s.firingIndex + 1, pc := InCall,
           calls := s.calls + [Call(s.list[s.firingIndex + 1].fn, s.list[s.firingIndex + 1].id, s.memory.value)])
      else s.(firingIndex := -1, pc := Outer)
    case _ => s
  }

  function ReturnOf<F, V>(s: State<F, V>, isFalse: bool): State<F, V> {
    if isFalse && s.opts.stopOnFalse then s.(firingIndex := |s.list|, memory := None, pc := Inner)
    else s.(pc := Inner)
  }

  predicate Legal<F, V>(s: State<F, V>, m: Move<F, V>) {
    match m
    case Do(_) => s.pc.Idle? || s.pc.InCall?
    case Tick => s.pc.Outer? || s.pc.Inner?
    case Return(_) => s.pc.InCall?
  }

  function Step<F(==), V>(s: State<F, V>, m: Move<F, V>): State<F, V> {
    if !Legal(s, m) then s
    else match m
      case Do(op) => Apply(s, op)
      case Tick => TickOf(s)
      case Return(isFalse) => ReturnOf(s, isFalse)
  }

  /** A run: every prefix of every run, finished or not, is one. */
  function Exec<F(==), V>(s: State<F, V>, moves: seq<Move<F, V>>): State<F, V> {
    if moves == [] then s else Step(Exec(s, moves[..|moves| - 1]), moves[|moves| - 1])
  }

  // ---------------------------------------------------------------- what was delivered

  /** The serials registration id was called with, in order. */
  function CallsTo<F, V>(calls: seq<Call<F, V>>, id: nat): seq<nat> {
    if calls == [] then []
    else
      var n := |calls| - 1;
      CallsTo(calls[..n], id) + if calls[n].id == id then [calls[n].event.serial] else []
  }

  function Range(a: nat, b: nat): seq<nat> {
    seq(if a <= b then b - a else 0, i requires i >= 0 => a + i)
  }

  /** The serial the loops deliver now or would deliver next. */
  function Cursor<F, V>(s: State<F, V>): nat {
    if s.pc.Inner? || s.pc.InCall? then Current(s)
    else if s.queue == [] then |s.sent| else s.queue[0].serial
  }

  /** What is queued behind the cursor. */
  function Pending<F, V>(s: State<F, V>): seq<Event<V>> {
    if s.pc.Inner? || s.pc.InCall? || s.queue == [] then s.queue else s.queue[1..]
  }

  ghost predicate EventOk<V>(sent: seq<V>, event: Event<V>) {
    event.serial < |sent| && event.args == sent[event.serial]
  }

  /** events are the values from serial `first` on, each once. */
  ghost predicate InOrder<V>(events: seq<Event<V>>, first: nat) {
    forall k :: 0 <= k < |events| ==> events[k].serial == first + k
  }

  ghost predicate QueueOk<F, V>(s: State<F, V>) {
    && (s.pc.Inner? || s.pc.InCall? || s.queue != [] ==> Cursor(s) + 1 + |Pending(s)| == |s.sent|)
    && InOrder(Pending(s), Cursor(s) + 1)
    && (forall k :: 0 <= k < |s.queue| ==> EventOk(s.sent, s.queue[k]))
  }

  ghost predicate MemoryOk<F, V>(s: State<F, V>) {
    && (s.memory.Some? ==> EventOk(s.sent, s.memory.value))
    && (s.pc.Inner? || s.pc.InCall? ==> s.memory.Some?)
    && (s.pc.Idle? ==> if s.memory.Some? then Current(s) + 1 == |s.sent| else s.sent == [])
    && (s.pc.Outer? ==> if s.memory.Some? then Current(s) <= Cursor(s) <= Current(s) + 1 else Cursor(s) == 0)
  }

  /** Registration e has had every value from its birth on, up to but without `end`, each once and in order. */
  ghost predicate Served<F, V>(s: State<F, V>, e: Entry<F>, end: nat)
    requires |s.added| == |s.births|
  {
    && e.id < |s.added| && e.fn == s.added[e.id] && s.births[e.id] <= end
    && CallsTo(s.calls, e.id) == Range(s.births[e.id], end)
  }

  ghost predicate AllServed<F, V>(s: State<F, V>, list: seq<Entry<F>>, end: nat)
    requires |s.added| == |s.births|
  {
    forall e :: e in list ==> Served(s, e, end)
  }

  /** The loops have passed the entries up to firingIndex and not those behind it. */
  ghost predicate ListServed<F, V>(s: State<F, V>)
    requires 0 <= s.firingIndex + 1 <= |s.list| && |s.added| == |s.births|
  {
    && AllServed(s, s.list[..s.firingIndex + 1], Cursor(s) + 1)
    && AllServed(s, s.list[s.firingIndex + 1..], Cursor(s))
  }

  /** Each registration is in the list at most once. */
  ghost predicate Distinct<F>(list: seq<Entry<F>>) {
    forall i, j :: 0 <= i < j < |list| ==> list[i].id != list[j].id
  }

  /** Every registration, removed or not, has had consecutive values from its birth on. */
  ghost predicate Consecutive<F, V>(s: State<F, V>) {
    forall id: nat {:trigger CallsTo(s.calls, id)} :: id < |s.births| ==>
      CallsTo(s.calls, id) == Range(s.births[id], s.births[id] + |CallsTo(s.calls, id)|)
  }

  /** Calls are of registrations made, with values sent. */
  ghost predicate CallsOk<F, V>(s: State<F, V>) {
    forall k :: 0 <= k < |s.calls| ==>
      var c := s.calls[k];
      c.id < |s.added| && c.fn == s.added[c.id] && EventOk(s.sent, c.event)
  }

  ghost predicate GapFree<F, V>(s: State<F, V>) {
    && s.opts == Options(false, true, false, false) && !s.locked && s.live && |s.added| == |s.births|
    && 0 <= s.firingIndex + 1 <= |s.list| && (s.pc.Idle? ==> s.queue == [])
    && (s.pc.Idle? || (s.pc.Outer? && s.queue == []) ==> s.firingIndex == -1)
    && QueueOk(s) && MemoryOk(s)
    && ListServed(s) && Distinct(s.list) && CallsOk(s) && Consecutive(s)
  }

  // ---------------------------------------------------------------- each step keeps it

  lemma {:induction false} CallsToNobody<F, V>(calls: seq<Call<F, V>>, id: nat)
    requires forall k :: 0 <= k < |calls| ==> calls[k].id != id
    ensures CallsTo(calls, id) == []
  {
    if calls != [] { CallsToNobody(calls[..|calls| - 1], id); }
  }

  function NewEntries<F>(fns: seq<F>, id: nat): seq<Entry<F>> {
    seq(|fns|, i requires 0 <= i < |fns| => Entry(fns[i], id + i))
  }

  lemma {:induction false} PushAppends<F, V>(s: State<F, V>, fns: seq<F>)
    requires !s.opts.unique
    ensures Push(s, fns) == s.(list := s.list + NewEntries(fns, |s.births|),
                               added := s.added + fns, births := s.births + seq(|fns|, _ => Current(s)))
  {
    if fns == [] {
      assert s.list + NewEntries(fns, |s.births|) == s.list;
      assert s.births + seq(|fns|, _ => Current(s)) == s.births;
    } else {
      var n := |fns| - 1;
      PushAppends(s, fns[..n]);
      assert NewEntries(fns, |s.births|) == NewEntries(fns[..n], |s.births|) + [Entry(fns[n], |s.births| + n)];
      assert seq(|fns|, _ => Current(s)) == seq(n, _ => Current(s)) + [Current(s)];
    }
  }

  lemma ServedStill<F, V>(s: State<F, V>, s': State<F, V>, list: seq<Entry<F>>, end: nat)
    requires |s.added| == |s.births| && |s'.added| == |s'.births|
    requires AllServed(s, list, end) && s.births <= s'.births && s.added <= s'.added && s.calls == s'.calls
    ensures AllServed(s', list, end)
  {
    forall e | e in list ensures Served(s', e, end) { assert Served(s, e, end); }
  }

  lemma AddServes<F, V>(s: State<F, V>, s': State<F, V>, fns: seq<F>)
    requires ListServed'(s) && CallsOk(s) && Distinct(s.list)
    requires s'.births == s.births + seq(|fns|, _ => Current(s)) && s'.added == s.added + fns && s'.calls == s.calls
    ensures AllServed(s', NewEntries(fns, |s.births|), Current(s))
    ensures Distinct(s.list + NewEntries(fns, |s.births|))
  {
    forall e | e in NewEntries(fns, |s.births|) ensures Served(s', e, Current(s)) {
      CallsToNobody(s.calls, e.id);
    }
    forall i | 0 <= i < |s.list| ensures s.list[i].id < |s.births| {
      var n := s.firingIndex + 1;
      assert s.list[i] in if i < n then s.list[..n] else s.list[n..];
      assert Served(s, s.list[i], Cursor(s) + 1) || Served(s, s.list[i], Cursor(s));
    }
  }

  ghost predicate ListServed'<F, V>(s: State<F, V>) {
    0 <= s.firingIndex + 1 <= |s.list| && |s.added| == |s.births| && ListServed(s)
  }

  /** What is left of the invariant when the list is taken care of. */
  ghost predicate Undisturbed<F, V>(s: State<F, V>) {
    && s.opts == Options(false, true, false, false) && !s.locked && s.live && |s.added| == |s.births|
    && (s.pc.Idle? ==> s.queue == []) && (s.pc.Idle? || (s.pc.Outer? && s.queue == []) ==> s.firingIndex == -1)
    && QueueOk(s) && MemoryOk(s) && CallsOk(s) && Consecutive(s)
  }

  lemma TwoParts<F, V>(s: State<F, V>)
    ensures GapFree(s) <==> Undisturbed(s) && ListServed'(s) && Distinct(s.list)
  {
    hide QueueOk, MemoryOk, CallsOk, Consecutive, ListServed, Distinct;
  }

  /** The list in two parts: what the loops have passed, and the rest. */
  lemma PartsServed<F, V>(s: State<F, V>, passed: seq<Entry<F>>, rest: seq<Entry<F>>)
    requires |s.added| == |s.births| && s.list == passed + rest && s.firingIndex + 1 == |passed|
    requires AllServed(s, passed, Cursor(s) + 1) && AllServed(s, rest, Cursor(s))
    ensures ListServed'(s)
  {
    hide AllServed, Cursor;
    assert s.list[..|passed|] == passed && s.list[|passed|..] == rest;
  }

  lemma BothServed<F, V>(s: State<F, V>, a: seq<Entry<F>>, b: seq<Entry<F>>, end: nat)
    requires |s.added| == |s.births| && AllServed(s, a, end) && AllServed(s, b, end)
    ensures AllServed(s, a + b, end)
  {
    hide Served;
  }

  /** What an addition comes to. */
  lemma Added<F, V>(s: State<F, V>, fns: seq<F>)
    requires !s.opts.unique && s.live
    ensures var refire := s.pc.Idle? && s.memory.Some?;
            var base := if refire then s.(firingIndex := |s.list| - 1, queue := s.queue + [s.memory.value]) else s;
            var s' := base.(list := s.list + NewEntries(fns, |s.births|), added := s.added + fns,
                            births := s.births + seq(|fns|, _ => Current(s)));
            AddFns(s, fns) == if refire then StartFire(s') else s'
  {
    var base := if s.pc.Idle? && s.memory.Some? then
                  s.(firingIndex := |s.list| - 1, queue := s.queue + [s.memory.value])
                else s;
    PushAppends(base, fns);
  }

  lemma AddKeepsQueue<F, V>(s: State<F, V>, fns: seq<F>)
    requires Undisturbed(s) && (s.pc.Idle? || s.pc.InCall?)
    ensures Undisturbed(AddFns(s, fns)) && Cursor(AddFns(s, fns)) == if s.pc.Idle? then Current'(s) else Cursor(s)
  {
    Added(s, fns);
    var s' := AddFns(s, fns);
    NewConsecutive(s, s');
    hide AddFns, Consecutive, CallsTo;
    assert Pending(s') == Pending(s);
  }

  /** The serial an addition to an idle list delivers: the remembered one, else the first to come. */
  function Current'<F, V>(s: State<F, V>): nat {
    if s.memory.Some? then s.memory.value.serial else |s.sent|
  }

  lemma AddKeepsList<F, V>(s: State<F, V>, fns: seq<F>)
    requires Undisturbed(s) && ListServed'(s) && Distinct(s.list) && (s.pc.Idle? || s.pc.InCall?)
    requires Cursor(AddFns(s, fns)) == if s.pc.Idle? then Current'(s) else Cursor(s)
    ensures ListServed'(AddFns(s, fns)) && Distinct(AddFns(s, fns).list)
  {
    var s', extra, n := AddFns(s, fns), NewEntries(fns, |s.births|), s.firingIndex + 1;
    Added(s, fns);
    AddServes(s, s', fns);
    ServedStill(s, s', s.list[..n], Cursor(s) + 1);
    ServedStill(s, s', s.list[n..], Cursor(s));
    hide AddFns, AllServed, Consecutive, CallsOk, QueueOk, Distinct, ListServed, NewEntries;
    TakeAndDrop(s.list, n, extra);
    if s.pc.Idle? && s.memory.Some? {
      PartsServed(s', s.list, extra);
    } else {
      BothServed(s', s.list[n..], extra, Cursor(s));
      PartsServed(s', s.list[..n], s.list[n..] + extra);
    }
  }

  lemma TakeAndDrop<T>(s: seq<T>, n: nat, extra: seq<T>)
    requires n <= |s|
    ensures s + extra == s[..n] + (s[n..] + extra) && (n == 0 ==> s[n..] == s)
  {
  }

  lemma AddKeeps<F, V>(s: State<F, V>, fns: seq<F>)
    requires GapFree(s) && (s.pc.Idle? || s.pc.InCall?)
    ensures GapFree(AddFns(s, fns))
  {
    hide *;
    TwoParts(s);
    AddKeepsQueue(s, fns);
    AddKeepsList(s, fns);
    TwoParts(AddFns(s, fns));
  }

  lemma NewConsecutive<F, V>(s: State<F, V>, s': State<F, V>)
    requires Consecutive(s) && CallsOk(s) && |s.added| == |s.births|
    requires s.births <= s'.births && s.calls == s'.calls
    ensures Consecutive(s')
  {
    forall id: nat | id < |s'.births|
      ensures CallsTo(s'.calls, id) == Range(s'.births[id], s'.births[id] + |CallsTo(s'.calls, id)|)
    {
      if id >= |s.births| { CallsToNobody(s.calls, id); }
    }
  }

  lemma FireKeeps<F, V>(s: State<F, V>, args: V)
    requires GapFree(s) && (s.pc.Idle? || s.pc.InCall?)
    ensures GapFree(Apply(s, Fire(args)))
  {
    TwoParts(s);
    hide GapFree, ListServed', Distinct, Undisturbed;
    FireKeepsQueue(s, args);
    SameList(s, Apply(s, Op<F, V>.Fire(args)));
    TwoParts(Apply(s, Op<F, V>.Fire(args)));
  }

  lemma FireKeepsQueue<F, V>(s: State<F, V>, args: V)
    requires Undisturbed(s) && (s.pc.Idle? || s.pc.InCall?)
    ensures Undisturbed(Apply(s, Fire(args))) && Cursor(Apply(s, Fire(args))) == Cursor(s)
  {
    hide CallsTo, Consecutive;
    var s' := Apply(s, Op<F, V>.Fire(args));
    ConsecutiveStill(s, s');
    assert Cursor(s') == Cursor(s);
    assert Pending(s') == if s.pc.Idle? then [] else Pending(s) + [Event(args, |s.sent|)];
  }

  lemma ConsecutiveStill<F, V>(s: State<F, V>, s': State<F, V>)
    requires Consecutive(s) && s'.births == s.births && s'.calls == s.calls
    ensures Consecutive(s')
  {
    forall id: nat | id < |s'.births|
      ensures CallsTo(s'.calls, id) == Range(s'.births[id], s'.births[id] + |CallsTo(s'.calls, id)|)
    {
      assert CallsTo(s.calls, id) == Range(s.births[id], s.births[id] + |CallsTo(s.calls, id)|);
    }
  }

  /** Where neither the list nor what was called changes, nor what the loops are at. */
  lemma SameList<F, V>(s: State<F, V>, s': State<F, V>)
    requires ListServed'(s) && Cursor(s') == Cursor(s)
    requires s'.list == s.list && s'.firingIndex == s.firingIndex
    requires s'.births == s.births && s'.added == s.added && s'.calls == s.calls
    ensures ListServed'(s')
  {
    var n := s.firingIndex + 1;
    ServedStill(s, s', s.list[..n], Cursor(s) + 1);
    ServedStill(s, s', s.list[n..], Cursor(s));
    hide AllServed, Cursor;
    assert s.list == s.list[..n] + s.list[n..];
    PartsServed(s', s.list[..n], s.list[n..]);
  }

  lemma {:induction false} WithoutDistinct<F>(list: seq<Entry<F>>, fn: F)
    requires Distinct(list)
    ensures Distinct(Without(list, fn))
  {
    if list != [] {
      var n := |list| - 1;
      WithoutDistinct(list[..n], fn);
      forall e | e in Without(list[..n], fn) ensures e.id != list[n].id {
        WithoutIn(list[..n], fn, e);
      }
    }
  }

  lemma WithoutIn<F>(list: seq<Entry<F>>, fn: F, e: Entry<F>)
    ensures e in Without(list, fn) <==> e in list && e.fn != fn
  {
    KeptIn(list, (e: Entry<F>) => e.fn != fn, e);
  }

  lemma WithoutAppend<F>(a: seq<Entry<F>>, b: seq<Entry<F>>, fn: F)
    ensures Without(a + b, fn) == Without(a, fn) + Without(b, fn)
  {
    KeptAppend(a, b, (e: Entry<F>) => e.fn != fn);
  }

  /** Removing a function moves firingIndex back over exactly the entries dropped before it. */
  lemma RemoveFnSplits<F, V>(s: State<F, V>, fn: F)
    requires 0 <= s.firingIndex + 1 <= |s.list|
    ensures var s', n := RemoveFn(s, fn), s.firingIndex + 1;
            && 0 <= s'.firingIndex + 1 <= |s'.list|
            && s'.list[..s'.firingIndex + 1] == Without(s.list[..n], fn)
            && s'.list[s'.firingIndex + 1..] == Without(s.list[n..], fn)
  {
    var n := s.firingIndex + 1;
    var a, b := s.list[..n], s.list[n..];
    WithoutAppend(a, b, fn);
    assert s.list == a + b;
    assert RemoveFn(s, fn).firingIndex + 1 == |Without(a, fn)|;
  }

  lemma RemoveFnKeeps<F, V>(s: State<F, V>, fn: F)
    requires GapFree(s) && (s.pc.Idle? || s.pc.InCall?)
    ensures GapFree(RemoveFn(s, fn)) && RemoveFn(s, fn).pc == s.pc
  {
    TwoParts(s);
    hide GapFree, ListServed', Distinct, CallsTo, Without;
    RemoveFnKeepsQueue(s, fn);
    RemoveFnKeepsList(s, fn);
    TwoParts(RemoveFn(s, fn));
  }

  lemma RemoveFnKeepsQueue<F, V>(s: State<F, V>, fn: F)
    requires Undisturbed(s) && ListServed'(s) && (s.pc.Idle? || s.pc.InCall?)
    ensures Undisturbed(RemoveFn(s, fn)) && Cursor(RemoveFn(s, fn)) == Cursor(s) && RemoveFn(s, fn).pc == s.pc
  {
    hide CallsTo, Without, ListServed, EventOk, InOrder;
    var s' := RemoveFn(s, fn);
    assert Pending(s') == Pending(s) && Cursor(s') == Cursor(s);
    NoneLeft(fn);
    assert s.list[..0] == [];
  }

  lemma NoneLeft<F>(fn: F)
    ensures Without<F>([], fn) == []
  {
  }

  lemma WithoutServed<F, V>(s: State<F, V>, s': State<F, V>, list: seq<Entry<F>>, fn: F, end: nat)
    requires |s.added| == |s.births| && AllServed(s, list, end)
    requires s'.births == s.births && s'.added == s.added && s'.calls == s.calls
    ensures AllServed(s', Without(list, fn), end)
  {
    hide Without;
    ServedStill(s, s', list, end);
    forall e | e in Without(list, fn) ensures Served(s', e, end) { WithoutIn(list, fn, e); }
  }

  lemma RemoveFnKeepsList<F, V>(s: State<F, V>, fn: F)
    requires Undisturbed(s) && ListServed'(s) && Distinct(s.list) && Cursor(RemoveFn(s, fn)) == Cursor(s)
    ensures ListServed'(RemoveFn(s, fn)) && Distinct(RemoveFn(s, fn).list)
  {
    var s', n := RemoveFn(s, fn), s.firingIndex + 1;
    RemoveFnSplits(s, fn);
    assert s'.births == s.births && s'.added == s.added && s'.calls == s.calls && s'.list == Without(s.list, fn);
    hide RemoveFn, Without, Distinct, AllServed, Cursor;
    WithoutDistinct(s.list, fn);
    WithoutServed(s, s', s.list[..n], fn, Cursor(s) + 1);
    WithoutServed(s, s', s.list[n..], fn, Cursor(s));
    hide Undisturbed;
    var a, b := Without(s.list[..n], fn), Without(s.list[n..], fn);
    assert s'.list == s'.list[..s'.firingIndex + 1] + s'.list[s'.firingIndex + 1..];
    PartsServed(s', a, b);
  }

  lemma {:induction false} RemoveKeeps<F, V>(s: State<F, V>, fns: seq<F>)
    requires GapFree(s) && (s.pc.Idle? || s.pc.InCall?)
    ensures GapFree(RemoveFns(s, fns)) && RemoveFns(s, fns).pc == s.pc
  {
    if fns != [] {
      RemoveKeeps(s, fns[..|fns| - 1]);
      RemoveFnKeeps(RemoveFns(s, fns[..|fns| - 1]), fns[|fns| - 1]);
    }
  }

  lemma CallMade<F, V>(s: State<F, V>, s': State<F, V>, called: Entry<F>)
    requires |s.added| == |s.births| && s'.births == s.births && s'.added == s.added
    requires Served(s, called, Cursor(s)) && Consecutive(s) && s.memory.Some? && Cursor(s) == Current(s)
    requires s'.calls == s.calls + [Call(called.fn, called.id, s.memory.value)]
    ensures Served(s', called, Cursor(s) + 1) && Consecutive(s')
    ensures forall e: Entry<F>, end: nat {:trigger Served(s', e, end)} :: e.id != called.id && Served(s, e, end) ==>
              Served(s', e, end)
  {
    var c := s'.calls[|s.calls|];
    hide CallsTo, Range, Cursor;
    RangeMore(s.births[called.id], Cursor(s));
    CallsToMore(s.calls, c, called.id);
    forall id: nat | id < |s'.births|
      ensures CallsTo(s'.calls, id) == Range(s'.births[id], s'.births[id] + |CallsTo(s'.calls, id)|)
    {
      CallsToMore(s.calls, c, id);
    }
    forall e: Entry<F>, end: nat {:trigger Served(s', e, end)} | e.id != called.id && Served(s, e, end)
      ensures Served(s', e, end)
    {
      CallsToMore(s.calls, c, e.id);
    }
  }

  lemma CallsToMore<F, V>(calls: seq<Call<F, V>>, c: Call<F, V>, id: nat)
    ensures CallsTo(calls + [c], id) == CallsTo(calls, id) + if c.id == id then [c.event.serial] else []
  {
    assert (calls + [c])[..|calls|] == calls;
  }

  lemma RangeMore(a: nat, b: nat)
    requires a <= b
    ensures Range(a, b) + [b] == Range(a, b + 1) && |Range(a, b)| == b - a && |Range(a, b + 1)| == b + 1 - a
  {
  }

  lemma CallServes<F, V>(s: State<F, V>)
    requires GapFree(s) && s.pc.Inner? && s.firingIndex + 1 < |s.list|
    ensures GapFree(TickOf(s))
  {
    TwoParts(s);
    hide GapFree, ListServed, Distinct, CallsTo;
    assert s.list[s.firingIndex + 1..][0] == s.list[s.firingIndex + 1];
    NextServed(s);
    CallKeepsQueue(s);
    CallKeepsList(s);
    TwoParts(TickOf(s));
  }

  lemma NextServed<F, V>(s: State<F, V>)
    requires ListServed'(s) && s.firingIndex + 1 < |s.list|
    ensures Served(s, s.list[s.firingIndex + 1], Cursor(s))
  {
    hide Served, Cursor;
    assert s.list[s.firingIndex + 1..][0] == s.list[s.firingIndex + 1];
  }

  lemma CallKeepsQueue<F, V>(s: State<F, V>)
    requires Undisturbed(s) && s.pc.Inner? && 0 <= s.firingIndex + 1 < |s.list|
    requires Served(s, s.list[s.firingIndex + 1], Cursor(s))
    ensures Undisturbed(TickOf(s)) && Cursor(TickOf(s)) == Cursor(s)
  {
    var s', called := TickOf(s), s.list[s.firingIndex + 1];
    CallMade(s, s', called);
    hide Consecutive, CallsTo, EventOk, InOrder;
    assert Pending(s') == Pending(s) && Cursor(s') == Cursor(s);
  }

  lemma OthersServed<F, V>(s: State<F, V>, list: seq<Entry<F>>, end: nat, called: Entry<F>)
    requires |s.added| == |s.births| && AllServed(s, list, end) && s.pc.Inner? && 0 <= s.firingIndex + 1 < |s.list|
    requires Undisturbed(s) && called == s.list[s.firingIndex + 1] && Served(s, called, Cursor(s))
    requires forall e :: e in list ==> e.id != called.id
    ensures AllServed(TickOf(s), list, end)
  {
    CallMade(s, TickOf(s), called);
    hide Served;
    forall e | e in list ensures Served(TickOf(s), e, end) { assert Served(s, e, end); }
  }

  lemma CallKeepsList<F, V>(s: State<F, V>)
    requires Undisturbed(s) && ListServed'(s) && Distinct(s.list) && s.pc.Inner? && s.firingIndex + 1 < |s.list|
    requires Served(s, s.list[s.firingIndex + 1], Cursor(s)) && Cursor(TickOf(s)) == Cursor(s)
    ensures ListServed'(TickOf(s))
  {
    var s', n := TickOf(s), s.firingIndex + 1;
    var called, before, after := s.list[n], s.list[..n], s.list[n..][1..];
    CallMade(s, s', called);
    ApartFrom(s.list, n);
    AfterServed(s);
    assert s'.list == s.list && s'.firingIndex == n && |s'.added| == |s'.births| && Undisturbed(s);
    hide ListServed, Distinct, Served, CallsTo, Undisturbed, TickOf, Cursor;
    OthersServed(s, before, Cursor(s) + 1, called);
    OthersServed(s, after, Cursor(s), called);
    BothServed(s', before, [called], Cursor(s) + 1);
    hide AllServed;
    SplitAt(s.list, n);
    PartsServed(s', before + [called], after);
  }

  lemma SplitAt<T>(s: seq<T>, n: nat)
    requires n < |s|
    ensures s == s[..n] + [s[n]] + s[n..][1..] && |s[..n] + [s[n]]| == n + 1
  {
  }

  /** What lies behind the next entry to be called. */
  lemma AfterServed<F, V>(s: State<F, V>)
    requires ListServed'(s) && s.firingIndex + 1 < |s.list|
    ensures AllServed(s, s.list[..s.firingIndex + 1], Cursor(s) + 1)
    ensures AllServed(s, s.list[s.firingIndex + 1..][1..], Cursor(s))
  {
    hide Served, Cursor;
  }

  lemma ApartFrom<F>(list: seq<Entry<F>>, n: nat)
    requires Distinct(list) && n < |list|
    ensures forall e :: e in list[..n] || e in list[n..][1..] ==> e.id != list[n].id
  {
  }

  lemma PassEnds<F, V>(s: State<F, V>)
    requires GapFree(s) && s.pc.Inner? && s.firingIndex + 1 == |s.list|
    ensures GapFree(TickOf(s))
  {
    TwoParts(s);
    hide GapFree, Distinct, Served, Cursor, Undisturbed, TickOf;
    PassEndsQueue(s);
    assert s.list[..|s.list|] == s.list && [] + s.list == s.list;
    ServedStill(s, TickOf(s), s.list, Cursor(s) + 1);
    PartsServed(TickOf(s), [], s.list);
    TwoParts(TickOf(s));
  }

  lemma PassEndsQueue<F, V>(s: State<F, V>)
    requires Undisturbed(s) && s.pc.Inner? && s.firingIndex + 1 == |s.list|
    ensures Undisturbed(TickOf(s)) && Cursor(TickOf(s)) == Cursor(s) + 1
    ensures TickOf(s) == s.(firingIndex := -1, pc := Outer)
  {
    ConsecutiveStill(s, TickOf(s));
    hide Consecutive, CallsTo;
  }

  lemma NextEvent<F, V>(s: State<F, V>)
    requires GapFree(s) && s.pc.Outer?
    ensures GapFree(TickOf(s))
  {
    TwoParts(s);
    var s' := TickOf(s);
    hide GapFree, Distinct, CallsTo, ListServed';
    ConsecutiveStill(s, s');
    hide Consecutive;
    assert Cursor(s') == Cursor(s) && Pending(s') == Pending(s);
    SameList(s, s');
    TwoParts(s');
  }

  lemma ReturnKeeps<F, V>(s: State<F, V>, s': State<F, V>)
    requires GapFree(s) && s.pc.InCall? && s' == s.(pc := Inner)
    ensures GapFree(s')
  {
    TwoParts(s);
    hide GapFree, Distinct, CallsTo, ListServed';
    ConsecutiveStill(s, s');
    hide Consecutive;
    assert Cursor(s') == Cursor(s) && Pending(s') == Pending(s);
    SameList(s, s');
    TwoParts(s');
  }

  /** The moves of lists nobody locks, disables or empties. */
  predicate Ordinary<F, V>(m: Move<F, V>) {
    m.Do? ==> m.op.Add? || m.op.Remove? || m.op.Fire?
  }

  lemma {:induction false} StepKeeps<F, V>(s: State<F, V>, m: Move<F, V>)
    requires GapFree(s) && Ordinary(m)
    ensures GapFree(Step(s, m))
  {
    if Legal(s, m) {
      match m
      case Do(op) =>
        match op {
          case Add(fns) => AddKeeps(s, fns);
          case Remove(fns) => RemoveKeeps(s, fns);
          case Fire(args) => FireKeeps(s, args);
          case _ =>
        }
      case Tick =>
        if s.pc.Outer? { NextEvent(s); } else if s.firingIndex + 1 < |s.list| { CallServes(s); } else { PassEnds(s); }
      case Return(_) =>
        ReturnKeeps(s, Step(s, m));
    }
  }

  const MEMORY := Options(false, true, false, false)

  /** The invariant of every run of a memory list, inside and outside callbacks. */
  lemma {:induction false} GapFreeAlways<F, V>(moves: seq<Move<F, V>>)
    requires forall m :: m in moves ==> Ordinary(m)
    ensures GapFree(Exec(Fresh<F, V>(MEMORY), moves))
  {
    if moves != [] {
      GapFreeAlways(moves[..|moves| - 1]);
      StepKeeps(Exec(Fresh<F, V>(MEMORY), moves[..|moves| - 1]), moves[|moves| - 1]);
    }
  }

  /** A callback that runs has been handed the value remembered. */
  lemma {:induction false} CallIsCurrent<F, V>(moves: seq<Move<F, V>>)
    requires forall m :: m in moves ==> Ordinary(m)
    ensures var s := Exec(Fresh<F, V>(MEMORY), moves);
            s.pc.InCall? ==> s.calls != [] && s.memory == Some(s.calls[|s.calls| - 1].event)
  {
    if moves != [] {
      var n := |moves| - 1;
      CallIsCurrent(moves[..n]);
      GapFreeAlways(moves[..n]);
      StepIsCurrent(Exec(Fresh<F, V>(MEMORY), moves[..n]), moves[n]);
      hide Step, GapFree;
    }
  }

  lemma StepIsCurrent<F, V>(s: State<F, V>, m: Move<F, V>)
    requires s.opts == MEMORY && s.live && Ordinary(m)
    requires s.pc.InCall? ==> s.calls != [] && s.memory == Some(s.calls[|s.calls| - 1].event)
    ensures var s' := Step(s, m);
            s'.pc.InCall? ==> s'.calls != [] && s'.memory == Some(s'.calls[|s'.calls| - 1].event)
  {
    if m.Do? && m.op.Add? { Added(s, m.op.fns); }
    if m.Do? && m.op.Remove? { RemoveRemoves(s, m.op.fns); }
    hide AddFns, RemoveFns, Kept;
  }

  /**
   With which value a registration begins: inside a callback with the one that is being delivered, outside with the
   last one sent, or with the first if there is none yet.
  */
  lemma BornWithLast<F, V>(moves: seq<Move<F, V>>, fns: seq<F>, n: nat)
    requires forall m :: m in moves ==> Ordinary(m)
    requires var s := Exec(Fresh<F, V>(MEMORY), moves); (s.pc.Idle? || s.pc.InCall?) && n < |fns|
    ensures var s, s' := Exec(Fresh<F, V>(MEMORY), moves), Exec(Fresh<F, V>(MEMORY), moves + [Do(Add(fns))]);
            && s'.added == s.added + fns && |s'.births| == |s'.added| && |s.births| == |s.added|
            && (s.pc.InCall? ==> s.calls != [])
            && s'.births[|s.births| + n] == if s.pc.InCall? then s.calls[|s.calls| - 1].event.serial
                                            else if s.sent == [] then 0 else |s.sent| - 1
  {
    var s := Exec(Fresh<F, V>(MEMORY), moves);
    assert (moves + [Do(Add(fns))])[..|moves|] == moves;
    CallIsCurrent(moves);
    GapFreeAlways(moves);
    hide Exec;
    Added(s, fns);
    hide AddFns, ListServed, QueueOk, CallsOk, Consecutive;
  }

  /** Up to where entry i has been served: all, or in a call of the list what the loops have come to. */
  function DueTo<F, V>(s: State<F, V>, i: nat): nat {
    if s.pc.InCall? then Current(s) + (if i <= s.firingIndex then 1 else 0) else |s.sent|
  }

  /**
   At rest every registration in the list has been called with exactly the values fired from its birth on, each once
   and in order; and whenever a callback runs, with those up to the one that is being delivered, itself included for
   the entries the loops have come to.  Those are all exactly if the loops have come to the entry and nothing is queued.
  */
  lemma {:induction false} GapFreeDelivery<F, V>(moves: seq<Move<F, V>>, i: nat)
    requires forall m :: m in moves ==> Ordinary(m)
    requires var s := Exec(Fresh<F, V>(MEMORY), moves); (s.pc.Idle? || s.pc.InCall?) && i < |s.list|
    ensures var s := Exec(Fresh<F, V>(MEMORY), moves);
            && s.list[i].id < |s.added| == |s.births| && s.added[s.list[i].id] == s.list[i].fn
            && CallsTo(s.calls, s.list[i].id) == Range(s.births[s.list[i].id], DueTo(s, i))
            && (CallsTo(s.calls, s.list[i].id) == Range(s.births[s.list[i].id], |s.sent|) <==>
                  s.pc.Idle? || (i <= s.firingIndex && s.queue == []))
            && forall c :: c in s.calls ==> c.id < |s.added| && c.fn == s.added[c.id] && EventOk(s.sent, c.event)
  {
    GapFreeAlways(moves);
    var s := Exec(Fresh<F, V>(MEMORY), moves);
    hide Exec;
    EntryServed(s, i);
  }

  lemma EntryServed<F, V>(s: State<F, V>, i: nat)
    requires GapFree(s) && (s.pc.Idle? || s.pc.InCall?) && i < |s.list|
    ensures var id := s.list[i].id;
            && id < |s.added| && s.added[id] == s.list[i].fn && CallsTo(s.calls, id) == Range(s.births[id], DueTo(s, i))
            && (CallsTo(s.calls, id) == Range(s.births[id], |s.sent|) <==>
                  s.pc.Idle? || (i <= s.firingIndex && s.queue == []))
  {
    ServedTo(s, i);
    DueIsCursor(s, i);
    hide GapFree, DueTo, CallsTo, Range;
    RangeEnds(s.births[s.list[i].id], DueTo(s, i), |s.sent|);
  }

  lemma ServedTo<F, V>(s: State<F, V>, i: nat)
    requires GapFree(s) && i < |s.list|
    ensures Served(s, s.list[i], if i <= s.firingIndex then Cursor(s) + 1 else Cursor(s))
  {
    hide Served, Cursor, QueueOk, MemoryOk, Distinct, CallsOk, Consecutive;
    var n := s.firingIndex + 1;
    if i < n { assert s.list[..n][i] == s.list[i]; } else { assert s.list[n..][i - n] == s.list[i]; }
  }

  lemma DueIsCursor<F, V>(s: State<F, V>, i: nat)
    requires GapFree(s) && (s.pc.Idle? || s.pc.InCall?) && i < |s.list|
    ensures DueTo(s, i) == (if i <= s.firingIndex then Cursor(s) + 1 else Cursor(s)) <= |s.sent|
    ensures DueTo(s, i) == |s.sent| <==> s.pc.Idle? || (i <= s.firingIndex && s.queue == [])
  {
    hide ListServed, MemoryOk, Distinct, CallsOk, Consecutive, InOrder, EventOk;
  }

  lemma RangeEnds(a: nat, b: nat, c: nat)
    requires a <= b <= c
    ensures Range(a, b) == Range(a, c) <==> b == c
  {
    assert |Range(a, b)| == b - a && |Range(a, c)| == c - a;
  }

  /** Registration id is in the list. */
  ghost predicate Listed<F, V>(s: State<F, V>, id: nat) {
    id < |s.added| && Entry(s.added[id], id) in s.list
  }

  predicate Removes<F(==), V>(m: Move<F, V>, fn: F) {
    m.Do? && m.op.Remove? && fn in m.op.fns
  }

  lemma {:induction false} RemoveOthers<F, V>(s: State<F, V>, fns: seq<F>, e: Entry<F>)
    requires e in s.list && e.fn !in fns
    ensures e in RemoveFns(s, fns).list && RemoveFns(s, fns).added == s.added
  {
    if fns != [] {
      var n := |fns| - 1;
      RemoveOthers(s, fns[..n], e);
      assert fns[n] in fns;
      WithoutIn(RemoveFns(s, fns[..n]).list, fns[n], e);
    }
  }

  lemma {:induction false} RemoveKeepsAdded<F, V>(s: State<F, V>, fns: seq<F>)
    ensures RemoveFns(s, fns).added == s.added
  {
    if fns != [] { RemoveKeepsAdded(s, fns[..|fns| - 1]); }
  }

  /** A step keeps a registration listed, or makes it, unless it removes its function. */
  lemma {:induction false} StepLists<F, V>(s: State<F, V>, m: Move<F, V>, id: nat)
    requires GapFree(s) && Ordinary(m) && (id < |s.added| ==> Listed(s, id))
    requires id < |Step(s, m).added| ==> !Removes(m, Step(s, m).added[id])
    ensures s.added <= Step(s, m).added && (id < |Step(s, m).added| ==> Listed(Step(s, m), id))
  {
    if Legal(s, m) && m.Do? {
      match m.op
      case Add(fns) => AddLists(s, fns, id);
      case Remove(fns) =>
        RemoveKeepsAdded(s, fns);
        if id < |s.added| { RemoveOthers(s, fns, Entry(s.added[id], id)); }
      case _ =>
    }
    hide ListServed, QueueOk, MemoryOk, Consecutive, CallsOk, Distinct, RemoveFns, AddFns;
  }

  lemma AddLists<F, V>(s: State<F, V>, fns: seq<F>, id: nat)
    requires GapFree(s) && (id < |s.added| ==> Listed(s, id))
    ensures s.added <= AddFns(s, fns).added && (id < |AddFns(s, fns).added| ==> Listed(AddFns(s, fns), id))
  {
    Added(s, fns);
    hide ListServed, QueueOk, MemoryOk, Consecutive, CallsOk, Distinct, AddFns;
    var s' := AddFns(s, fns);
    if |s.added| <= id < |s'.added| {
      assert NewEntries(fns, |s.births|)[id - |s.births|] == Entry(s'.added[id], id);
      assert s'.list[|s.list| + (id - |s.births|)] == Entry(s'.added[id], id);
    }
  }

  /** A registration made after the first k moves stays listed unless one of the later moves removes its function. */
  lemma {:induction false} StaysListed<F, V>(moves: seq<Move<F, V>>, k: nat, id: nat)
    requires forall m :: m in moves ==> Ordinary(m)
    requires k <= |moves| && |Exec(Fresh<F, V>(MEMORY), moves[..k]).added| <= id
    requires var s := Exec(Fresh<F, V>(MEMORY), moves);
             id < |s.added| ==> forall m :: m in moves[k..] ==> !Removes(m, s.added[id])
    ensures var s := Exec(Fresh<F, V>(MEMORY), moves); id < |s.added| ==> Listed(s, id)
  {
    if k == |moves| {
      assert moves[..k] == moves;
    } else {
      var n := |moves| - 1;
      assert moves[..n][..k] == moves[..k] && moves[k..] == moves[..n][k..] + [moves[n]];
      ListsOneMore(moves, n, id);
      hide *;
      StaysListed(moves[..n], k, id);
    }
  }

  /** The last move of a run. */
  lemma ListsOneMore<F, V>(moves: seq<Move<F, V>>, n: nat, id: nat)
    requires |moves| == n + 1 && forall m :: m in moves ==> Ordinary(m)
    ensures var s, s' := Exec(Fresh<F, V>(MEMORY), moves[..n]), Exec(Fresh<F, V>(MEMORY), moves);
            s.added <= s'.added &&
            ((id < |s.added| ==> Listed(s, id)) && (id < |s'.added| ==> !Removes(moves[n], s'.added[id])) ==>
               id < |s'.added| ==> Listed(s', id))
  {
    var s := Exec(Fresh<F, V>(MEMORY), moves[..n]);
    assert Exec(Fresh<F, V>(MEMORY), moves) == Step(s, moves[n]);
    assert moves[n] in moves;
    hide *;
    GapFreeAlways(moves[..n]);
    AddedGrows(s, moves[n]);
    var s' := Step(s, moves[n]);
    if (id < |s.added| ==> Listed(s, id)) && (id < |s'.added| ==> !Removes(moves[n], s'.added[id])) {
      StepLists(s, moves[n], id);
    }
  }

  lemma {:induction false} AddedGrows<F, V>(s: State<F, V>, m: Move<F, V>)
    requires GapFree(s)
    ensures s.added <= Step(s, m).added
  {
    hide ListServed, QueueOk, MemoryOk, Consecutive, CallsOk, Distinct, AddFns, RemoveFns;
    if m.Do? {
      match m.op
      case Add(fns) => Added(s, fns);
      case Remove(fns) => RemoveKeepsAdded(s, fns);
      case _ =>
    }
  }

  /**
   Once a memory list is idle, every registration whose function nobody removed since has been called with exactly
   the values fired from its birth on, in order.
  */
  lemma NeverRemovedDelivers<F, V>(moves: seq<Move<F, V>>, k: nat, id: nat)
    requires forall m :: m in moves ==> Ordinary(m)
    requires k <= |moves| && |Exec(Fresh<F, V>(MEMORY), moves[..k]).added| <= id
    requires var s := Exec(Fresh<F, V>(MEMORY), moves);
             s.pc.Idle? && id < |s.added| && forall m :: m in moves[k..] ==> !Removes(m, s.added[id])
    ensures var s := Exec(Fresh<F, V>(MEMORY), moves);
            |s.births| == |s.added| && CallsTo(s.calls, id) == Range(s.births[id], |s.sent|)
  {
    StaysListed(moves, k, id);
    var s := Exec(Fresh<F, V>(MEMORY), moves);
    var i :| 0 <= i < |s.list| && s.list[i] == Entry(s.added[id], id);
    GapFreeDelivery(moves, i);
  }

  // ---------------------------------------------------------------- what is taken out stays out

  function Others<F(==)>(fns: seq<F>): Entry<F> -> bool {
    (e: Entry<F>) => e.fn !in fns
  }

  /** remove takes out all entries of the functions it is given and no others, and keeps the order. */
  lemma {:induction false} RemoveRemoves<F, V>(s: State<F, V>, fns: seq<F>)
    ensures var s' := Apply(s, Remove(fns));
            s'.list == Kept(s.list, Others(fns)) && s' == s.(list := s'.list, firingIndex := s'.firingIndex)
    ensures forall e :: e in Apply(s, Remove(fns)).list <==> e in s.list && e.fn !in fns
    decreases |fns|
  {
    forall e ensures e in Kept(s.list, Others(fns)) <==> e in s.list && e.fn !in fns { KeptIn(s.list, Others(fns), e); }
    if fns == [] {
      KeptEverything(s.list, Others(fns));
    } else {
      var n := |fns| - 1;
      RemoveRemoves(s, fns[..n]);
      assert fns == fns[..n] + [fns[n]];
      KeptTwice(s.list, Others(fns[..n]), (e: Entry<F>) => e.fn != fns[n], Others(fns));
    }
  }

  lemma {:induction false} KeptEverything<T>(s: seq<T>, f: T -> bool)
    requires forall x :: x in s ==> f(x)
    ensures Kept(s, f) == s
  {
    if s != [] {
      KeptEverything(s[..|s| - 1], f);
      assert s == s[..|s| - 1] + [s[|s| - 1]];
    }
  }

  /** The function is in no entry of the list. */
  ghost predicate Unlisted<F, V>(s: State<F, V>, fn: F) {
    forall e :: e in s.list ==> e.fn != fn
  }

  predicate Adds<F(==), V>(m: Move<F, V>, fn: F) {
    m.Do? && m.op.Add? && fn in m.op.fns
  }

  lemma {:induction false} PushOthers<F, V>(s: State<F, V>, fns: seq<F>, fn: F)
    requires Unlisted(s, fn) && fn !in fns
    ensures Unlisted(Push(s, fns), fn) && Push(s, fns).calls == s.calls && Push(s, fns).pc == s.pc
    decreases |fns|
  {
    if fns != [] {
      PushOthers(s, fns[..|fns| - 1], fn);
      assert fns[|fns| - 1] in fns;
    }
  }

  lemma StaysUnlisted<F, V>(s: State<F, V>, m: Move<F, V>, fn: F)
    requires Unlisted(s, fn) && !Adds(m, fn)
    ensures Unlisted(Step(s, m), fn) && s.calls <= Step(s, m).calls
    ensures forall k :: |s.calls| <= k < |Step(s, m).calls| ==> Step(s, m).calls[k].fn != fn
  {
    if Legal(s, m) {
      match m
      case Do(op) =>
        match op {
          case Add(fns) =>
            PushOthers(s, fns, fn);
            PushOthers(s.(firingIndex := |s.list| - 1,
                          queue := s.queue + if s.memory.Some? then [s.memory.value] else []), fns, fn);
          case Remove(fns) => RemoveRemoves(s, fns);
          case _ =>
        }
      case Tick =>
        hide Push, RemoveFns;
      case Return(_) =>
    }
  }

  /** A function that is not in the list is not called until it is added again, in or out of callbacks. */
  lemma {:induction false} UnlistedIsSilent<F, V>(s: State<F, V>, moves: seq<Move<F, V>>, fn: F)
    requires Unlisted(s, fn) && forall m :: m in moves ==> !Adds(m, fn)
    ensures Unlisted(Exec(s, moves), fn) && s.calls <= Exec(s, moves).calls
    ensures forall k :: |s.calls| <= k < |Exec(s, moves).calls| ==> Exec(s, moves).calls[k].fn != fn
  {
    if moves != [] {
      var n := |moves| - 1;
      UnlistedIsSilent(s, moves[..n], fn);
      assert moves[n] in moves;
      StaysUnlisted(Exec(s, moves[..n]), moves[n], fn);
      hide Step, Unlisted;
    }
  }

  /** So is one that has been removed, whatever the list's options. */
  lemma RemovedIsSilent<F, V>(s: State<F, V>, fns: seq<F>, moves: seq<Move<F, V>>, fn: F)
    requires fn in fns && forall m :: m in moves ==> !Adds(m, fn)
    ensures var s' := Exec(Apply(s, Remove(fns)), moves);
            s.calls <= s'.calls && forall k :: |s.calls| <= k < |s'.calls| ==> s'.calls[k].fn != fn
  {
    RemoveRemoves(s, fns);
    UnlistedIsSilent(Apply(s, Op<F, V>.Remove(fns)), moves, fn);
    hide *;
  }

  /** empty takes out everything. */
  lemma EmptyUnlistsAll<F, V>(s: State<F, V>, fn: F)
    requires !s.live ==> s.list == []
    ensures Unlisted(Apply(s, Empty), fn) && Apply(s, Empty) == s.(list := [])
  {
  }

  ghost predicate Disabled<F, V>(s: State<F, V>) {
    s.locked && !s.live && s.list == [] && s.queue == [] && s.memory.None?
  }

  lemma {:induction false} StaysDisabled<F, V>(s: State<F, V>, moves: seq<Move<F, V>>)
    requires Disabled(s)
    ensures Disabled(Exec(s, moves)) && Exec(s, moves).calls == s.calls && Exec(s, moves).added == s.added
  {
    if moves != [] {
      var n := |moves| - 1;
      StaysDisabled(s, moves[..n]);
      if moves[n].Do? && moves[n].op.Remove? { RemoveRemoves(Exec(s, moves[..n]), moves[n].op.fns); }
      hide Exec, Push, RemoveFns, Kept;
    }
  }

  /** After disable, from wherever it is called, nothing is ever called or added again. */
  lemma DisableIsForGood<F, V>(s: State<F, V>, moves: seq<Move<F, V>>)
    ensures var s' := Exec(Apply(s, Disable), moves); s'.calls == s.calls && s'.added == s.added && s'.list == []
  {
    StaysDisabled(Apply(s, Op<F, V>.Disable), moves);
    hide Exec;
  }

  /** No function is in the list twice. */
  ghost predicate OneEach<F>(list: seq<Entry<F>>) {
    forall i, j :: 0 <= i < j < |list| ==> list[i].fn != list[j].fn
  }

  /** What add puts behind the list: with unique only what was not there. */
  lemma {:induction false} PushAdds<F, V>(s: State<F, V>, fns: seq<F>)
    ensures var s' := Push(s, fns);
            && s' == s.(list := s'.list, added := s'.added, births := s'.births) && s.list <= s'.list
            && (forall fn :: Has(s'.list, fn) <==> Has(s.list, fn) || fn in fns)
            && (s.opts.unique && OneEach(s.list) ==> OneEach(s'.list))
    decreases |fns|
  {
    if fns != [] {
      var n := |fns| - 1;
      var s' := Push(s, fns[..n]);
      PushAdds(s, fns[..n]);
      assert fns == fns[..n] + [fns[n]];
      var entry := Entry(fns[n], |s'.births|);
      forall fn ensures Has(s'.list + [entry], fn) <==> Has(s'.list, fn) || fn == fns[n] {
        if Has(s'.list, fn) {
          var e :| e in s'.list && e.fn == fn;
          assert e in s'.list + [entry];
        }
        if fn == fns[n] { assert entry in s'.list + [entry]; }
      }
      if !Has(s'.list, fns[n]) && OneEach(s'.list) {
        forall i | 0 <= i < |s'.list| ensures s'.list[i].fn != fns[n] { assert s'.list[i] in s'.list; }
      }
    }
  }

  lemma AddShape<F, V>(s: State<F, V>, fns: seq<F>)
    ensures var s', start := AddFns(s, fns), s.live && s.memory.Some? && s.pc.Idle?;
            && s'.opts == s.opts && s.list <= s'.list && s'.live == s.live && s'.memory == s.memory
            && s'.sent == s.sent && s'.calls == s.calls && s'.pc == (if start then Outer else s.pc)
            && s'.locked == (s.locked || (start && s.opts.once)) && s'.fired == (s.fired || start)
            && (s.opts.unique && OneEach(s.list) ==> OneEach(s'.list))
            && if s.live then forall fn :: Has(s'.list, fn) <==> Has(s.list, fn) || fn in fns else s' == s
  {
    var again := s.(firingIndex := |s.list| - 1,
                    queue := s.queue + if s.memory.Some? then [s.memory.value] else []);
    PushAdds(s, fns);
    PushAdds(again, fns);
    hide Push, Has, OneEach;
  }

  lemma {:induction false} StaysLocked<F, V>(s: State<F, V>, moves: seq<Move<F, V>>)
    requires s.locked
    ensures Exec(s, moves).locked && Exec(s, moves).sent == s.sent
  {
    if moves != [] {
      var n := |moves| - 1;
      StaysLocked(s, moves[..n]);
      StepStaysLocked(Exec(s, moves[..n]), moves[n]);
      hide Step;
    }
  }

  lemma StepStaysLocked<F, V>(s: State<F, V>, m: Move<F, V>)
    requires s.locked
    ensures Step(s, m).locked && Step(s, m).sent == s.sent
  {
    hide AddFns, RemoveFns;
    if m.Do? && m.op.Add? { AddShape(s, m.op.fns); }
    if m.Do? && m.op.Remove? { RemoveRemoves(s, m.op.fns); }
  }

  /** After lock no value is taken, and those waiting are dropped; a list that never fired is then disabled. */
  lemma LockTakesNothing<F, V>(s: State<F, V>, moves: seq<Move<F, V>>)
    ensures Exec(Apply(s, Lock), moves).sent == s.sent && Apply(s, Lock).queue == []
    ensures s.memory.None? && s.pc.Idle? ==> Disabled(Apply(s, Lock))
  {
    StaysLocked(Apply(s, Op<F, V>.Lock), moves);
    hide Exec;
  }

  lemma {:induction false} KeptOneEach<F>(list: seq<Entry<F>>, f: Entry<F> -> bool)
    requires OneEach(list)
    ensures OneEach(Kept(list, f))
  {
    if list != [] {
      var n := |list| - 1;
      KeptOneEach(list[..n], f);
      forall e | e in Kept(list[..n], f) ensures e.fn != list[n].fn { KeptIn(list[..n], f, e); }
    }
  }

  /** A unique list has no function twice, in every run. */
  lemma {:induction false} UniqueAlways<F, V>(opts: Options, moves: seq<Move<F, V>>)
    requires opts.unique
    ensures var s := Exec(Fresh<F, V>(opts), moves); s.opts == opts && OneEach(s.list)
  {
    if moves != [] {
      var n := |moves| - 1;
      UniqueAlways<F, V>(opts, moves[..n]);
      StepStaysUnique(Exec(Fresh<F, V>(opts), moves[..n]), moves[n]);
      hide Step, OneEach;
    }
  }

  lemma StepStaysUnique<F, V>(s: State<F, V>, m: Move<F, V>)
    requires s.opts.unique && OneEach(s.list)
    ensures Step(s, m).opts == s.opts && OneEach(Step(s, m).list)
  {
    hide AddFns, RemoveFns;
    if m.Do? && m.op.Add? { AddShape(s, m.op.fns); }
    if m.Do? && m.op.Remove? {
      RemoveRemoves(s, m.op.fns);
      KeptOneEach(s.list, Others(m.op.fns));
    }
  }

  /** With stopOnFalse a callback that returns false ends the event and has it forgotten; else it changes nothing. */
  lemma FalseStops<F, V>(s: State<F, V>)
    requires s.pc.InCall? && -1 <= s.firingIndex
    ensures if s.opts.stopOnFalse then
              var s' := TickOf(ReturnOf(s, true));
              s'.pc.Outer? && s'.calls == s.calls && s'.memory.None? && s'.queue == s.queue && s'.list == s.list
            else ReturnOf(s, true) == ReturnOf(s, false)
    ensures var s' := ReturnOf(s, false); s' == s.(pc := Inner)
  {
  }

  /** Where a once list can stand. */
  ghost predicate OnceAtMost<F, V>(s: State<F, V>) {
    && s.opts.once && |s.sent| <= 1 && (s.sent != [] || !s.pc.Idle? || s.fired ==> s.locked)
    && (s.pc.Idle? && s.fired && !s.opts.memory ==> !s.live && s.list == [])
  }

  /** A once list takes one value in its life; without memory it is disabled when that has been delivered. */
  lemma {:induction false} OnceTakesOne<F, V>(opts: Options, moves: seq<Move<F, V>>)
    requires opts.once
    ensures var s := Exec(Fresh<F, V>(opts), moves);
            && s.opts == opts && |s.sent| <= 1
            && (s.pc.Idle? && s.fired && !opts.memory ==> !s.live && s.list == [])
    ensures OnceAtMost(Exec(Fresh<F, V>(opts), moves))
  {
    if moves != [] {
      var n := |moves| - 1;
      OnceTakesOne<F, V>(opts, moves[..n]);
      OnceStepTakes(Exec(Fresh<F, V>(opts), moves[..n]), moves[n]);
      hide Step;
    }
  }

  lemma OnceStepTakes<F, V>(s: State<F, V>, m: Move<F, V>)
    requires OnceAtMost(s)
    ensures OnceAtMost(Step(s, m)) && Step(s, m).opts == s.opts
  {
    hide AddFns, RemoveFns;
    if m.Do? && m.op.Add? { AddShape(s, m.op.fns); }
    if m.Do? && m.op.Remove? {
      RemoveRemoves(s, m.op.fns);
    }
  }

  // ---------------------------------------------------------------- lists that fire once and remember

  const ONCE_MEMORY := Options(true, true, false, false)

  /** The moves of lists nobody locks, disables, empties or removes from. */
  predicate AddsAndFires<F, V>(m: Move<F, V>) {
    m.Do? ==> m.op.Add? || m.op.Fire?
  }

  /** What the list holds are the last registrations, in order. */
  ghost predicate Numbered<F>(list: seq<Entry<F>>, added: seq<F>) {
    |list| <= |added| &&
    forall i :: 0 <= i < |list| ==> var id := |added| - |list| + i; list[i] == Entry(added[id], id)
  }

  /** The calls made are of the functions added, in order of addition, each once and with the same event. */
  ghost predicate CalledInTurn<F, V>(calls: seq<Call<F, V>>, added: seq<F>, event: Event<V>) {
    |calls| <= |added| && forall k :: 0 <= k < |calls| ==> calls[k] == Call(added[k], k, event)
  }

  /** How many calls have been made when the loops stand where s does. */
  function CallsDue<F, V>(s: State<F, V>): int {
    if s.pc.Outer? && s.queue == [] then |s.added| else |s.added| - |s.list| + s.firingIndex + 1
  }

  /** `event` has been accepted and is being, or has been, delivered to everybody in turn. */
  ghost predicate Delivering<F, V>(s: State<F, V>, event: Event<V>) {
    && s.locked && s.fired && CalledInTurn(s.calls, s.added, event)
    && (s.memory.Some? ==> s.memory.value == event)
    && (if s.pc.Outer? && s.queue != [] then s.queue == [event] else s.queue == [] && s.memory.Some?)
    && (s.pc.Idle? ==> s.list == [])
  }

  ghost predicate OnceOk<F, V>(s: State<F, V>) {
    && s.opts == ONCE_MEMORY && s.live && |s.births| == |s.added| && |s.sent| <= 1
    && Numbered(s.list, s.added) && |s.calls| == CallsDue(s)
    && 0 <= s.firingIndex + 1 <= |s.list| && (s.pc.InCall? ==> 0 <= s.firingIndex)
    && (s.pc.Idle? || (s.pc.Outer? && s.queue == []) ==> s.firingIndex == -1)
    && if s.sent == []
       then s.pc.Idle? && s.memory.None? && s.queue == [] && !s.locked && !s.fired && |s.list| == |s.added|
       else Delivering(s, Event(s.sent[0], 0))
  }

  lemma NumberedGrows<F>(list: seq<Entry<F>>, added: seq<F>, fns: seq<F>)
    requires Numbered(list, added)
    ensures Numbered(list + NewEntries(fns, |added|), added + fns)
  {
  }

  lemma OnceAdd<F, V>(s: State<F, V>, fns: seq<F>)
    requires OnceOk(s) && (s.pc.Idle? || s.pc.InCall?)
    ensures OnceOk(AddFns(s, fns))
  {
    var base := if !s.pc.Idle? || s.memory.None? then s
                else s.(firingIndex := |s.list| - 1, queue := s.queue + [s.memory.value]);
    PushAppends(base, fns);
    NumberedGrows(s.list, s.added, fns);
    assert Push(base, fns).list == s.list + NewEntries(fns, |s.added|);
  }

  lemma OnceTick<F, V>(s: State<F, V>)
    requires OnceOk(s) && (s.pc.Outer? || s.pc.Inner?)
    ensures OnceOk(TickOf(s))
  {
  }

  lemma OnceStep<F, V>(s: State<F, V>, m: Move<F, V>)
    requires OnceOk(s) && AddsAndFires(m)
    ensures OnceOk(Step(s, m))
  {
    if Legal(s, m) {
      match m
      case Do(op) => if op.Add? { OnceAdd(s, op.fns); }
      case Tick => OnceTick(s);
      case Return(_) =>
    }
  }

  /**
   Once a once-memory list has fired and come to rest, the calls made are exactly the functions
   added, in order of addition, each once and all with the first value fired.
  */
  lemma {:induction false} ExactlyOnce<F, V>(moves: seq<Move<F, V>>)
    requires forall m :: m in moves ==> AddsAndFires(m)
    ensures var s := Exec(Fresh<F, V>(ONCE_MEMORY), moves);
            && OnceOk(s)
            && (s.fired && s.pc.Idle? ==>
                  |s.sent| == 1 && |s.calls| == |s.added| && CalledInTurn(s.calls, s.added, Event(s.sent[0], 0)))
  {
    if moves != [] {
      ExactlyOnce(moves[..|moves| - 1]);
      OnceStep(Exec(Fresh<F, V>(ONCE_MEMORY), moves[..|moves| - 1]), moves[|moves| - 1]);
    }
  }
}
