/**
 The callback list object: its methods over the closure's variables, each proved to do what the step machine says.
*/
module CallbackLists {
  import opened Lists
  import opened Callbacks

  // What the callbacks do is a script, one behaviour per call made; calls beyond its end do nothing and return.

  datatype Ending = Returns(isFalse: bool) | Throws

  /** What one call of a callback does to its own list before it returns or throws. */
  datatype Behaviour<+F, +V> = Behaviour(ops: seq<Op<F, V>>, ending: Ending)

  function ApplyAll<F(==), V>(s: State<F, V>, ops: seq<Op<F, V>>): State<F, V>
    decreases |ops|
  {
    if ops == [] then s else ApplyAll(Apply(s, ops[0]), ops[1..])
  }

  /**
   fire(), from anywhere inside it to its end.  A callback that throws ends it too, but leaves the list firing: it
   stands in that call for good.
  */
  function Drive<F(==), V>(s: State<F, V>, script: seq<Behaviour<F, V>>): State<F, V>
    requires Sane(s)
    ensures Sane(Drive(s, script)) && (Drive(s, script).pc.Idle? || Drive(s, script).pc.InCall?)
    decreases |script|, 2 * |s.queue| + (if s.pc.Outer? then 0 else 1),
              2 * (if s.firingIndex < |s.list| then |s.list| - s.firingIndex else 0) + (if s.pc.InCall? then 1 else 0)
  {
    match s.pc
    case Idle => s
    case Outer => if s.queue == [] then TickOf(s) else Drive(TickOf(s), script)
    case Inner => Drive(TickOf(s), script)
    case InCall =>
      if script == [] then Drive(ReturnOf(s, false), [])
      else
        SaneApplyAll(s, script[0].ops);
        var s' := ApplyAll(s, script[0].ops);
        match script[0].ending
        case Throws => s'
        case Returns(isFalse) => Drive(ReturnOf(s', isFalse), script[1..])
  }

  /**
   A top-level operation and, if it starts the list firing, everything up to the end of that.  A list that a callback
   threw in never starts again.
  */
  function Perform<F(==), V>(s: State<F, V>, op: Op<F, V>, script: seq<Behaviour<F, V>>): State<F, V>
    requires Sane(s) && (s.pc.Idle? || s.pc.InCall?)
    ensures var s' := Perform(s, op, script); Sane(s') && (s'.pc.Idle? || s'.pc.InCall?)
  {
    SaneApply(s, op);
    if s.pc.InCall? then Apply(s, op) else Drive(Apply(s, op), script)
  }

  /** What keeps fire() from indexing or applying nothing. */
  ghost predicate Sane<F, V>(s: State<F, V>) {
    && -1 <= s.firingIndex
    && (!s.live ==> s.list == [])
    && (s.pc.Inner? && s.memory.None? ==> |s.list| <= s.firingIndex + 1)
    && (s.pc.InCall? && s.memory.None? ==> !s.live)
  }

  lemma {:induction false} PushOnlyGrows<F, V>(s: State<F, V>, fns: seq<F>)
    ensures var s' := Push(s, fns); s' == s.(list := s'.list, added := s'.added, births := s'.births)
    decreases |fns|
  {
    if fns != [] { PushOnlyGrows(s, fns[..|fns| - 1]); }
  }

  lemma {:induction false} SaneRemove<F, V>(s: State<F, V>, fns: seq<F>)
    requires Sane(s) && (s.pc.Idle? || s.pc.InCall?)
    ensures Sane(RemoveFns(s, fns))
    ensures var s' := RemoveFns(s, fns); s' == s.(list := s'.list, firingIndex := s'.firingIndex)
    decreases |fns|
  {
    if fns != [] { SaneRemove(s, fns[..|fns| - 1]); }
  }

  lemma SaneApply<F, V>(s: State<F, V>, op: Op<F, V>)
    requires Sane(s) && (s.pc.Idle? || s.pc.InCall?)
    ensures Sane(Apply(s, op)) && (s.pc.InCall? ==> Apply(s, op).pc.InCall?)
  {
    match op
    case Add(fns) =>
      PushOnlyGrows(s, fns);
      if s.memory.Some? { PushOnlyGrows(s.(firingIndex := |s.list| - 1, queue := s.queue + [s.memory.value]), fns); }
    case Remove(fns) => SaneRemove(s, fns);
    case _ =>
  }

  lemma {:induction false} SaneApplyAll<F, V>(s: State<F, V>, ops: seq<Op<F, V>>)
    requires Sane(s) && s.pc.InCall?
    ensures Sane(ApplyAll(s, ops)) && ApplyAll(s, ops).pc.InCall?
    decreases |ops|
  {
    if ops != [] {
      SaneApply(s, ops[0]);
      SaneApplyAll(Apply(s, ops[0]), ops[1..]);
    }
  }

  /** The loops' steps towards the end of fire(): to the next call and back from it, past the last entry, ... */
  lemma DriveCalls<F, V>(s: State<F, V>, script: seq<Behaviour<F, V>>)
    requires Sane(s) && s.pc.Inner? && s.firingIndex + 1 < |s.list|
    ensures s.memory.Some? && TickOf(s).pc.InCall? && Sane(TickOf(s)) && 0 <= s.firingIndex + 1
    ensures var b := if script == [] then Behaviour([], Returns(false)) else script[0];
            var s' := ApplyAll(TickOf(s), b.ops);
            match b.ending
            case Throws => Sane(s') && Drive(s, script) == s'
            case Returns(isFalse) =>
              Sane(ReturnOf(s', isFalse)) &&
              Drive(s, script) == Drive(ReturnOf(s', isFalse), if script == [] then [] else script[1..])
    ensures script == [] ==>
              var s' := ReturnOf(ApplyAll(TickOf(s), []), false);
              s'.list == s.list && s'.queue == s.queue && s'.firingIndex == s.firingIndex + 1
  {
    hide Apply;
    if script != [] { SaneApplyAll(TickOf(s), script[0].ops); }
  }

  lemma StaysSane<F, V>(s: State<F, V>)
    requires Sane(s) && s.pc.Idle?
    ensures Sane(StartFire(s))
  {
  }

  lemma DrivePasses<F, V>(s: State<F, V>, script: seq<Behaviour<F, V>>)
    requires Sane(s) && s.pc.Inner? && s.firingIndex + 1 >= |s.list|
    ensures Sane(s.(firingIndex := -1, pc := Outer)) && TickOf(s) == s.(firingIndex := -1, pc := Outer)
    ensures Drive(s, script) == Drive(s.(firingIndex := -1, pc := Outer), script)
  {
    hide ApplyAll;
  }

  lemma DriveTakes<F, V>(s: State<F, V>, script: seq<Behaviour<F, V>>)
    requires Sane(s) && s.pc.Outer? && s.queue != []
    ensures var s' := s.(memory := Some(s.queue[0]), queue := s.queue[1..], pc := Inner);
            Sane(s') && Drive(s, script) == Drive(s', script)
  {
    hide ApplyAll;
  }

  lemma DriveEnds<F, V>(s: State<F, V>, script: seq<Behaviour<F, V>>)
    requires Sane(s) && s.pc.Outer? && s.queue == []
    ensures Sane(Finish(s)) && Drive(s, script) == Finish(s)
  {
    hide ApplyAll;
  }

  class CallbackList<F(==), V> {
    const opts: Options
    var list: seq<Entry<F>>
    var live: bool
    var queue: seq<Event<V>>
    var memory: Option<Event<V>>
    var locked: bool
    var fired: bool
    var firing: bool
    var firingIndex: int

    // the history
    var added: seq<F>
    var births: seq<nat>
    var sent: seq<V>
    var calls: seq<Call<F, V>>

    /** The object as a state of the step machine, its loops standing at pc. */
    ghost function View(pc: Pc): State<F, V>
      reads this
    {
      State(opts, list, live, queue, memory, locked, fired, firingIndex, pc, added, births, sent, calls)
    }

    constructor (opts: Options)
      ensures !firing && Standing() == Fresh(opts) && Sane(Standing())
    {
      this.opts := opts;
      list, live, queue, memory := [], true, [], None;
      locked, fired, firing, firingIndex := false, false, false, -1;
      added, births, sent, calls := [], [], [], [];
    }

    /** Where fn is in the list, from this position on; -1 if nowhere. */
    method IndexOf(fn: F, from: nat) returns (index: int)
      requires from <= |list|
      ensures index == -1 || (from <= index < |list| && list[index].fn == fn)
      ensures forall k :: from <= k < (if index == -1 then |list| else index) ==> list[k].fn != fn
    {
      index := from;
      while index < |list|
        invariant from <= index <= |list|
        invariant forall k :: from <= k < index ==> list[k].fn != fn
      {
        if list[index].fn == fn { return; }
        index := index + 1;
      }
      index := -1;
    }

    /** The functions given to add, pushed one by one. */
    method PushEach(fns: seq<F>, ghost pc: Pc)
      modifies this`list, this`added, this`births
      ensures View(pc) == Push(old(View(pc)), fns)
    {
      var i := 0;
      while i < |fns|
        invariant 0 <= i <= |fns|
        invariant View(pc) == Push(old(View(pc)), fns[..i])
      {
        assert fns[..i + 1][..i] == fns[..i];
        var found := -1;
        if opts.unique { found := IndexOf(fns[i], 0); }
        assert opts.unique ==> (found > -1 <==> Has(list, fns[i])) by {
          if found > -1 { assert list[found] in list; }
        }
        if found == -1 {
          list := list + [Entry(fns[i], |births|)];
          added, births := added + [fns[i]], births + [if memory.Some? then memory.value.serial else 0];
        }
        i := i + 1;
      }
      assert fns[..i] == fns;
    }

    /** One entry taken out, and the firing index moved if it lay at or behind that entry. */
    method Splice(index: nat, ghost pc: Pc)
      requires index < |list|
      modifies this`list, this`firingIndex
      ensures View(pc) == Spliced(old(View(pc)), index)
    {
      list := list[..index] + list[index + 1..];
      if index <= firingIndex { firingIndex := firingIndex - 1; }
    }

    /** The loop of remove, for one function. */
    method RemoveOne(fn: F, ghost pc: Pc)
      requires -1 <= firingIndex
      modifies this`list, this`firingIndex
      ensures View(pc) == RemoveFn(old(View(pc)), fn)
      ensures -1 <= firingIndex
    {
      ghost var goal := RemoveFn(View(pc), fn);
      var index := IndexOf(fn, 0);
      while index > -1
        invariant -1 <= firingIndex
        invariant index == -1 || (0 <= index < |list| && list[index].fn == fn)
        invariant forall k :: 0 <= k < (if index == -1 then |list| else index) ==> list[k].fn != fn
        invariant RemoveFn(View(pc), fn) == goal
        decreases |list|
      {
        ghost var s := View(pc);
        SpliceKeepsRemoval(s, fn, index);
        assert RemoveFn(Spliced(s, index), fn) == goal;
        Splice(index, pc);
        assert View(pc) == Spliced(s, index);
        assert forall k :: 0 <= k < index ==> list[k] == s.list[k];
        index := IndexOf(fn, index);
      }
      NothingToRemove(View(pc), fn);
    }

    method RemoveEach(fns: seq<F>, ghost pc: Pc)
      requires -1 <= firingIndex
      modifies this`list, this`firingIndex
      ensures View(pc) == RemoveFns(old(View(pc)), fns)
      ensures -1 <= firingIndex
    {
      var i := 0;
      while i < |fns|
        invariant 0 <= i <= |fns|
        invariant -1 <= firingIndex && View(pc) == RemoveFns(old(View(pc)), fns[..i])
      {
        assert fns[..i + 1][..i] == fns[..i];
        RemoveOne(fns[i], pc);
        i := i + 1;
      }
      assert fns[..i] == fns;
    }

    /** add: the list fires again if it remembers a value and is not firing. */
    method BodyOfAdd(fns: seq<F>, ghost pc: Pc) returns (start: bool)
      requires (firing <==> !pc.Idle?) && (pc.Idle? || pc.InCall?)
      modifies this`list, this`queue, this`firingIndex, this`added, this`births
      ensures AddFns(old(View(pc)), fns) == if start then StartFire(View(pc)) else View(pc)
      ensures start ==> pc.Idle?
    {
      hide Push;
      start := false;
      if live {
        if memory.Some? && !firing {
          firingIndex := |list| - 1;
          queue := queue + [memory.value];
          start := true;
        }
        PushEach(fns, pc);
      }
    }

    /** The body of an operation while the list stands at pc, without the fire it may start. */
    method Body(op: Op<F, V>, ghost pc: Pc) returns (start: bool)
      requires (firing <==> !pc.Idle?) && (pc.Idle? || pc.InCall?) && -1 <= firingIndex
      modifies this`list, this`live, this`queue, this`memory, this`locked, this`firingIndex, this`added, this`births,
               this`sent
      ensures Apply(old(View(pc)), op) == if start then StartFire(View(pc)) else View(pc)
      ensures start ==> pc.Idle?
    {
      hide AddFns, RemoveFns, StartFire;
      start := false;
      match op
      case Add(fns) => start := BodyOfAdd(fns, pc);
      case Remove(fns) => RemoveEach(fns, pc);
      case Empty => if live { list := []; }
      case Disable =>
        locked, queue := true, [];
        list, live, memory := [], false, None;
      case Lock =>
        locked, queue := true, [];
        if memory.None? && !firing {
          list, live, memory := [], false, None;
        }
      case Fire(args) =>
        if !locked {
          queue, sent := queue + [Event(args, |sent|)], sent + [args];
          start := !firing;
        }
    }

    /** The list's operations as a callback performs them. */
    method BodyOfCallback(ops: seq<Op<F, V>>)
      requires firing && Sane(View(InCall))
      modifies this`list, this`live, this`queue, this`memory, this`locked, this`firingIndex, this`added, this`births,
               this`sent
      ensures View(InCall) == ApplyAll(old(View(InCall)), ops) && Sane(View(InCall))
    {
      var i := 0;
      while i < |ops|
        invariant 0 <= i <= |ops|
        invariant Sane(View(InCall))
        invariant ApplyAll(View(InCall), ops[i..]) == ApplyAll(old(View(InCall)), ops)
      {
        SaneApply(View(InCall), ops[i]);
        var _ := Body(ops[i], InCall);
        i := i + 1;
      }
    }

    /** The first event of the queue, to be delivered. */
    method Take()
      requires firing && queue != []
      modifies this`memory, this`queue
      ensures View(Inner) == TickOf(old(View(Outer))) && queue == old(queue)[1..]
    {
      memory, queue := Some(queue[0]), queue[1..];
    }

    /** The next callback, and the call of it. */
    method Call() returns (fn: F, args: V)
      requires firing && 0 <= firingIndex + 1 < |list| && memory.Some?
      modifies this`firingIndex, this`calls
      ensures View(InCall) == TickOf(old(View(Inner)))
      ensures firingIndex == old(firingIndex) + 1 && fn == list[firingIndex].fn && args == memory.value.args
    {
      firingIndex := firingIndex + 1;
      fn, args := list[firingIndex].fn, memory.value.args;
      calls := calls + [Callbacks.Call(fn, list[firingIndex].id, memory.value)];
    }

    /** Back from the callback */
    method Back(isFalse: bool)
      requires firing
      modifies this`firingIndex, this`memory
      ensures View(Inner) == ReturnOf(old(View(InCall)), isFalse)
    {
      if isFalse && opts.stopOnFalse {
        firingIndex := |list|;
        memory := None;
      }
    }

    /** All callbacks have had the event. */
    method Rewind()
      requires firing && firingIndex + 1 >= |list|
      modifies this`firingIndex
      ensures View(Outer) == TickOf(old(View(Inner)))
    {
      firingIndex := -1;
    }

    /** One call of the next callback, the script saying what it does. */
    method Invoke(behaviour: Behaviour<F, V>) returns (threw: bool)
      requires firing && firingIndex + 1 < |list| && memory.Some? && Sane(View(Inner))
      modifies this
      ensures firing && (threw <==> behaviour.ending.Throws?)
      ensures var s := ApplyAll(TickOf(old(View(Inner))), behaviour.ops);
              match behaviour.ending
              case Throws => View(InCall) == s
              case Returns(isFalse) => View(Inner) == ReturnOf(s, isFalse)
    {
      var _, _ := Call();
      BodyOfCallback(behaviour.ops);
      match behaviour.ending
      case Throws => threw := true;
      case Returns(isFalse) =>
        Back(isFalse);
        threw := false;
    }

    /** The inner loop of fire: the callbacks of one event. */
    method CallEach(script: seq<Behaviour<F, V>>) returns (rest: seq<Behaviour<F, V>>, threw: bool)
      requires firing && Sane(View(Inner))
      modifies this
      ensures firing
      ensures threw ==> Sane(View(InCall)) && View(InCall) == Drive(old(View(Inner)), script)
      ensures !threw ==> Sane(View(Outer)) && Drive(View(Outer), rest) == Drive(old(View(Inner)), script)
      ensures |rest| < |script| || (rest == script && queue == old(queue))
    {
      hide Drive, Sane, TickOf, ReturnOf, Apply, ApplyAll;
      rest, threw := script, false;
      ghost var end := Drive(View(Inner), script);
      while firingIndex + 1 < |list|
        invariant firing && !threw && Sane(View(Inner))
        invariant Drive(View(Inner), rest) == end
        invariant |rest| < |script| || (rest == script && queue == old(queue))
        decreases |rest|, |list| - firingIndex
      {
        DriveCalls(View(Inner), rest);
        if rest == [] {
          threw := Invoke(Behaviour([], Returns(false)));
        } else {
          threw := Invoke(rest[0]);
          rest := rest[1..];
          if threw { return; }
        }
      }
      DrivePasses(View(Inner), rest);
      Rewind();
    }

    /** One event taken from the queue and delivered. */
    method Deliver(script: seq<Behaviour<F, V>>) returns (rest: seq<Behaviour<F, V>>, threw: bool)
      requires firing && Sane(View(Outer)) && queue != []
      modifies this
      ensures firing
      ensures threw ==> Sane(View(InCall)) && View(InCall) == Drive(old(View(Outer)), script)
      ensures !threw ==> Sane(View(Outer)) && Drive(View(Outer), rest) == Drive(old(View(Outer)), script)
      ensures |rest| < |script| || (rest == script && |queue| < |old(queue)|)
    {
      DriveTakes(View(Outer), script);
      hide Drive, Sane;
      Take();
      rest, threw := CallEach(script);
    }

    /** The start of fire, in front of its loops. */
    method Begin()
      requires !firing
      modifies this`locked, this`fired, this`firing
      ensures firing && View(Outer) == StartFire(old(View(Idle)))
    {
      locked := locked || opts.once;
      fired, firing := true, true;
    }

    /** Where the list stands between operations: idle, unless a callback threw. */
    ghost function Standing(): State<F, V>
      reads this
    {
      View(if firing then InCall else Idle)
    }

    /** fire(), from its first statement to its last, or to the one where a callback throws */
    method FireAll(script: seq<Behaviour<F, V>>)
      requires !firing && Sane(View(Idle))
      modifies this
      ensures Sane(Standing()) && Standing() == Drive(StartFire(old(View(Idle))), script)
    {
      StaysSane(View(Idle));
      hide Drive, Sane, Finish;
      ghost var end := Drive(StartFire(View(Idle)), script);
      Begin();
      var rest := script;
      while queue != []
        invariant firing && Sane(View(Outer))
        invariant Drive(View(Outer), rest) == end
        decreases |rest|, |queue|
      {
        var threw;
        rest, threw := Deliver(rest);
        if threw { return; }
      }
      DriveEnds(View(Outer), rest);
      WindUp();
    }

    /** The end of fire, after its loops. */
    method WindUp()
      requires firing && Sane(View(Outer))
      modifies this`list, this`live, this`memory, this`firing
      ensures !firing && View(Idle) == Finish(old(View(Outer)))
    {
      if !opts.memory { memory := None; }
      firing := false;
      if locked {
        list := [];
        live := memory.Some?;
      }
    }

    /** add, remove, empty, disable, lock or fireWith, called from outside the list's own callbacks */
    method Do(op: Op<F, V>, script: seq<Behaviour<F, V>>)
      requires Sane(Standing())
      modifies this
      ensures Sane(Standing()) && Standing() == Perform(old(Standing()), op, script)
    {
      SaneApply(Standing(), op);
      var start := Body(op, if firing then InCall else Idle);
      if start { FireAll(script); }
    }
  }

  function Spliced<F, V>(s: State<F, V>, i: nat): State<F, V>
    requires i < |s.list|
  {
    s.(list := s.list[..i] + s.list[i + 1..],
       firingIndex := if i <= s.firingIndex then s.firingIndex - 1 else s.firingIndex)
  }

  /** A splice of the loop brings the list closer to having fn removed, index included. */
  lemma SpliceKeepsRemoval<F, V>(s: State<F, V>, fn: F, i: nat)
    requires i < |s.list| && s.list[i].fn == fn && -1 <= s.firingIndex
    ensures RemoveFn(Spliced(s, i), fn) == RemoveFn(s, fn)
  {
    hide Without;
    var s', n, n' := Spliced(s, i), Passed(s), Passed(Spliced(s, i));
    WithoutOne(s.list, fn, i);
    assert s'.firingIndex - n' == s.firingIndex - n;
    assert |Without(s'.list[..n'], fn)| == |Without(s.list[..n], fn)| by {
      if i < n {
        WithoutOne(s.list[..n], fn, i);
        assert s'.list[..n'] == s.list[..n][..i] + s.list[..n][i + 1..];
      } else {
        assert s'.list[..n'] == s.list[..n];
      }
    }
  }

  lemma WithoutOne<F>(list: seq<Entry<F>>, fn: F, i: nat)
    requires i < |list| && list[i].fn == fn
    ensures Without(list[..i] + list[i + 1..], fn) == Without(list, fn)
  {
    var a, x, b := list[..i], [list[i]], list[i + 1..];
    assert list == a + (x + b) && x[..0] == [];
    WithoutAppend(a, b, fn);
    WithoutAppend(a, x + b, fn);
    WithoutAppend(x, b, fn);
    assert Without(x[..0], fn) == [] && Without(x, fn) == Without(x[..0], fn);
  }

  lemma NothingToRemove<F, V>(s: State<F, V>, fn: F)
    requires forall e :: e in s.list ==> e.fn != fn
    ensures RemoveFn(s, fn) == s
  {
    WithoutNone(s.list, fn);
    WithoutNone(s.list[..Passed(s)], fn);
  }

  lemma {:induction false} WithoutNone<F>(list: seq<Entry<F>>, fn: F)
    requires forall e :: e in list ==> e.fn != fn
    ensures Without(list, fn) == list
  {
    if list != [] {
      WithoutNone(list[..|list| - 1], fn);
      assert list == list[..|list| - 1] + [list[|list| - 1]];
    }
  }

  // ---------------------------------------------------------------- what holds of an object's whole life

  /** A call of one of the object's methods, with what the callbacks it runs do. */
  datatype Act<+F, +V> = Act(op: Op<F, V>, script: seq<Behaviour<F, V>>)

  function Life<F(==), V>(opts: Options, acts: seq<Act<F, V>>): (s: State<F, V>)
    ensures Sane(s) && (s.pc.Idle? || s.pc.InCall?)
  {
    if acts == [] then Fresh(opts)
    else
      var act := acts[|acts| - 1];
      Perform(Life(opts, acts[..|acts| - 1]), act.op, act.script)
  }

  ghost predicate Uses<F(!new), V(!new)>(script: seq<Behaviour<F, V>>, allowed: Op<F, V> -> bool) {
    forall b, op :: b in script && op in b.ops ==> allowed(op)
  }

  ghost predicate Moves<F(!new), V(!new)>(moves: seq<Move<F, V>>, allowed: Op<F, V> -> bool) {
    forall m :: m in moves && m.Do? ==> allowed(m.op)
  }

  lemma {:induction false} ExecAppend<F, V>(s: State<F, V>, a: seq<Move<F, V>>, b: seq<Move<F, V>>)
    ensures Exec(s, a + b) == Exec(Exec(s, a), b)
    decreases |b|
  {
    if b == [] {
      assert a + b == a;
    } else {
      var n := |b| - 1;
      ExecAppend(s, a, b[..n]);
      assert (a + b)[..|a + b| - 1] == a + b[..n];
    }
  }

  lemma ExecOne<F, V>(s: State<F, V>, m: Move<F, V>, rest: seq<Move<F, V>>)
    ensures Exec(s, [m] + rest) == Exec(Step(s, m), rest)
  {
    ExecAppend(s, [m], rest);
    assert [m][..0] == [];
    assert Exec(s, [m]) == Step(Exec(s, [m][..0]), m);
  }

  lemma {:induction false} OpsAreMoves<F(!new), V(!new)>(s: State<F, V>, ops: seq<Op<F, V>>, allowed: Op<F, V> -> bool)
    returns (moves: seq<Move<F, V>>)
    requires Sane(s) && s.pc.InCall? && forall op :: op in ops ==> allowed(op)
    ensures Exec(s, moves) == ApplyAll(s, ops) && Moves(moves, allowed)
    ensures Sane(ApplyAll(s, ops)) && ApplyAll(s, ops).pc.InCall?
    decreases |ops|
  {
    if ops == [] {
      moves := [];
    } else {
      SaneApply(s, ops[0]);
      var rest := OpsAreMoves(Apply(s, ops[0]), ops[1..], allowed);
      ExecOne(s, Do(ops[0]), rest);
      moves := [Do(ops[0])] + rest;
    }
  }

  lemma {:induction false} DriveIsRun<F(!new), V(!new)>(s: State<F, V>, script: seq<Behaviour<F, V>>,
                                                        allowed: Op<F, V> -> bool)
    returns (moves: seq<Move<F, V>>)
    requires Sane(s) && Uses(script, allowed)
    ensures Exec(s, moves) == Drive(s, script) && Moves(moves, allowed)
    decreases |script|, 2 * |s.queue| + (if s.pc.Outer? then 0 else 1),
              2 * (if s.firingIndex < |s.list| then |s.list| - s.firingIndex else 0) + (if s.pc.InCall? then 1 else 0)
  {
    hide Apply, ApplyAll, Uses;
    match s.pc
    case Idle => moves := [];
    case Outer =>
      var rest := [];
      if s.queue != [] { rest := DriveIsRun(TickOf(s), script, allowed); }
      ExecOne(s, Tick, rest);
      moves := [Tick] + rest;
    case Inner =>
      var rest := DriveIsRun(TickOf(s), script, allowed);
      ExecOne(s, Tick, rest);
      moves := [Tick] + rest;
    case InCall =>
      hide Step, TickOf, Exec, Moves;
      if script == [] {
        var rest := DriveIsRun(ReturnOf(s, false), [], allowed);
        moves := ReturnsThen(s, [], s, false, rest, allowed);
      } else {
        var b := script[0];
        UsesParts(script, allowed);
        var first := OpsAreMoves(s, b.ops, allowed);
        var s' := ApplyAll(s, b.ops);
        match b.ending
        case Throws => moves := first;
        case Returns(isFalse) =>
          var rest := DriveIsRun(ReturnOf(s', isFalse), script[1..], allowed);
          moves := ReturnsThen(s, first, s', isFalse, rest, allowed);
      }
  }

  lemma UsesParts<F(!new), V(!new)>(script: seq<Behaviour<F, V>>, allowed: Op<F, V> -> bool)
    requires Uses(script, allowed) && script != []
    ensures (forall op :: op in script[0].ops ==> allowed(op)) && Uses(script[1..], allowed)
  {
  }

  lemma ReturnsThen<F(!new), V(!new)>(s: State<F, V>, first: seq<Move<F, V>>, s': State<F, V>, isFalse: bool,
                                      rest: seq<Move<F, V>>, allowed: Op<F, V> -> bool)
    returns (moves: seq<Move<F, V>>)
    requires Exec(s, first) == s' && s'.pc.InCall? && Moves(first, allowed) && Moves(rest, allowed)
    ensures Exec(s, moves) == Exec(ReturnOf(s', isFalse), rest) && Moves(moves, allowed)
  {
    moves := first + ([Return(isFalse)] + rest);
    assert Step(s', Return(isFalse)) == ReturnOf(s', isFalse);
    ExecAppend(s, first, [Return(isFalse)] + rest);
    ExecOne(s', Return(isFalse), rest);
    hide Exec, Step, ReturnOf;
  }

  /** What happens next to an object is a run of the step machine. */
  lemma {:induction false} MoreIsRun<F(!new), V(!new)>(opts: Options, acts: seq<Act<F, V>>, more: seq<Act<F, V>>,
                                                       allowed: Op<F, V> -> bool)
    returns (moves: seq<Move<F, V>>)
    requires forall a :: a in more ==> allowed(a.op) && Uses(a.script, allowed)
    ensures Exec(Life(opts, acts), moves) == Life(opts, acts + more) && Moves(moves, allowed)
    decreases |more|
  {
    ConcatLast(acts, more);
    if more == [] {
      moves := [];
    } else {
      var n := |more| - 1;
      var before := MoreIsRun(opts, acts, more[..n], allowed);
      var s := Life(opts, acts + more[..n]);
      assert Life(opts, acts + more) == Perform(s, more[n].op, more[n].script);
      SaneApply(s, more[n].op);
      var rest := [];
      if s.pc.Idle? { rest := DriveIsRun(Apply(s, more[n].op), more[n].script, allowed); }
      ExecOne(s, Do(more[n].op), rest);
      ExecAppend(Life(opts, acts), before, [Do(more[n].op)] + rest);
      moves := before + ([Do(more[n].op)] + rest);
    }
  }

  /** An object's life is one from the start. */
  lemma LifeIsRun<F(!new), V(!new)>(opts: Options, acts: seq<Act<F, V>>, allowed: Op<F, V> -> bool)
    returns (moves: seq<Move<F, V>>)
    requires forall a :: a in acts ==> allowed(a.op) && Uses(a.script, allowed)
    ensures Exec(Fresh(opts), moves) == Life(opts, acts) && Moves(moves, allowed)
  {
    assert [] + acts == acts;
    moves := MoreIsRun(opts, [], acts, allowed);
  }

  /** A function that has been removed and is not added again, from inside callbacks either, is never called again. */
  lemma RemovedIsNeverCalled<F(!new), V(!new)>(opts: Options, acts: seq<Act<F, V>>, fns: seq<F>,
                                               script: seq<Behaviour<F, V>>, more: seq<Act<F, V>>, fn: F)
    requires fn in fns
    requires var spares := (op: Op<F, V>) => op.Add? ==> fn !in op.fns;
             forall a :: a in more ==> spares(a.op) && Uses(a.script, spares)
    ensures var s, s' := Life(opts, acts), Life(opts, acts + [Act(Remove(fns), script)] + more);
            s.calls <= s'.calls && forall k :: |s.calls| <= k < |s'.calls| ==> s'.calls[k].fn != fn
  {
    var s, removed := Life(opts, acts), acts + [Act(Op<F, V>.Remove(fns), script)];
    assert removed[..|removed| - 1] == acts;
    RemoveRemoves(s, fns);
    assert Life(opts, removed) == Apply(s, Remove(fns));
    var moves := MoreIsRun(opts, removed, more, (op: Op<F, V>) => op.Add? ==> fn !in op.fns);
    RemovedIsSilent(s, fns, moves, fn);
  }

  /**
   Gap-free delivery, for every life of a memory list without lock, disable and empty.  The list is idle unless a
   callback threw; then what came to an entry ends with that call, and it has had all exactly if the call was not
   before its turn and no event was waiting or came later.
  */
  lemma {:induction false} MemoryListDelivers<F(!new), V(!new)>(acts: seq<Act<F, V>>, i: nat)
    requires var plain := (op: Op<F, V>) => op.Add? || op.Remove? || op.Fire?;
             forall a :: a in acts ==> plain(a.op) && Uses(a.script, plain)
    requires i < |Life(MEMORY, acts).list|
    ensures var s := Life(MEMORY, acts);
            var id := s.list[i].id;
            && id < |s.added| == |s.births| && s.added[id] == s.list[i].fn
            && CallsTo(s.calls, id) == Range(s.births[id], DueTo(s, i))
            && (CallsTo(s.calls, id) == Range(s.births[id], |s.sent|) <==>
                  s.pc.Idle? || (i <= s.firingIndex && s.queue == []))
            && forall c :: c in s.calls ==> c.id < |s.added| && c.fn == s.added[c.id] && EventOk(s.sent, c.event)
  {
    var moves := LifeIsRun(MEMORY, acts, (op: Op<F, V>) => op.Add? || op.Remove? || op.Fire?);
    GapFreeDelivery(moves, i);
  }

  /** And a registration whose function is never removed is in the list. */
  lemma {:induction false} NeverRemovedIsServed<F(!new), V(!new)>(acts: seq<Act<F, V>>, id: nat)
    requires id < |Life(MEMORY, acts).added|
    requires var plain := (op: Op<F, V>) => op.Add? || op.Fire? ||
                                            (op.Remove? && Life(MEMORY, acts).added[id] !in op.fns);
             forall a :: a in acts ==> plain(a.op) && Uses(a.script, plain)
    ensures var s := Life(MEMORY, acts);
            Listed(s, id) && |s.births| == |s.added| &&
            exists i :: 0 <= i < |s.list| && s.list[i] == Entry(s.added[id], id) &&
                        CallsTo(s.calls, id) == Range(s.births[id], DueTo(s, i))
  {
    var fn := Life(MEMORY, acts).added[id];
    var moves := LifeIsRun(MEMORY, acts, (op: Op<F, V>) => op.Add? || op.Fire? || (op.Remove? && fn !in op.fns));
    assert moves[..0] == [] && moves[0..] == moves;
    StaysListed(moves, 0, id);
    var s := Life(MEMORY, acts);
    var i :| 0 <= i < |s.list| && s.list[i] == Entry(s.added[id], id);
    GapFreeDelivery(moves, i);
  }

  /**
   Exactly once, for every life of a once-memory list of additions and fires; where a callback threw, the functions
   up to it have been called, in the order added.
  */
  lemma OnceMemoryListDelivers<F(!new), V(!new)>(acts: seq<Act<F, V>>)
    requires var plain := (op: Op<F, V>) => op.Add? || op.Fire?;
             forall a :: a in acts ==> plain(a.op) && Uses(a.script, plain)
    requires Life(ONCE_MEMORY, acts).fired
    ensures var s := Life(ONCE_MEMORY, acts);
            |s.sent| == 1 && CalledInTurn(s.calls, s.added, Event(s.sent[0], 0)) &&
            |s.calls| == if s.pc.Idle? then |s.added| else |s.added| - |s.list| + s.firingIndex + 1
  {
    var moves := LifeIsRun(ONCE_MEMORY, acts, (op: Op<F, V>) => op.Add? || op.Fire?);
    ExactlyOnce(moves);
  }

  // ---------------------------------------------------------------- throwing

  ghost predicate NoThrows<F(!new), V(!new)>(script: seq<Behaviour<F, V>>) {
    forall b :: b in script ==> !b.ending.Throws?
  }

  lemma {:induction false} DriveRests<F(!new), V(!new)>(s: State<F, V>, script: seq<Behaviour<F, V>>)
    requires Sane(s) && NoThrows(script)
    ensures Drive(s, script).pc.Idle?
    decreases |script|, 2 * |s.queue| + (if s.pc.Outer? then 0 else 1),
              2 * (if s.firingIndex < |s.list| then |s.list| - s.firingIndex else 0) + (if s.pc.InCall? then 1 else 0)
  {
    match s.pc
    case Idle =>
    case Outer => if s.queue != [] { DriveRests(TickOf(s), script); }
    case Inner => DriveRests(TickOf(s), script);
    case InCall =>
      hide Apply, ApplyAll, TickOf;
      if script == [] { DriveRests(ReturnOf(s, false), []); }
      else {
        SaneApplyAll(s, script[0].ops);
        DriveRests(ReturnOf(ApplyAll(s, script[0].ops), script[0].ending.isFalse), script[1..]);
      }
  }

  /** Without throws every life comes to rest. */
  lemma {:induction false} LifeRests<F(!new), V(!new)>(opts: Options, acts: seq<Act<F, V>>)
    requires forall a :: a in acts ==> NoThrows(a.script)
    ensures Life(opts, acts).pc.Idle?
  {
    if acts != [] {
      var n := |acts| - 1;
      LifeRests(opts, acts[..n]);
      SaneApply(Life(opts, acts[..n]), acts[n].op);
      DriveRests(Apply(Life(opts, acts[..n]), acts[n].op), acts[n].script);
    }
  }

  /** After a throw no callback is ever called again, whatever is done to the list. */
  lemma {:induction false} ThrowSilences<F(!new), V(!new)>(opts: Options, acts: seq<Act<F, V>>, more: seq<Act<F, V>>)
    requires Life(opts, acts).pc.InCall?
    ensures Life(opts, acts + more).pc.InCall? && Life(opts, acts + more).calls == Life(opts, acts).calls
  {
    ConcatLast(acts, more);
    if more != [] {
      var n := |more| - 1;
      ThrowSilences(opts, acts, more[..n]);
      CallsStay(Life(opts, acts + more[..n]), more[n].op);
    }
  }

  lemma CallsStay<F, V>(s: State<F, V>, op: Op<F, V>)
    requires Sane(s) && s.pc.InCall?
    ensures Apply(s, op).pc.InCall? && Apply(s, op).calls == s.calls
  {
    match op
    case Add(fns) => PushOnlyGrows(s, fns);
    case Remove(fns) => SaneRemove(s, fns);
    case _ =>
  }
}
