/**
 The deferred object: six callback list objects that fire each other, one inside the other as callbacks call.
 Each step is an act of the deferred machine, so all that is proved of the machine's runs holds of the object.
 User code is a script of calls and returns, taken in order by whichever callback runs.
*/
module DeferredObjects {
  import opened Lists
  import opened Callbacks
  import opened CallbackLists
  import opened Deferreds
  import opened DeferredSteps
  import opened DeferredNotices

  ghost predicate IsList<V>(l: CallbackList<Fn, V>, s: State<Fn, V>)
    reads l
  {
    l.View(s.pc) == s && (l.firing <==> !s.pc.Idle?)
  }

  lemma ViewPc<V>(l: CallbackList<Fn, V>, pc: Pc)
    ensures l.View(pc).pc == pc
  {
  }

  lemma Fields<V>(l: CallbackList<Fn, V>, s: State<Fn, V>)
    requires l.View(s.pc) == s
    ensures l.queue == s.queue && l.list == s.list && l.firingIndex == s.firingIndex && l.memory == s.memory
    ensures l.calls == s.calls && l.added == s.added && l.locked == s.locked
  {
  }

  /** list.add of a list's wiring */
  method NewList<V>(k: nat) returns (l: CallbackList<Fn, V>)
    ensures fresh(l) && IsList(l, Created(k))
  {
    l := new CallbackList<Fn, V>(OptionsOf(k));
    PushOnlyGrows(Fresh<Fn, V>(OptionsOf(k)), Wiring(k));
    hide Push;
    var _ := l.BodyOfAdd(Wiring(k), Idle);
  }

  class DeferredObject<V> {
    const lists: seq<CallbackList<Fn, V>>
    var phase: Phase
    /** What has been done so far. */
    ghost var acts: seq<Turn<V>>

    ghost predicate Six() {
      |lists| == 6 && forall i, j :: 0 <= i < j < 6 ==> lists[i] != lists[j]
    }

    /** The lists and the state are those of the machine. */
    ghost predicate Shows(d: Machine<V>)
      reads this`phase, lists
    {
      Six() && |d.lists| == 6 && phase == d.phase && forall k :: 0 <= k < 6 ==> IsList(lists[k], d.lists[k])
    }

    ghost function Now(): (d: Machine<V>)
      reads this
      ensures |d.lists| == 6
    {
      Deferreds.Exec(acts)
    }

    ghost predicate Valid()
      reads this, lists
    {
      Shows(Now())
    }

    /** What holds while the loops of list k run. */
    ghost predicate Runs(k: nat)
      reads this, lists
    {
      Six() && Valid() && k < 6 && Now().stack != [] && Top(Now()) == k
    }

    lemma NowIs()
      ensures Now() == Deferreds.Exec(acts) && Inv(Now()) && StackOk(Now()) && AllSane(Now()) && |Now().lists| == 6
    {
      InvAlways(acts);
      SaneAlways(acts);
      hide Deferreds.Exec;
    }

    /** The lists other than k are those of the machine. */
    ghost predicate Others(k: nat, d: Machine<V>)
      requires |lists| == 6 == |d.lists|
      reads set j | 0 <= j < 6 && j != k :: lists[j]
    {
      forall j :: 0 <= j < 6 && j != k ==> IsList(lists[j], d.lists[j])
    }

    /** One list, and the machine's; the others. */
    lemma OpenAt(k: nat, d: Machine<V>)
      requires Shows(d) && k < 6
      ensures Six() && |lists| == 6 && |d.lists| == 6 && Others(k, d) && phase == d.phase
      ensures lists[k].View(d.lists[k].pc) == d.lists[k] && (lists[k].firing <==> !d.lists[k].pc.Idle?)
      ensures forall j :: 0 <= j < |lists| && j != k ==> lists[j] != lists[k]
    {
    }

    lemma CloseAt(k: nat, d: Machine<V>, d': Machine<V>)
      requires Six() && k < 6 && |lists| == 6 && |d.lists| == 6 && Others(k, d) && phase == d'.phase
      requires |d'.lists| == 6 && d'.lists == d.lists[k := d'.lists[k]]
      requires lists[k].View(d'.lists[k].pc) == d'.lists[k] && (lists[k].firing <==> !d'.lists[k].pc.Idle?)
      ensures Shows(d')
    {
      assert IsList(lists[k], d'.lists[k]);
      hide IsList;
    }

    /** The running list. */
    lemma Prelude(k: nat)
      requires Runs(k)
      ensures Shows(Now()) && k < 6 && Now() == Deferreds.Exec(acts) && Now().stack != [] && Top(Now()) == k
      ensures |Now().lists| == 6 && Sane(Now().lists[k]) && !Now().lists[k].pc.Idle? && Inv(Now())
    {
      NowIs();
      TopIsWired(Now());
      hide Deferreds.Exec, Sane, Wired, StackOk, Shows;
    }

    lemma Mirror(k: nat)
      requires Runs(k)
      ensures k < 6 && |lists| == 6 && |Now().lists| == 6 && Now().stack != []
      ensures var l, s := lists[k], Now().lists[k];
              l.queue == s.queue && l.list == s.list && l.firingIndex == s.firingIndex && l.memory == s.memory
    {
      Prelude(k);
      OpenAt(k, Now());
      hide Deferreds.Exec, Shows;
    }

    /** List k has changed, and the machine with it by one act. */
    lemma Epilogue(k: nat, before: seq<Turn<V>>, a: Turn<V>)
      requires Six() && k < 6 && |lists| == 6 && acts == before + [a]
      requires var d, d' := Deferreds.Exec(before), Deferreds.Perform(Deferreds.Exec(before), a);
               && |d.lists| == 6 == |d'.lists| && Others(k, d) && phase == d'.phase
               && d'.lists == d.lists[k := d'.lists[k]]
               && lists[k].View(d'.lists[k].pc) == d'.lists[k] && (lists[k].firing <==> !d'.lists[k].pc.Idle?)
      ensures Valid() && Now() == Deferreds.Perform(Deferreds.Exec(before), a)
      ensures Now().stack != [] && Top(Now()) == k ==> Runs(k)
    {
      ExecOneMore(before, a);
      CloseAt(k, Deferreds.Exec(before), Deferreds.Perform(Deferreds.Exec(before), a));
      hide Deferreds.Exec, Deferreds.Perform, Shows;
    }

    lemma SixMeans()
      requires Six()
      ensures |lists| == 6 && forall k :: 0 <= k < 6 ==> lists[k] in lists
    {
    }

    lemma RunsIf(k: nat)
      requires Six() && Valid() && k < 6 && Now().stack != [] && Top(Now()) == k
      ensures Runs(k)
    {
    }

    lemma ShowsNow(d: Machine<V>)
      requires Shows(d) && Now().lists == d.lists && Now().phase == d.phase
      ensures Valid() && Six()
    {
      hide IsList, Deferreds.Exec;
    }

    /** An unsettled deferred */
    constructor ()
      ensures Six() && Valid() && acts == [] && fresh(lists)
    {
      hide *;
      var l0 := NewList<V>(0);
      var l1 := NewList<V>(1);
      var l2 := NewList<V>(2);
      var l3 := NewList<V>(3);
      var l4 := NewList<V>(4);
      var l5 := NewList<V>(5);
      lists, phase, acts := [l0, l1, l2, l3, l4, l5], Pending, [];
      new;
      Begun(l0, l1, l2, l3, l4, l5);
    }

    lemma Begun(l0: CallbackList<Fn, V>, l1: CallbackList<Fn, V>, l2: CallbackList<Fn, V>, l3: CallbackList<Fn, V>,
                l4: CallbackList<Fn, V>, l5: CallbackList<Fn, V>)
      requires lists == [l0, l1, l2, l3, l4, l5] && phase.Pending? && acts == []
      requires l0 != l1 && l0 != l2 && l0 != l3 && l0 != l4 && l0 != l5 && l1 != l2 && l1 != l3 && l1 != l4 && l1 != l5
      requires l2 != l3 && l2 != l4 && l2 != l5 && l3 != l4 && l3 != l5 && l4 != l5
      requires IsList(l0, Created(0)) && IsList(l1, Created(1)) && IsList(l2, Created(2))
      requires IsList(l3, Created(3)) && IsList(l4, Created(4)) && IsList(l5, Created(5))
      ensures Six() && Valid()
    {
      CreatedLists<V>();
      hide IsList, Created, Create;
    }

    /** An operation on one of the lists, up to where it may begin to fire. */
    method Operate(k: nat, op: Op<Fn, V>, ghost d: Machine<V>) returns (start: bool)
      requires Shows(d) && k < 6 && (d.lists[k].pc.Idle? || d.lists[k].pc.InCall?) && -1 <= d.lists[k].firingIndex
      requires !op.Remove?
      modifies lists[k]
      ensures Shows(Deferreds.Operate(d, k, op))
      ensures start <==> d.lists[k].pc.Idle? && !Apply(d.lists[k], op).pc.Idle?
    {
      hide *;
      OpenAt(k, d);
      Fields(lists[k], d.lists[k]);
      Begins(d.lists[k], op);
      OperateIs(d, k, op);
      start := lists[k].Body(op, d.lists[k].pc);
      ViewPc(lists[k], d.lists[k].pc);
      if start { lists[k].Begin(); }
      ViewPc(lists[k], Outer);
      CloseAt(k, d, Deferreds.Operate(d, k, op));
    }

    /** The first event of the queue is what list k delivers next. */
    method TakeEvent(k: nat, ghost script: seq<Turn<V>>)
      requires Runs(k) && Now().lists[k].pc.Outer? && lists[k].queue != []
      modifies this`acts, lists[k]
      ensures Runs(k) && Now().lists[k].pc.Inner? && Now().stack == old(Now().stack)
      ensures lists[k].queue == old(lists[k].queue)[1..]
      ensures Progress(old(acts), acts, script, script, |Now().stack| - 1, k)
    {
      hide *;
      ghost var before := acts;
      Prelude(k);
      OpenAt(k, Now());
      Fields(lists[k], Now().lists[k]);
      TickShape(Now().lists[k]);
      TickActs(acts, script, k);
      lists[k].Take();
      acts := acts + [Deferreds.Run];
      Epilogue(k, before, Deferreds.Run);
    }

    /** All callbacks have had the event. */
    method EndEvent(k: nat, ghost script: seq<Turn<V>>)
      requires Runs(k) && Now().lists[k].pc.Inner? && lists[k].firingIndex + 1 >= |lists[k].list|
      modifies this`acts, lists[k]
      ensures Runs(k) && Now().lists[k].pc.Outer? && Now().stack == old(Now().stack)
      ensures lists[k].queue == old(lists[k].queue)
      ensures Progress(old(acts), acts, script, script, |Now().stack| - 1, k)
    {
      hide *;
      ghost var before := acts;
      Prelude(k);
      OpenAt(k, Now());
      Fields(lists[k], Now().lists[k]);
      TickShape(Now().lists[k]);
      TickActs(acts, script, k);
      lists[k].Rewind();
      acts := acts + [Deferreds.Run];
      Epilogue(k, before, Deferreds.Run);
    }

    /** The end of fire, after its loops. */
    method EndFire(k: nat, ghost script: seq<Turn<V>>)
      requires Runs(k) && Now().lists[k].pc.Outer? && lists[k].queue == []
      modifies this`acts, lists[k]
      ensures Valid() && Now().stack == old(Now().stack)[..|old(Now().stack)| - 1]
      ensures Progress(old(acts), acts, script, script, |Now().stack|, k)
    {
      hide *;
      ghost var before := acts;
      Prelude(k);
      OpenAt(k, Now());
      Fields(lists[k], Now().lists[k]);
      TickShape(Now().lists[k]);
      TickActs(acts, script, k);
      lists[k].WindUp();
      acts := acts + [Deferreds.Run];
      Epilogue(k, before, Deferreds.Run);
    }

    /** List k has recorded its next call, which the machine, still to make it, calls t. */
    ghost predicate Calls(k: nat, fn: Fn, args: V, t: Machine<V>)
      reads this, lists
    {
      Six() && Shows(t) && Calling(Now(), k, fn, args, t)
    }

    lemma CallsMeans(k: nat, fn: Fn, args: V, t: Machine<V>)
      requires Calls(k, fn, args, t)
      ensures Six() && Shows(t) && Calling(Now(), k, fn, args, t) && Now() == Deferreds.Exec(acts) && k < 6
      ensures t.stack == Now().stack && |t.lists| == 6 == |Now().lists| && AllSane(Now())
    {
      NowIs();
      hide Shows, Deferreds.Exec, TickOf, Effect, AtRest, Callee, Sane;
    }

    /** The next call of list k, recorded; its callback is still to run. */
    method BeginCall(k: nat) returns (fn: Fn, args: V, ghost t: Machine<V>)
      requires Runs(k) && Now().lists[k].pc.Inner? && lists[k].firingIndex + 1 < |lists[k].list|
      modifies lists[k]
      ensures Calls(k, fn, args, t) && (fn.User? || WiringOf(k, fn))
    {
      hide *;
      Prelude(k);
      OpenAt(k, Now());
      Fields(lists[k], Now().lists[k]);
      t := NextCalling(Now(), k);
      fn, args := lists[k].Call();
      CloseAt(k, Now(), t);
      CallsIf(k, fn, args, t);
    }

    lemma CallsIf(k: nat, fn: Fn, args: V, t: Machine<V>)
      requires Six() && Shows(t) && Calling(Now(), k, fn, args, t)
      ensures Calls(k, fn, args, t)
    {
    }

    /** Back in the loops of list k */
    method Return(k: nat, isFalse: bool, ghost a: Turn<V>)
      requires Runs(k) && Now().lists[k].pc.InCall? && Callee(Now().lists[k]).Some?
      requires a == (if Callee(Now().lists[k]).value.User? then Deferreds.Leave(isFalse) else Deferreds.Run)
      requires !Callee(Now().lists[k]).value.User? ==> !isFalse
      modifies this`acts, lists[k]
      ensures Runs(k) && acts == old(acts) + [a] && Now().stack == old(Now().stack)
      ensures Now().lists == old(Now().lists)[k := ReturnOf(old(Now().lists[k]), isFalse)]
    {
      hide *;
      ghost var before := acts;
      Prelude(k);
      OpenAt(k, Now());
      ReturnsTo(Now(), k, isFalse, a);
      lists[k].Back(isFalse);
      acts := acts + [a];
      Epilogue(k, before, a);
    }

    /** fire(), from the test of its outer loop to its end */
    method FireAll(k: nat, script: seq<Turn<V>>) returns (rest: seq<Turn<V>>)
      requires Runs(k) && Now().lists[k].pc.Outer? && NoRuns(script)
      modifies this, lists
      ensures Valid() && NoRuns(rest) && Now().stack == old(Now().stack)[..|old(Now().stack)| - 1]
      ensures Progress(old(acts), acts, script, rest, |Now().stack|, k)
      decreases |script|, if k <= FAIL then 1 else 0, 4
    {
      hide *;
      Prelude(k);
      Mirror(k);
      rest := script;
      ghost var before, st, n := acts, Now().stack, |Now().stack| - 1;
      NoProgress(acts, script, n, k);
      while lists[k].queue != []
        invariant Runs(k) && |Now().lists| == 6 && Now().lists[k].pc.Outer? && NoRuns(rest) && Now().stack == st
        invariant Progress(before, acts, script, rest, n, k)
        decreases |rest|, |lists[k].queue|
      {
        ghost var mid, left := acts, rest;
        rest := Deliver(k, rest);
        ProgressThen(before, mid, acts, script, left, rest, n, n, k);
      }
      ghost var mid := acts;
      EndFire(k, rest);
      ProgressThen(before, mid, acts, script, rest, rest, n, n, k);
    }

    /** One event delivered. */
    method Deliver(k: nat, script: seq<Turn<V>>) returns (rest: seq<Turn<V>>)
      requires Runs(k) && Now().lists[k].pc.Outer? && lists[k].queue != [] && NoRuns(script)
      modifies this, lists
      ensures Runs(k) && Now().lists[k].pc.Outer? && NoRuns(rest) && Now().stack == old(Now().stack)
      ensures Progress(old(acts), acts, script, rest, |Now().stack| - 1, k)
      ensures |rest| < |script| || (|rest| == |script| && |lists[k].queue| < |old(lists[k].queue)|)
      decreases |script|, if k <= FAIL then 1 else 0, 3
    {
      hide *;
      Mirror(k);
      ghost var before, st, n := acts, Now().stack, |Now().stack| - 1;
      TakeEvent(k, script);
      rest := script;
      ghost var queue := lists[k].queue;
      while lists[k].firingIndex + 1 < |lists[k].list|
        invariant Runs(k) && |Now().lists| == 6 && Now().lists[k].pc.Inner? && NoRuns(rest) && Now().stack == st
        invariant Progress(before, acts, script, rest, n, k)
        invariant |rest| < |script| || (rest == script && lists[k].queue == queue)
        decreases |rest|, |lists[k].list| - lists[k].firingIndex
      {
        ghost var mid, left := acts, rest;
        rest := CallOne(k, rest);
        ProgressThen(before, mid, acts, script, left, rest, n, n, k);
      }
      ghost var mid := acts;
      EndEvent(k, rest);
      ProgressThen(before, mid, acts, script, rest, rest, n, n, k);
    }

    /** One callback called, up to where the loop goes on. */
    method CallOne(k: nat, script: seq<Turn<V>>) returns (rest: seq<Turn<V>>)
      requires Runs(k) && Now().lists[k].pc.Inner? && lists[k].firingIndex + 1 < |lists[k].list| && NoRuns(script)
      modifies this, lists
      ensures Runs(k) && Now().lists[k].pc.Inner? && NoRuns(rest) && Now().stack == old(Now().stack)
      ensures Progress(old(acts), acts, script, rest, |Now().stack| - 1, k)
      ensures |rest| < |script| ||
              (rest == script && lists[k].queue == old(lists[k].queue) && lists[k].list == old(lists[k].list) &&
               lists[k].firingIndex == old(lists[k].firingIndex) + 1)
      decreases |script|, if k <= FAIL then 1 else 0, 2
    {
      hide *;
      Mirror(k);
      ghost var s := Now().lists[k];
      var fn, args;
      ghost var t;
      fn, args, t := BeginCall(k);
      if fn.User? {
        rest := CallUser(k, fn, args, script, t);
      } else {
        rest := CallWiring(k, fn, args, script, t);
      }
      Mirror(k);
      StayedMeans(s, Now().lists[k]);
    }

    /** A call of user code */
    method CallUser(k: nat, fn: Fn, ghost args: V, script: seq<Turn<V>>, ghost t: Machine<V>)
      returns (rest: seq<Turn<V>>)
      requires Calls(k, fn, args, t) && fn.User? && NoRuns(script)
      modifies this, lists
      ensures Runs(k) && Now().lists[k].pc.Inner? && NoRuns(rest) && Now().stack == old(Now().stack)
      ensures Progress(old(acts), acts, script, rest, |Now().stack| - 1, k)
      ensures |rest| < |script| || (rest == script && Stayed(old(Now()).lists[k], Now().lists[k]))
      decreases |script|, if k <= FAIL then 1 else 0, 1
    {
      hide *;
      ghost var before := acts;
      CallsMeans(k, fn, args, t);
      SixMeans();
      UserStarts(acts, k, fn, args, t, script);
      acts := acts + [Deferreds.Run];
      ghost var called := acts;
      NowIs();
      ShowsNow(t);
      var isFalse;
      isFalse, rest := RunUser(script);
      ghost var d := Now();
      NowIs();
      StillCalling(Deferreds.Exec(before), k, fn, args, t, d);
      RunsIf(k);
      Return(k, isFalse, Deferreds.Leave(isFalse));
      NowIs();
      TookThen(before, called, acts, script, script, rest);
      CallEnds(before, k, fn, args, t, d, acts, script, rest, isFalse);
    }

    /** User code takes moves of the script until it returns. */
    method RunUser(script: seq<Turn<V>>) returns (isFalse: bool, rest: seq<Turn<V>>)
      requires Six() && Valid() && UserRuns(Now()) && NoRuns(script)
      modifies this, lists
      ensures Valid() && Now().stack == old(Now().stack) && Below(old(Now()), Now(), |Now().stack|) && NoRuns(rest)
      ensures Took(old(acts), acts + [Deferreds.Leave(isFalse)], script, rest)
      ensures |rest| < |script| || (rest == script && acts == old(acts) && !isFalse)
      decreases |script|, 0, 0
    {
      ghost var a0, d := acts, Now();
      hide *;
      NowIs();
      BelowItself(d, |d.stack|);
      TookNothing(acts, script);
      rest := script;
      while rest != [] && !rest[0].Leave?
        invariant Six() && Valid() && UserRuns(Now()) && NoRuns(rest)
        invariant Now().stack == d.stack && Below(d, Now(), |d.stack|)
        invariant Took(a0, acts, script, rest) && (|rest| < |script| || (rest == script && acts == a0))
        decreases |rest|
      {
        ghost var a1, d1, left := acts, Now(), rest;
        NoRunsRest(rest);
        TookOne(acts, rest);
        rest := Act(rest[0], rest[1..]);
        TookFewer(a1 + [left[0]], acts, left[1..], rest);
        UsersStill(d1, Now());
        TookThen(a1, a1 + [left[0]], acts, left, left[1..], rest);
        TookThen(a0, a1, acts, script, left, rest);
        BelowThen(d, d1, Now(), |d.stack|, |d.stack|);
      }
      isFalse := false;
      if rest == [] {
        TookReturn(acts);
        TookThen(a0, acts, acts + [Deferreds.Leave(false)], script, [], []);
      } else {
        isFalse := rest[0].isFalse;
        NoRunsRest(rest);
        TookOne(acts, rest);
        TookThen(a0, acts, acts + [rest[0]], script, rest, rest[1..]);
        rest := rest[1..];
      }
    }

    /** resolveWith, rejectWith, notifyWith, done, fail, progress or then's additions, from user code */
    method Act(a: Turn<V>, script: seq<Turn<V>>) returns (rest: seq<Turn<V>>)
      requires Six() && Valid() && UserRuns(Now()) && (a.Settle? || a.On?) && NoRuns(script)
      modifies this, lists
      ensures Valid() && Now().stack == old(Now().stack) && Below(old(Now()), Now(), |Now().stack|) && NoRuns(rest)
      ensures Took(old(acts) + [a], acts, script, rest)
      decreases |script|, 2, 1
    {
      rest := script;
      match a
      case Settle(k, args) => if k <= FAIL { rest := Change(k, Fire(args), a, script); } else { Nothing(a, script); }
      case On(k, ids) => if k < 6 { rest := Change(k, Add(Users(ids)), a, script); } else { Nothing(a, script); }
    }

    /** No such method */
    ghost method Nothing(a: Turn<V>, script: seq<Turn<V>>)
      requires Six() && Valid() && Deferreds.Perform(Now(), a) == Now()
      modifies this`acts
      ensures Valid() && Now() == old(Now()) && Below(Now(), Now(), |Now().stack|)
      ensures acts == old(acts) + [a] && Took(acts, acts, script, script)
    {
      InvAlways(acts);
      BelowItself(Now(), |Now().stack|);
      TookNothing(acts + [a], script);
      ExecOneMore(acts, a);
      hide *;
      acts := acts + [a];
    }

    method Change(k: nat, op: Op<Fn, V>, ghost a: Turn<V>, script: seq<Turn<V>>) returns (rest: seq<Turn<V>>)
      requires Six() && Valid() && UserRuns(Now()) && k < 6 && !op.Remove? && NoRuns(script)
      requires var d, d' := Deferreds.Operate(Now(), k, op), Deferreds.Perform(Now(), a);
               d'.lists == d.lists && d'.stack == d.stack && d'.phase == d.phase
      modifies this, lists
      ensures Valid() && Now().stack == old(Now().stack) && Below(old(Now()), Now(), |Now().stack|) && NoRuns(rest)
      ensures Took(old(acts) + [a], acts, script, rest)
      decreases |script|, 2, 0
    {
      hide *;
      SixMeans();
      ghost var d, e := Now(), Deferreds.Operate(Now(), k, op);
      NowIs();
      UserOperates(acts, k, op, a);
      TookNothing(acts + [a], script);
      NowShowsIt();
      var start := Operate(k, op, d);
      acts := acts + [a];
      ghost var called, d1 := acts, Now();
      NowIs();
      ShowsNow(e);
      rest := script;
      if start {
        RunsIf(k);
        rest := FireAll(k, script);
        NowIs();
        ProgressMeans(called, acts, script, rest, |d.stack|, k);
        BelowThen(d, d1, Now(), |d.stack|, |d.stack|);
      }
    }

    lemma NowShowsIt()
      requires Valid()
      ensures Shows(Now())
    {
    }

    /** A wiring callback works on another list, and may fire the handlers. */
    method CallWiring(k: nat, fn: Fn, args: V, script: seq<Turn<V>>, ghost t: Machine<V>)
      returns (rest: seq<Turn<V>>)
      requires Calls(k, fn, args, t) && WiringOf(k, fn) && NoRuns(script)
      modifies this, lists
      ensures Runs(k) && Now().lists[k].pc.Inner? && NoRuns(rest) && Now().stack == old(Now().stack)
      ensures Progress(old(acts), acts, script, rest, |Now().stack| - 1, k)
      ensures |rest| < |script| || (rest == script && Stayed(old(Now()).lists[k], Now().lists[k]))
      decreases |script|, if k <= FAIL then 1 else 0, 1
    {
      hide *;
      ghost var before := acts;
      CallsMeans(k, fn, args, t);
      SixMeans();
      WiringMeansMain(k, fn);
      rest := RunWiring(k, fn, args, script, t);
      ghost var called, d := acts, Now();
      StillCalling(Deferreds.Exec(before), k, fn, args, t, d);
      RunsIf(k);
      Return(k, false, Deferreds.Run);
      NowIs();
      TookRun(called, rest);
      TookThen(before, called, acts, script, rest, rest);
      CallEnds(before, k, fn, args, t, d, acts, script, rest, false);
    }

    /** The body of a wiring callback, and what it starts. */
    method RunWiring(k: nat, fn: Fn, args: V, script: seq<Turn<V>>, ghost t: Machine<V>)
      returns (rest: seq<Turn<V>>)
      requires Calls(k, fn, args, t) && WiringOf(k, fn) && NoRuns(script)
      modifies this, lists
      ensures Valid() && Six() && Now().stack == old(Now().stack) && NoRuns(rest)
      ensures t.stack == Now().stack && Below(t, Now(), |t.stack|) && Took(old(acts), acts, script, rest)
      ensures |rest| < |script| || (rest == script && |t.lists| == 6 && Now().lists[k] == t.lists[k])
      decreases |script|, if k <= FAIL then 1 else 0, 0
    {
      hide *;
      ghost var before := acts;
      CallsMeans(k, fn, args, t);
      SixMeans();
      WiringStarts(acts, k, fn, args, t, script);
      var start := Work(k, fn, args, t);
      acts := acts + [Deferreds.Run];
      ghost var called, e := acts, Now();
      NowIs();
      ShowsNow(e);
      rest := script;
      if start {
        RunsIf(Handlers(k));
        rest := FireAll(Handlers(k), script);
        NowIs();
        ProgressMeans(called, acts, script, rest, |t.stack|, Handlers(k));
        TookFewer(called, acts, script, rest);
        TookThen(before, called, acts, script, script, rest);
        BelowThen(t, e, Now(), |t.stack|, |t.stack|);
      }
    }

    /** The body of a wiring callback, up to where the handlers may begin to fire. */
    method Work(k: nat, fn: Fn, args: V, ghost d: Machine<V>) returns (start: bool)
      requires Shows(d) && AtRest(d) && AllSane(d) && k < 6 && WiringOf(k, fn)
      modifies this, lists
      ensures acts == old(acts) && Shows(Effect(d, fn, args))
      ensures start <==> Effect(d, fn, args).stack != d.stack
    {
      hide *;
      OpenAt(0, d);
      SixMeans();
      start := false;
      if
      case fn.SetState? =>
        StateSet(d, fn, args);
        phase := fn.phase;
        CloseAt(0, d, Effect(d, fn, args));
      case fn.DisableList? =>
        EffectOperates(d, k, fn, args, Disable);
        start := Operate(fn.k, Disable, d);
      case fn.LockList? =>
        EffectOperates(d, k, fn, args, Lock);
        start := Operate(fn.k, Lock, d);
      case fn.FireHandlers? =>
        EffectOperates(d, k, fn, args, Fire(args));
        start := Operate(fn.k, Fire(args), d);
      case fn.User? =>
        WiringMeansMain(k, fn);
    }

    lemma PhaseIs()
      requires Valid()
      ensures phase == Now().phase
    {
    }

    lemma ListIs(k: nat)
      requires Valid() && k < 6
      ensures |lists| == 6 == |Now().lists|
      ensures lists[k].calls == Now().lists[k].calls && lists[k].added == Now().lists[k].added
    {
    }

    /** A call from outside, with what user code does until all is at rest again */
    method Call(a: Turn<V>, script: seq<Turn<V>>) returns (rest: seq<Turn<V>>)
      requires Six() && Valid() && Now().stack == [] && (a.Settle? || a.On?) && NoRuns(script)
      modifies this, lists
      ensures Valid() && Now().stack == [] && Took(old(acts) + [a], acts, script, rest)
      ensures !old(phase).Pending? ==> phase == old(phase)
    {
      hide Shows, Valid, Deferreds.Exec, NoRuns;
      PhaseIs();
      ghost var before := acts;
      rest := Act(a, script);
      PhaseIs();
      TookOnly(before, a, acts, script, rest);
      StateIsFinal(before, acts[|before|..]);
    }

    /** List k has called all its functions, in the order added, with these arguments. */
    ghost predicate AllCalled(k: nat, args: V)
      reads this, lists
    {
      |lists| == 6 && k < 6 && |lists[k].calls| == |lists[k].added| &&
      CalledInTurn(lists[k].calls, lists[k].added, Event(args, 0))
    }

    /**
     At rest, a settled deferred has called all its winning callbacks and handlers, in the order added, each once and
     with the same arguments, and none of the others.
    */
    lemma CallbacksRunOnce() returns (args: V)
      requires Six() && Valid() && Now().stack == [] && !phase.Pending?
      ensures var (w, loser) := if phase.Resolved? then (DONE, FAIL) else (FAIL, DONE);
              Now().first == Some((w, args)) && AllCalled(w, args) && AllCalled(Handlers(w), args) &&
              lists[loser].calls == [] && lists[Handlers(loser)].calls == []
    {
      hide Deferreds.Exec, Valid, Shows;
      assert acts + [] == acts;
      PhaseIs();
      StateIsFinal(acts, []);
      EachCallbackRunsOnce(acts);
      args := Now().first.value.1;
      forall k | 0 <= k < 6
        ensures lists[k].calls == Now().lists[k].calls && lists[k].added == Now().lists[k].added
      {
        ListIs(k);
      }
    }

    lemma HistoryIs(k: nat)
      requires Valid() && k < 6
      ensures |lists| == 6 == |Now().lists|
      ensures lists[k].births == Now().lists[k].births && lists[k].sent == Now().lists[k].sent
      ensures lists[k].calls == Now().lists[k].calls && lists[k].added == Now().lists[k].added
    {
    }

    /**
     At rest the progress handlers have been sent what the progress list has passed on, all it took while the deferred
     is pending, and every progress callback and handler has been called with it from its registration on.
    */
    lemma NotificationsCame()
      requires Six() && Valid() && Now().stack == []
      ensures |lists| == 6
      ensures var (p, h) := (lists[PROGRESS], lists[Handlers(PROGRESS)]);
              && h.sent <= p.sent && (phase.Pending? ==> h.sent == p.sent)
              && |p.births| == |p.added| && |h.births| == |h.added|
              && (forall id: nat {:trigger CallsTo(p.calls, id)} :: id < |p.added| ==>
                    CallsTo(p.calls, id) == Range(p.births[id], |h.sent|))
              && (forall id: nat {:trigger CallsTo(h.calls, id)} :: id < |h.added| ==>
                    CallsTo(h.calls, id) == Range(h.births[id], |h.sent|))
              && (forall c :: c in p.calls ==> c.id < |p.added| && c.fn == p.added[c.id] && EventOk(p.sent, c.event))
              && (forall c :: c in h.calls ==> c.id < |h.added| && c.fn == h.added[c.id] && EventOk(h.sent, c.event))
    {
      HistoryIs(PROGRESS);
      HistoryIs(Handlers(PROGRESS));
      PhaseIs();
      assert acts + [] == acts && Now() == Deferreds.Exec(acts);
      hide *;
      StateIsFinal(acts, []);
      NotificationsArrive(acts);
    }
  }
}
