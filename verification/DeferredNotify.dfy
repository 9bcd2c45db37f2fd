/**
 What a deferred has accepted, and what came of it to the callbacks of progress.
*/
module DeferredNotices {
  import opened Lists
  import opened Callbacks
  import opened Deferreds
  import opened DeferredSteps
  import opened NotifyLists

  // ---------------------------------------------------------------- what a deferred has accepted

  /** What has been accepted and registered stays; without notifyWith, resolveWith or rejectWith nothing new is. */
  ghost predicate Keeps<V>(d: Deferred<V>, d': Deferred<V>, a: Turn<V>) {
    && |d.lists| == 6 == |d'.lists|
    && (forall k :: 0 <= k < 6 ==> d.lists[k].added <= d'.lists[k].added)
    && (!a.Settle? ==> d'.first == d.first && d'.lists[PROGRESS].sent == d.lists[PROGRESS].sent)
    && (d.first.Some? ==> d'.first == d.first)
    && (d'.first.None? && !d.lists[PROGRESS].locked ==> !d'.lists[PROGRESS].locked)
  }

  /** One list goes on. */
  lemma OneListKeeps<V>(d: Deferred<V>, d': Deferred<V>, k: nat, a: Turn<V>)
    requires |d.lists| == 6 == |d'.lists| && k < 6 && d'.lists == d.lists[k := d'.lists[k]] && d'.first == d.first
    requires d.lists[k].added <= d'.lists[k].added
    requires k == PROGRESS ==> d'.lists[k].sent == d.lists[k].sent
    requires k == PROGRESS && d.first.None? ==> d'.lists[k].locked == d.lists[k].locked
    ensures Keeps(d, d', a)
  {
  }

  lemma SameKeeps<V>(d: Deferred<V>, a: Turn<V>)
    requires |d.lists| == 6
    ensures Keeps(d, d, a)
  {
  }

  lemma OptionsAt<V>(d: Deferred<V>, k: nat)
    requires Inv(d) && k < 6
    ensures |d.lists| == 6 && d.lists[k].opts == OptionsOf(k) && Wired(d.lists[k], k)
  {
    assert Wired(d.lists[k], k);
    hide StackOk, Course, Backed, WiredFirst;
  }

  lemma AddGrows<F, V>(s: State<F, V>, fns: seq<F>)
    requires !s.opts.unique
    ensures var s' := AddFns(s, fns);
            s.added <= s'.added && s'.sent == s.sent && (s.opts.once || (s'.locked <==> s.locked))
  {
    if s.live { Added(s, fns); }
    hide AddFns;
  }

  lemma OnKeepsIt<V>(d: Deferred<V>, k: nat, ids: seq<nat>)
    requires Inv(d)
    ensures Keeps(d, Perform(d, On(k, ids)), On(k, ids))
  {
    hide Inv, AddFns, Wired, UserRuns, Keeps, Users;
    OptionsAt(d, if k < 6 then k else 0);
    if k < 6 && UserRuns(d) {
      AddGrows(d.lists[k], Users(ids));
      OneListKeeps(d, Perform(d, Act<V>.On(k, ids)), k, On(k, ids));
    } else {
      SameKeeps(d, On(k, ids));
    }
  }

  lemma SettleKeepsIt<V>(d: Deferred<V>, k: nat, args: V)
    requires Inv(d)
    ensures Keeps(d, Perform(d, Settle(k, args)), Settle(k, args))
  {
    hide Inv, Wired, UserRuns;
    OptionsAt(d, PROGRESS);
  }

  lemma LeaveKeepsIt<V>(d: Deferred<V>, isFalse: bool)
    requires Inv(d)
    ensures Keeps(d, Perform(d, Leave(isFalse)), Deferreds.Leave(isFalse))
  {
    hide Inv, UserRuns, Keeps, Wired;
    OptionsAt(d, 0);
    if d.stack != [] && UserRuns(d) {
      StackInRange(d);
      OneListKeeps(d, Perform(d, Act<V>.Leave(isFalse)), Top(d), Deferreds.Leave(isFalse));
    } else {
      SameKeeps(d, Deferreds.Leave(isFalse));
    }
  }

  lemma TickKeepsIt<V>(s: State<Fn, V>)
    ensures TickOf(s).added == s.added && TickOf(s).sent == s.sent && TickOf(s).locked == s.locked
  {
  }

  lemma RunKeepsIt<V>(d: Deferred<V>)
    requires Inv(d)
    ensures Keeps(d, Perform(d, Run), Deferreds.Run)
  {
    hide Inv, Keeps, Wired, TickOf, RunTop;
    OptionsAt(d, 0);
    if d.stack == [] {
      SameKeeps(d, Deferreds.Run);
    } else {
      StackInRange(d);
      RunTopKeeps(d);
    }
  }

  lemma RunTopReturns<V>(d: Deferred<V>)
    requires d.stack != [] && Top(d) < |d.lists| == 6 && d.lists[Top(d)].pc.InCall?
    ensures var s, s' := d.lists[Top(d)], RunTop(d).lists[Top(d)];
            RunTop(d).lists == d.lists[Top(d) := s'] && RunTop(d).first == d.first && s'.added == s.added &&
            s'.sent == s.sent && s'.locked == s.locked
  {
    hide TickOf, Effect;
  }

  /** The running list's next call is of the user's or of its own wiring. */
  lemma CalledWiring<V>(d: Deferred<V>)
    requires Inv(d) && d.stack != [] && !d.lists[Top(d)].pc.InCall? && TickOf(d.lists[Top(d)]).pc.InCall?
    ensures var k, s' := Top(d), TickOf(d.lists[Top(d)]);
            && (d.first.None? ==> k == PROGRESS || k == Handlers(PROGRESS))
            && s'.memory.Some? && Callee(s').Some?
            && (Callee(s').value.User? || exists n :: 0 <= n < |Wiring(k)| && Callee(s').value == Wiring(k)[n])
  {
    TopIsRunning(d);
    WhoRuns(d);
    OtherCallee(d.lists[Top(d)], Top(d));
    hide *;
  }

  lemma EffectKeepsIt<V>(d: Deferred<V>, k: nat, fn: Fn, args: V)
    requires |d.lists| == 6 && (d.first.None? ==> k == PROGRESS || k == Handlers(PROGRESS))
    requires fn.User? || exists n :: 0 <= n < |Wiring(k)| && fn == Wiring(k)[n]
    ensures Keeps(d, Effect(d, fn, args), Deferreds.Run)
  {
    hide Keeps, Operate;
    SameKeeps(d, Deferreds.Run);
    EffectKeepsFirst(d, fn, args);
    match fn
    case SetState(phase) => OneListKeeps(d, d.(phase := phase), 0, Deferreds.Run);
    case DisableList(j) => OperateIs(d, j, Disable); OneListKeeps(d, Operate(d, j, Disable), j, Deferreds.Run);
    case LockList(j) => OperateIs(d, j, Lock); OneListKeeps(d, Operate(d, j, Lock), j, Deferreds.Run);
    case FireHandlers(j) => OperateIs(d, j, Fire(args)); OneListKeeps(d, Operate(d, j, Fire(args)), j, Deferreds.Run);
    case User(_) =>
  }

  lemma KeepsThen<V>(d: Deferred<V>, d': Deferred<V>, d'': Deferred<V>, a: Turn<V>)
    requires Keeps(d, d', a) && Keeps(d', d'', a)
    ensures Keeps(d, d'', a)
  {
  }

  lemma RunTopKeeps<V>(d: Deferred<V>)
    requires Inv(d) && d.stack != [] && Top(d) < |d.lists| == 6
    ensures Keeps(d, RunTop(d), Deferreds.Run)
  {
    hide Inv, Keeps, Wired, TickOf, RunTop, Effect, Callee;
    var k, s := Top(d), d.lists[Top(d)];
    TickKeepsIt(s);
    if s.pc.InCall? {
      RunTopReturns(d);
      OneListKeeps(d, RunTop(d), k, Deferreds.Run);
    } else {
      RunTopIs(d);
      assert Ticked(d).lists == d.lists[k := TickOf(s)] && Ticked(d).first == d.first;
      OneListKeeps(d, Ticked(d), k, Deferreds.Run);
      if TickOf(s).pc.InCall? && TickOf(s).memory.Some? && Callee(TickOf(s)).Some? {
        CalledWiring(d);
        EffectKeepsIt(Ticked(d), k, Callee(TickOf(s)).value, TickOf(s).memory.value.args);
        KeepsThen(d, Ticked(d), RunTop(d), Deferreds.Run);
      }
    }
  }

  lemma PerformKeepsIt<V>(d: Deferred<V>, a: Turn<V>)
    requires Inv(d)
    ensures Keeps(d, Perform(d, a), a)
  {
    match a
    case Settle(k, args) => SettleKeepsIt(d, k, args); hide *;
    case On(k, ids) => OnKeepsIt(d, k, ids); hide *;
    case Run => RunKeepsIt(d); hide *;
    case Leave(isFalse) => LeaveKeepsIt(d, isFalse); hide *;
  }

  /** User code that only adds callbacks: what the derived deferred's promise lets it do. */
  ghost predicate Listens<V>(turns: seq<Turn<V>>) {
    forall a :: a in turns ==> !a.Settle?
  }

  /** What a run of moves, without any of those that settle or notify if `quiet`, comes to. */
  ghost predicate GoesOn<V>(d: Deferred<V>, d': Deferred<V>, quiet: bool) {
    && |d.lists| == 6 == |d'.lists|
    && (forall k :: 0 <= k < 6 ==> d.lists[k].added <= d'.lists[k].added)
    && (d.first.Some? ==> d'.first == d.first)
    && (quiet ==> d'.first == d.first && d'.lists[PROGRESS].sent == d.lists[PROGRESS].sent)
  }

  lemma GoesOnThen<V>(d: Deferred<V>, d': Deferred<V>, d'': Deferred<V>, a: Turn<V>, quiet: bool)
    requires GoesOn(d, d', quiet) && Keeps(d', d'', a) && (quiet ==> !a.Settle?)
    ensures GoesOn(d, d'', quiet)
  {
  }

  lemma ListensSplit<V>(more: seq<Turn<V>>)
    requires more != [] && Listens(more)
    ensures Listens(more[..|more| - 1]) && !more[|more| - 1].Settle?
  {
  }

  /** What is registered stays so, and where user code only listens, nothing new is accepted. */
  lemma {:induction false} ListeningKeeps<V>(acts: seq<Turn<V>>, more: seq<Turn<V>>)
    ensures GoesOn(Deferreds.Exec(acts), Deferreds.Exec(acts + more), Listens(more))
  {
    ConcatLast(acts, more);
    if more == [] {
      hide Deferreds.Exec;
    } else {
      hide *;
      var n := |more| - 1;
      var d, d' := Deferreds.Exec(acts), Deferreds.Exec(acts + more[..n]);
      ListeningKeeps(acts, more[..n]);
      InvAlways(acts + more[..n]);
      PerformKeepsIt(d', more[n]);
      ExecOneMore(acts + more[..n], more[n]);
      assert acts + more[..n] + [more[n]] == acts + more;
      if Listens(more) {
        ListensSplit(more);
        GoesOnThen(d, d', Deferreds.Exec(acts + more), more[n], true);
      } else {
        Less(d, d', Listens(more[..n]));
        GoesOnThen(d, d', Deferreds.Exec(acts + more), more[n], false);
      }
    }
  }

  lemma Less<V>(d: Deferred<V>, d': Deferred<V>, quiet: bool)
    requires GoesOn(d, d', quiet)
    ensures GoesOn(d, d', false)
  {
  }

  /** Notifications are accepted as long as nobody has resolved or rejected. */
  lemma {:induction false} NotifiedUntilSettled<V>(acts: seq<Turn<V>>)
    ensures Deferreds.Exec(acts).first.None? ==> !Deferreds.Exec(acts).lists[PROGRESS].locked
  {
    if acts == [] {
      CreatedLists<V>();
      AddGrows(Fresh<Fn, V>(OptionsOf(PROGRESS)), Wiring(PROGRESS));
    } else {
      var n := |acts| - 1;
      NotifiedUntilSettled(acts[..n]);
      InvAlways(acts[..n]);
      PerformKeepsIt(Deferreds.Exec(acts[..n]), acts[n]);
    }
  }

  // ---------------------------------------------------------------- what the progress list passes on

  /** The progress list has called its first callback, which fires the handlers, with what these have been sent. */
  ghost predicate PassedOn<V>(p: State<Fn, V>, h: State<Fn, V>) {
    && |p.births| > 0 && p.births[0] == 0 && |CallsTo(p.calls, 0)| <= |p.sent|
    && h.sent == p.sent[..|CallsTo(p.calls, 0)|]
  }

  ghost predicate Heard<V>(d: Deferred<V>) {
    && |d.lists| == 6 && Ok(d.lists[PROGRESS]) && Ok(d.lists[Handlers(PROGRESS)]) && !d.lists[Handlers(PROGRESS)].locked
    && PassedOn(d.lists[PROGRESS], d.lists[Handlers(PROGRESS)])
  }

  lemma HeardStill<V>(d: Deferred<V>, d': Deferred<V>)
    requires Heard(d) && |d'.lists| == 6
    requires d'.lists[PROGRESS] == d.lists[PROGRESS] && d'.lists[Handlers(PROGRESS)] == d.lists[Handlers(PROGRESS)]
    ensures Heard(d')
  {
    hide Ok, PassedOn;
  }

  /** What an operation on the progress list leaves alone. */
  lemma HeardWithList<V>(d: Deferred<V>, d': Deferred<V>, p: State<Fn, V>)
    requires Heard(d) && d'.lists == d.lists[PROGRESS := p] && Ok(p)
    requires p.calls == d.lists[PROGRESS].calls
    requires d.lists[PROGRESS].births <= p.births && d.lists[PROGRESS].sent <= p.sent
    ensures Heard(d')
  {
    hide Ok;
  }

  lemma HeardWithHandlers<V>(d: Deferred<V>, d': Deferred<V>, h: State<Fn, V>)
    requires Heard(d) && d'.lists == d.lists[Handlers(PROGRESS) := h] && Ok(h)
    requires h.locked == d.lists[Handlers(PROGRESS)].locked && h.sent == d.lists[Handlers(PROGRESS)].sent
    ensures Heard(d')
  {
    hide Ok;
  }

  lemma HeardIs<V>(d: Deferred<V>)
    requires Heard(d)
    ensures |d.lists| == 6 && Ok(d.lists[PROGRESS]) && Ok(d.lists[Handlers(PROGRESS)])
    ensures !d.lists[Handlers(PROGRESS)].locked && PassedOn(d.lists[PROGRESS], d.lists[Handlers(PROGRESS)])
  {
    hide Ok, PassedOn;
  }

  lemma ResolvePasses<V>(d: Deferred<V>, k: nat, args: V)
    requires Inv(d) && Heard(d)
    ensures Heard(Perform(d, Settle(k, args)))
  {
    hide Inv, UserRuns, Heard, Ok, PassedOn;
    HeardIs(d);
    var d' := Perform(d, Act<V>.Settle(k, args));
    if k <= FAIL && UserRuns(d) {
      RestsAt(d, k);
      if k == PROGRESS {
        FireOk(d.lists[PROGRESS], args);
        HeardWithList(d, d', Apply(d.lists[PROGRESS], Op<Fn, V>.Fire(args)));
      } else {
        HeardStill(d, d');
      }
    }
  }

  lemma RestsAt<V>(d: Deferred<V>, k: nat)
    requires Inv(d) && UserRuns(d) && k < 6
    ensures |d.lists| == 6 && (d.lists[k].pc.Idle? || d.lists[k].pc.InCall?)
  {
    hide AllWired, Course, AtRest;
    UsersAtRest(d);
    AllAtRest(d, k);
  }

  lemma AddsPass<V>(d: Deferred<V>, k: nat, ids: seq<nat>)
    requires Inv(d) && Heard(d)
    ensures Heard(Perform(d, On(k, ids)))
  {
    hide Inv, UserRuns, Heard, Ok, PassedOn, AddFns, Users;
    HeardIs(d);
    var d' := Perform(d, Act<V>.On(k, ids));
    if k < 6 && UserRuns(d) {
      RestsAt(d, k);
      OptionsAt(d, k);
      AddedIs(d.lists[k], Users(ids));
      if k == PROGRESS {
        AddOk(d.lists[PROGRESS], Users(ids));
        HeardWithList(d, d', AddFns(d.lists[PROGRESS], Users(ids)));
      } else if k == Handlers(PROGRESS) {
        AddOk(d.lists[Handlers(PROGRESS)], Users(ids));
        HeardWithHandlers(d, d', AddFns(d.lists[Handlers(PROGRESS)], Users(ids)));
      } else {
        HeardStill(d, d');
      }
    }
  }

  lemma AddedIs<V>(s: State<Fn, V>, fns: seq<Fn>)
    requires !s.opts.unique
    ensures var s' := AddFns(s, fns);
            s'.calls == s.calls && s.births <= s'.births && s'.sent == s.sent &&
            (!s.opts.once ==> s'.locked == s.locked)
  {
    if s.live { Added(s, fns); }
    hide AddFns;
  }

  lemma LeavePasses<V>(d: Deferred<V>, isFalse: bool)
    requires Inv(d) && Heard(d)
    ensures Heard(Perform(d, Leave(isFalse)))
  {
    hide Inv, Heard, Ok, PassedOn;
    HeardIs(d);
    if d.stack != [] && UserRuns(d) {
      StackInRange(d);
      hide UserRuns, Callee;
      BackPasses(d, Perform(d, Act<V>.Leave(isFalse)), isFalse);
    }
  }

  lemma BackPasses<V>(d: Deferred<V>, d': Deferred<V>, isFalse: bool)
    requires Heard(d) && d.stack != [] && Top(d) < |d.lists| == 6 && d.lists[Top(d)].pc.InCall?
    requires d'.lists == d.lists[Top(d) := ReturnOf(d.lists[Top(d)], isFalse)]
    ensures Heard(d')
  {
    hide Heard, Ok, PassedOn;
    HeardIs(d);
    var k, s' := Top(d), ReturnOf(d.lists[Top(d)], isFalse);
    if k == PROGRESS {
      ReturnOk(d.lists[k], isFalse);
      HeardWithList(d, d', s');
    } else if k == Handlers(PROGRESS) {
      ReturnOk(d.lists[k], isFalse);
      HeardWithHandlers(d, d', s');
    } else {
      HeardStill(d, d');
    }
  }

  // the running list

  /** The progress list's next call of its first callback is with the value after those passed on. */
  lemma NextPassed<V>(p: State<Fn, V>)
    requires Ok(p) && p.pc.Inner? && TickOf(p).pc.InCall? && |p.births| > 0 && p.births[0] == 0
    ensures var s', n := TickOf(p), |CallsTo(p.calls, 0)|;
            && s'.memory.Some? && s'.calls != [] && n <= |CallsTo(s'.calls, 0)|
            && s'.sent == p.sent && s'.births == p.births
            && var c := s'.calls[|s'.calls| - 1];
               if c.id == 0 then n < |p.sent| && s'.memory.value.args == p.sent[n] && |CallsTo(s'.calls, 0)| == n + 1
               else |CallsTo(s'.calls, 0)| == n
  {
    hide *;
    CallAdds(p);
    InnerOk(p);
    var s' := TickOf(p);
    var c := s'.calls[|s'.calls| - 1];
    CalledIsLive(s');
    CallsToMore(p.calls, c, 0);
    FirstInOrder(s');
    if c.id == 0 { LastOfRange(CallsTo(p.calls, 0), c.event.serial); }
  }

  lemma CallAdds<V>(p: State<Fn, V>)
    requires p.pc.Inner? && TickOf(p).pc.InCall?
    ensures var s' := TickOf(p);
            s'.calls != [] && s'.memory == p.memory && p.memory.Some? && s'.sent == p.sent && s'.births == p.births &&
            s'.calls == p.calls + [s'.calls[|s'.calls| - 1]] && s'.calls[|s'.calls| - 1].event == p.memory.value
  {
  }

  lemma CalledIsLive<V>(s: State<Fn, V>)
    requires Ok(s) && s.pc.InCall?
    ensures Live(s) && s.memory.Some? && s.memory.value.serial < |s.sent|
    ensures s.memory.value.args == s.sent[s.memory.value.serial]
  {
    hide ListServed, Distinct, CallsOk, Consecutive, Cared, QueueOk;
  }

  lemma LastOfRange(xs: seq<nat>, x: nat)
    requires xs + [x] == Range(0, |xs + [x]|)
    ensures x == |xs|
  {
    assert (xs + [x])[|xs|] == x;
  }

  lemma FirstInOrder<V>(s: State<Fn, V>)
    requires Live(s) && |s.births| > 0 && s.births[0] == 0
    ensures CallsTo(s.calls, 0) == Range(0, |CallsTo(s.calls, 0)|)
  {
    hide ListServed, Distinct, CallsOk, QueueOk, MemoryOk, Cared;
  }

  /** What a stretch of the loops, without a call, leaves heard. */
  lemma PassPasses<V>(d: Deferred<V>, d': Deferred<V>)
    requires Inv(d) && Heard(d) && d.stack != [] && Top(d) < |d.lists| == 6 && !d.lists[Top(d)].pc.InCall?
    requires d'.lists == d.lists[Top(d) := TickOf(d.lists[Top(d)])]
    requires Top(d) != PROGRESS || !TickOf(d.lists[Top(d)]).pc.InCall?
    ensures Heard(d')
  {
    TopIsRunning(d);
    hide Inv, Heard, Ok, PassedOn, TickOf, StackOk, AllWired, Course, Wired;
    HeardIs(d);
    var k, s := Top(d), d.lists[Top(d)];
    assert s.pc.Outer? || s.pc.Inner?;
    TickKeepsIt(s);
    if k == PROGRESS {
      TickIsOk(s);
      NoCallMade(s);
      HeardWithList(d, d', TickOf(s));
    } else if k == Handlers(PROGRESS) {
      TickIsOk(s);
      HeardWithHandlers(d, d', TickOf(s));
    } else {
      HeardStill(d, d');
    }
  }

  lemma TickIsOk<V>(s: State<Fn, V>)
    requires Ok(s) && (s.pc.Outer? || s.pc.Inner?)
    ensures Ok(TickOf(s))
  {
    hide Ok;
    if s.pc.Outer? { OuterOk(s); } else { InnerOk(s); }
  }

  lemma NoCallMade<V>(s: State<Fn, V>)
    requires !s.pc.InCall? && !TickOf(s).pc.InCall?
    ensures TickOf(s).calls == s.calls && TickOf(s).births == s.births
  {
  }

  /** The progress list's first callback is the one that fires the handlers, and no other does. */
  lemma FirstFires<V>(d: Deferred<V>)
    requires Inv(d) && d.stack != [] && Top(d) == PROGRESS && !d.lists[PROGRESS].pc.InCall?
    requires TickOf(d.lists[PROGRESS]).pc.InCall?
    ensures var s' := TickOf(d.lists[PROGRESS]);
            s'.memory.Some? && s'.calls != [] && Callee(s') == Some(s'.calls[|s'.calls| - 1].fn) &&
            var c := s'.calls[|s'.calls| - 1];
            if c.id == 0 then c.fn == FireHandlers(Handlers(PROGRESS)) else c.fn.User?
  {
    TopIsRunning(d);
    var s := d.lists[PROGRESS];
    TickKeepsWiring(s, PROGRESS);
    OtherCallee(s, PROGRESS);
    var s' := TickOf(s);
    assert s'.calls[|s'.calls| - 1] in s'.calls;
    hide Inv, TickOf, StackOk, AllWired, Course;
  }

  lemma PassedMeans<V>(p: State<Fn, V>, h: State<Fn, V>)
    requires PassedOn(p, h)
    ensures |p.births| > 0 && p.births[0] == 0 && |CallsTo(p.calls, 0)| <= |p.sent|
    ensures h.sent == p.sent[..|CallsTo(p.calls, 0)|]
  {
  }

  /** The lists that are not on top of the stack are at rest or inside a call. */
  lemma OthersRest<V>(d: Deferred<V>, k: nat)
    requires Inv(d) && d.stack != [] && Top(d) != k && k < 6
    ensures |d.lists| == 6 && (d.lists[k].pc.Idle? || d.lists[k].pc.InCall?)
  {
    hide AllWired, Course;
    if !d.lists[k].pc.Idle? {
      var i :| 0 <= i < |d.stack| && d.stack[i] == k;
      assert d.stack[i] == k;
    }
  }

  /** One more value for the handlers. */
  lemma HandlersHear<V>(p: State<Fn, V>, p': State<Fn, V>, h: State<Fn, V>, args: V)
    requires PassedOn(p, h) && Ok(h) && !h.locked && (h.pc.Idle? || h.pc.InCall?) && h.opts == MEMORY
    requires p'.births == p.births && p'.sent == p.sent
    requires var n := |CallsTo(p.calls, 0)|; n < |p.sent| && args == p.sent[n] && |CallsTo(p'.calls, 0)| == n + 1
    ensures var h' := Apply(h, Fire(args)); Ok(h') && !h'.locked && PassedOn(p', h')
  {
    FireOk(h, args);
    hide Ok, CallsTo;
    OneMore(p.sent, |CallsTo(p.calls, 0)|);
  }

  lemma CallPasses<V>(d: Deferred<V>)
    requires Inv(d) && Heard(d) && d.stack != [] && Top(d) == PROGRESS && |d.lists| == 6
    requires !d.lists[PROGRESS].pc.InCall? && TickOf(d.lists[PROGRESS]).pc.InCall?
    ensures Heard(RunTop(d))
  {
    var p, h := d.lists[PROGRESS], d.lists[Handlers(PROGRESS)];
    hide Inv, Heard, RunTop, TickOf, AfterCall, Ok, PassedOn;
    HeardIs(d);
    CallShapes(d);
    CallPassed(p, h);
    HeardIf(RunTop(d));
  }

  /** The handlers once the progress list has called a callback: the first one is what fires them. */
  function AfterCall<V>(p: State<Fn, V>, h: State<Fn, V>): State<Fn, V>
    requires p.calls != [] && p.memory.Some?
  {
    if p.calls[|p.calls| - 1].id == 0 then Apply(h, Fire(p.memory.value.args)) else h
  }

  lemma CallPassed<V>(p: State<Fn, V>, h: State<Fn, V>)
    requires Ok(p) && Ok(h) && !h.locked && PassedOn(p, h) && (h.pc.Idle? || h.pc.InCall?) && h.opts == MEMORY
    requires !p.pc.InCall? && TickOf(p).pc.InCall? && TickOf(p).calls != [] && TickOf(p).memory.Some?
    ensures var s', h' := TickOf(p), AfterCall(TickOf(p), h);
            Ok(s') && Ok(h') && !h'.locked && PassedOn(s', h')
  {
    CallsWithin(p);
    hide TickOf, Apply, Ok, PassedOn;
    PassedMeans(p, h);
    NextPassed(p);
    TickIsOk(p);
    var s' := TickOf(p);
    if s'.calls[|s'.calls| - 1].id == 0 { HandlersHear(p, s', h, s'.memory.value.args); } else { SamePassed(p, s', h); }
  }

  lemma CallsWithin<V>(s: State<Fn, V>)
    requires !s.pc.InCall? && TickOf(s).pc.InCall?
    ensures s.pc.Inner?
  {
  }

  /** What becomes of the two lists. */
  lemma CallShapes<V>(d: Deferred<V>)
    requires Inv(d) && d.stack != [] && Top(d) == PROGRESS && |d.lists| == 6
    requires !d.lists[PROGRESS].pc.InCall? && TickOf(d.lists[PROGRESS]).pc.InCall?
    ensures var s', h, d' := TickOf(d.lists[PROGRESS]), d.lists[Handlers(PROGRESS)], RunTop(d);
            && (h.pc.Idle? || h.pc.InCall?) && h.opts == MEMORY && s'.calls != [] && s'.memory.Some?
            && |d'.lists| == 6 && d'.lists[PROGRESS] == s' && d'.lists[Handlers(PROGRESS)] == AfterCall(s', h)
  {
    FirstFires(d);
    RunTopIs(d);
    OthersRest(d, Handlers(PROGRESS));
    OptionsAt(d, Handlers(PROGRESS));
    hide Inv, TickOf, RunTop, Callee, Effect, Apply;
    assert Ticked(d).lists == d.lists[PROGRESS := TickOf(d.lists[PROGRESS])];
    var s' := TickOf(d.lists[PROGRESS]);
    var c := s'.calls[|s'.calls| - 1];
    hide Ticked;
    if c.id == 0 {
      FiresHandlers(Ticked(d), s'.memory.value.args);
    } else {
      UserEffect(Ticked(d), c.fn, s'.memory.value.args);
    }
  }

  lemma FiresHandlers<V>(d: Deferred<V>, args: V)
    requires |d.lists| == 6
    ensures Effect(d, FireHandlers(Handlers(PROGRESS)), args).lists ==
            d.lists[Handlers(PROGRESS) := Apply(d.lists[Handlers(PROGRESS)], Fire(args))]
  {
    hide Apply;
  }

  lemma UserEffect<V>(d: Deferred<V>, fn: Fn, args: V)
    requires fn.User?
    ensures Effect(d, fn, args) == d
  {
  }

  lemma SamePassed<V>(p: State<Fn, V>, p': State<Fn, V>, h: State<Fn, V>)
    requires PassedOn(p, h) && p'.births == p.births && p'.sent == p.sent
    requires |CallsTo(p'.calls, 0)| == |CallsTo(p.calls, 0)|
    ensures PassedOn(p', h)
  {
  }

  lemma HeardIf<V>(d: Deferred<V>)
    requires |d.lists| == 6 && Ok(d.lists[PROGRESS]) && Ok(d.lists[Handlers(PROGRESS)])
    requires !d.lists[Handlers(PROGRESS)].locked && PassedOn(d.lists[PROGRESS], d.lists[Handlers(PROGRESS)])
    ensures Heard(d)
  {
    hide Ok, PassedOn;
  }

  /** The wiring of the other lists locks the progress list at most. */
  lemma WinnerPasses<V>(d: Deferred<V>, k: nat, fn: Fn, args: V)
    requires Heard(d) && (d.lists[PROGRESS].pc.Idle? || d.lists[PROGRESS].pc.InCall?)
    requires fn.User? || (k != PROGRESS && exists n :: 0 <= n < |Wiring(k)| && fn == Wiring(k)[n])
    ensures Heard(Effect(d, fn, args))
  {
    hide Heard, Ok, PassedOn, Operate, Apply;
    HeardIs(d);
    match fn
    case SetState(phase) => HeardStill(d, d.(phase := phase));
    case DisableList(j) => OperateIs(d, j, Disable); HeardStill(d, Operate(d, j, Disable));
    case LockList(j) =>
      OperateIs(d, j, Lock);
      LockOk(d.lists[PROGRESS]);
      LockSends(d.lists[PROGRESS]);
      HeardWithList(d, Operate(d, j, Lock), Apply(d.lists[PROGRESS], Op<Fn, V>.Lock));
    case FireHandlers(j) => OperateIs(d, j, Fire(args)); HeardStill(d, Operate(d, j, Fire(args)));
    case User(_) =>
  }

  lemma LockSends<V>(s: State<Fn, V>)
    ensures var s' := Apply(s, Lock); s'.calls == s.calls && s'.births == s.births && s'.sent == s.sent
  {
  }

  lemma RunPasses<V>(d: Deferred<V>)
    requires Inv(d) && Heard(d) && d.stack != []
    ensures Heard(RunTop(d))
  {
    hide Inv, Heard, Ok, PassedOn, TickOf, RunTop, Ticked, Callee, Effect;
    HeardIs(d);
    StackInRange(d);
    var k, s := Top(d), d.lists[Top(d)];
    if s.pc.InCall? {
      RunTopReturnsTo(d);
      if RunTop(d) != d { BackPasses(d, RunTop(d), false); }
    } else {
      RunTopIs(d);
      TickedIs(d);
      if !TickOf(s).pc.InCall? {
        PassPasses(d, Ticked(d));
      } else if k == PROGRESS {
        CallPasses(d);
      } else {
        PassPasses(d, Ticked(d));
        CalledWiring(d);
        OthersRest(d, PROGRESS);
        WinnerPasses(Ticked(d), k, Callee(TickOf(s)).value, TickOf(s).memory.value.args);
      }
    }
  }

  lemma RunTopReturnsTo<V>(d: Deferred<V>)
    requires d.stack != [] && Top(d) < |d.lists| == 6 && d.lists[Top(d)].pc.InCall?
    ensures RunTop(d) == d || RunTop(d).lists == d.lists[Top(d) := ReturnOf(d.lists[Top(d)], false)]
  {
    hide TickOf, Effect;
  }

  lemma {:induction false} HeardAlways<V>(acts: seq<Turn<V>>)
    ensures Heard(Deferreds.Exec(acts))
  {
    if acts == [] {
      CreatedHears<V>();
    } else {
      var n := |acts| - 1;
      HeardAlways(acts[..n]);
      InvAlways(acts[..n]);
      PerformPasses(Deferreds.Exec(acts[..n]), acts[n]);
      hide Heard, Inv, Perform;
    }
  }

  lemma PerformPasses<V>(d: Deferred<V>, a: Turn<V>)
    requires Inv(d) && Heard(d)
    ensures Heard(Perform(d, a))
  {
    match a
    case Settle(k, args) => ResolvePasses(d, k, args); hide *;
    case On(k, ids) => AddsPass(d, k, ids); hide *;
    case Run => RunIf(d); if d.stack != [] { RunPasses(d); } hide *;
    case Leave(isFalse) => LeavePasses(d, isFalse); hide *;
  }

  lemma RunIf<V>(d: Deferred<V>)
    requires Inv(d)
    ensures Perform(d, Run) == if d.stack != [] then RunTop(d) else d
  {
    if d.stack != [] { StackInRange(d); }
    hide Inv, RunTop;
  }

  lemma CreatedHears<V>()
    ensures Heard(Create<V>())
  {
    CreatedLists<V>();
    hide Create;
    FreshOk<V>(Wiring(PROGRESS));
    FreshOk<V>(Wiring(Handlers(PROGRESS)));
    hide Ok, AddFns;
  }

  lemma FreshOk<V>(fns: seq<Fn>)
    ensures var s := AddFns(Fresh<Fn, V>(MEMORY), fns);
            && Ok(s) && !s.locked && s.calls == [] && s.sent == [] && |s.births| == |fns|
            && forall id :: 0 <= id < |s.births| ==> s.births[id] == 0
  {
    Added(Fresh<Fn, V>(MEMORY), fns);
    hide Ok, AddFns;
    FreshListOk<V>();
    AddOk(Fresh<Fn, V>(MEMORY), fns);
  }

  lemma FreshListOk<V>()
    ensures Ok(Fresh<Fn, V>(MEMORY))
  {
    GapFreeAlways<Fn, V>([]);
    hide GapFree;
  }

  // ---------------------------------------------------------------- at rest

  lemma IdleAtRest<V>(d: Deferred<V>, k: nat)
    requires Inv(d) && d.stack == [] && k < 6
    ensures |d.lists| == 6 && d.lists[k].pc.Idle?
  {
    hide AllWired, Course;
  }

  lemma RangeLength(a: nat, b: nat)
    ensures |Range(a, b)| == if a <= b then b - a else 0
  {
  }

  /**
   Gap-free delivery of notifications, in every interleaving: at rest the progress handlers have been sent what the
   progress list has passed on, which is all it accepted as long as nothing was resolved or rejected; and each progress
   callback and each handler has been called with exactly these values from its registration on, once and in order.
  */
  lemma NotificationsArrive<V>(acts: seq<Turn<V>>)
    requires Deferreds.Exec(acts).stack == []
    ensures var d := Deferreds.Exec(acts);
            var (p, h) := (d.lists[PROGRESS], d.lists[Handlers(PROGRESS)]);
            && h.sent <= p.sent && (d.first.None? ==> h.sent == p.sent)
            && |p.births| == |p.added| && |h.births| == |h.added|
            && (forall id: nat {:trigger CallsTo(p.calls, id)} :: id < |p.added| ==>
                  CallsTo(p.calls, id) == Range(p.births[id], |h.sent|))
            && (forall id: nat {:trigger CallsTo(h.calls, id)} :: id < |h.added| ==>
                  CallsTo(h.calls, id) == Range(h.births[id], |h.sent|))
            && (forall c :: c in p.calls ==> c.id < |p.added| && c.fn == p.added[c.id] && EventOk(p.sent, c.event))
            && (forall c :: c in h.calls ==> c.id < |h.added| && c.fn == h.added[c.id] && EventOk(h.sent, c.event))
  {
    var d := Deferreds.Exec(acts);
    var p, h := d.lists[PROGRESS], d.lists[Handlers(PROGRESS)];
    assert Handlers(PROGRESS) < 6;
    hide Deferreds.Exec, Inv, Heard, Ok, PassedOn, CallsTo, Range, Delivered;
    InvAlways(acts);
    HeardAlways(acts);
    NotifiedUntilSettled(acts);
    HeardIs(d);
    PassedMeans(p, h);
    IdleAtRest(d, PROGRESS);
    IdleAtRest(d, Handlers(PROGRESS));
    RestDelivers(p);
    RestDelivers(h);
    assert CallsTo(p.calls, 0) == Range(0, Delivered(p));
    RangeLength(0, Delivered(p));
  }

  // what the lock drops

  lemma DeliveredStays<V>(d: Deferred<V>, a: Turn<V>)
    requires Inv(d) && Heard(d) && d.first.Some?
    ensures var d' := Perform(d, a);
            |d'.lists| == 6 == |d.lists| && d'.first == d.first && d'.lists[PROGRESS].sent == d.lists[PROGRESS].sent &&
            Delivered(d'.lists[PROGRESS]) == Delivered(d.lists[PROGRESS])
  {
    hide Inv, Heard, Ok, PassedOn, UserRuns, AddFns, Users, Keeps, Delivered, RunTop;
    HeardIs(d);
    PerformKeepsIt(d, a);
    KeepsMeans(d, Perform(d, a), a);
    match a
    case Settle(k, args) => if k <= FAIL && UserRuns(d) { LateSettleIsIgnored(d, k, args); }
    case On(k, ids) =>
      if k < 6 && UserRuns(d) {
        RestsAt(d, k);
        AddedAt(d, k, ids);
        if k == PROGRESS { AddOk(d.lists[PROGRESS], Users(ids)); }
      }
    case Run =>
      RunIf(d);
      if d.stack != [] { RunDelivers(d); }
    case Leave(isFalse) =>
      if d.stack != [] && UserRuns(d) { LeaveAt(d, isFalse); }
  }

  lemma KeepsMeans<V>(d: Deferred<V>, d': Deferred<V>, a: Turn<V>)
    requires Keeps(d, d', a)
    ensures |d.lists| == 6 == |d'.lists| && (d.first.Some? ==> d'.first == d.first)
    ensures !a.Settle? ==> d'.lists[PROGRESS].sent == d.lists[PROGRESS].sent
  {
  }

  lemma AddedAt<V>(d: Deferred<V>, k: nat, ids: seq<nat>)
    requires UserRuns(d) && k < |d.lists|
    ensures Perform(d, On(k, ids)).lists == d.lists[k := AddFns(d.lists[k], Users(ids))]
  {
    hide AddFns, Users, UserRuns;
  }

  lemma LeaveAt<V>(d: Deferred<V>, isFalse: bool)
    requires Inv(d) && Heard(d) && UserRuns(d) && d.stack != []
    ensures |Perform(d, Leave(isFalse)).lists| == 6 == |d.lists|
    ensures Delivered(Perform(d, Leave(isFalse)).lists[PROGRESS]) == Delivered(d.lists[PROGRESS])
  {
    LeaveIs(d, isFalse);
    hide Inv, Heard, Ok, PassedOn, ReturnOf, Delivered, UserRuns, Perform;
    HeardIs(d);
    if Top(d) == PROGRESS { ReturnOk(d.lists[PROGRESS], isFalse); }
  }

  lemma LeaveIs<V>(d: Deferred<V>, isFalse: bool)
    requires Inv(d) && UserRuns(d) && d.stack != []
    ensures Top(d) < |d.lists| && d.lists[Top(d)].pc.InCall?
    ensures Perform(d, Leave(isFalse)).lists == d.lists[Top(d) := ReturnOf(d.lists[Top(d)], isFalse)]
  {
    StackInRange(d);
    hide *;
    UserIsCalled(d);
    LeavesTop(d, isFalse);
  }

  lemma UserIsCalled<V>(d: Deferred<V>)
    requires UserRuns(d) && d.stack != [] && Top(d) < |d.lists|
    ensures d.lists[Top(d)].pc.InCall?
  {
  }

  lemma LeavesTop<V>(d: Deferred<V>, isFalse: bool)
    requires UserRuns(d) && d.stack != [] && Top(d) < |d.lists| && d.lists[Top(d)].pc.InCall?
    ensures Perform(d, Leave(isFalse)).lists == d.lists[Top(d) := ReturnOf(d.lists[Top(d)], isFalse)]
  {
    hide UserRuns, ReturnOf;
  }

  /** Once something has been resolved or rejected, the progress list runs locked. */
  lemma RunsLocked<V>(d: Deferred<V>)
    requires Inv(d) && d.first.Some? && d.stack != [] && Top(d) == PROGRESS
    ensures |d.lists| == 6 && d.lists[PROGRESS].locked
  {
    OptionsAt(d, PROGRESS);
    hide StackOk, AllWired, OnceOk, Dead, Wired;
  }

  lemma RunDelivers<V>(d: Deferred<V>)
    requires Inv(d) && Heard(d) && d.first.Some? && d.stack != []
    ensures |RunTop(d).lists| == 6 == |d.lists|
    ensures Delivered(RunTop(d).lists[PROGRESS]) == Delivered(d.lists[PROGRESS])
  {
    hide Inv, Heard, Ok, PassedOn, TickOf, RunTop, Ticked, Callee, Effect, Delivered, ReturnOf;
    HeardIs(d);
    StackInRange(d);
    var k, s := Top(d), d.lists[Top(d)];
    if s.pc.InCall? {
      RunTopReturnsTo(d);
      if k == PROGRESS { ReturnOk(s, false); }
    } else {
      RunTopIs(d);
      TickedIs(d);
      TopRuns(d);
      if k == PROGRESS {
        RunsLocked(d);
        if s.pc.Outer? { OuterOk(s); } else { InnerOk(s); }
      }
      if TickOf(s).pc.InCall? {
        CalledWiring(d);
        if k == PROGRESS { FirstFires(d); } else { OthersRest(d, PROGRESS); }
        EffectDelivers(Ticked(d), k, Callee(TickOf(s)).value, TickOf(s).memory.value.args);
      }
    }
  }

  lemma TopRuns<V>(d: Deferred<V>)
    requires Inv(d) && d.stack != []
    ensures !d.lists[Top(d)].pc.Idle?
  {
    TopIsRunning(d);
    hide Inv, Wired;
  }

  lemma EffectDelivers<V>(d: Deferred<V>, k: nat, fn: Fn, args: V)
    requires |d.lists| == 6 && Ok(d.lists[PROGRESS])
    requires k == PROGRESS || d.lists[PROGRESS].pc.Idle? || d.lists[PROGRESS].pc.InCall?
    requires fn.User? || exists n :: 0 <= n < |Wiring(k)| && fn == Wiring(k)[n]
    ensures Delivered(Effect(d, fn, args).lists[PROGRESS]) == Delivered(d.lists[PROGRESS])
  {
    hide Ok, Delivered, Operate, Apply;
    match fn
    case SetState(_) =>
    case DisableList(j) => OperateIs(d, j, Disable);
    case LockList(j) => OperateIs(d, j, Lock); LockOk(d.lists[PROGRESS]);
    case FireHandlers(j) => OperateIs(d, j, Fire(args));
    case User(_) =>
  }

  lemma {:induction false} StaysDelivered<V>(acts: seq<Turn<V>>, more: seq<Turn<V>>)
    requires Deferreds.Exec(acts).first.Some?
    ensures var d, d' := Deferreds.Exec(acts), Deferreds.Exec(acts + more);
            d'.first == d.first && d'.lists[PROGRESS].sent == d.lists[PROGRESS].sent &&
            Delivered(d'.lists[PROGRESS]) == Delivered(d.lists[PROGRESS])
  {
    ConcatLast(acts, more);
    hide Deferreds.Exec, Perform, Inv, Heard, Delivered;
    if more != [] {
      var n := |more| - 1;
      StaysDelivered(acts, more[..n]);
      InvAlways(acts + more[..n]);
      HeardAlways(acts + more[..n]);
      DeliveredStays(Deferreds.Exec(acts + more[..n]), more[n]);
      ExecOneMore(acts + more[..n], more[n]);
      assert acts + more[..n] + [more[n]] == acts + more;
    }
  }

  lemma QueueCounts<V>(s: State<Fn, V>)
    requires Ok(s) && !s.locked && (s.pc.Idle? || s.pc.InCall?)
    ensures Delivered(s) + |s.queue| == |s.sent|
  {
    hide ListServed, Distinct, CallsOk, Consecutive, Cared, InOrder;
  }

  /**
   The first resolve or reject drops the notifications that wait then, as they do if they were made inside a progress
   callback, and no others: the handlers are sent all that was accepted exactly if none waits.
  */
  lemma ResolveDropsWaiting<V>(acts: seq<Turn<V>>, k: nat, args: V, more: seq<Turn<V>>)
    requires (k == DONE || k == FAIL) && UserRuns(Deferreds.Exec(acts)) && Deferreds.Exec(acts).first.None?
    requires Deferreds.Exec(acts + [Deferreds.Settle(k, args)] + more).stack == []
    ensures var d, d' := Deferreds.Exec(acts), Deferreds.Exec(acts + [Deferreds.Settle(k, args)] + more);
            && d'.lists[PROGRESS].sent == d.lists[PROGRESS].sent
            && |d'.lists[Handlers(PROGRESS)].sent| + |d.lists[PROGRESS].queue| == |d.lists[PROGRESS].sent|
  {
    var d, acts' := Deferreds.Exec(acts), acts + [Deferreds.Settle(k, args)];
    var e := Deferreds.Exec(acts' + more);
    SettleAt(d, k, args);
    assert Handlers(PROGRESS) < 6;
    hide Deferreds.Exec, Perform, Inv, Heard, Ok, PassedOn, CallsTo, Range, Delivered, UserRuns;
    ExecOneMore(acts, Deferreds.Settle(k, args));
    InvAlways(acts);
    HeardAlways(acts);
    HeardIs(d);
    NotifiedUntilSettled(acts);
    RestsAt(d, PROGRESS);
    QueueCounts(d.lists[PROGRESS]);
    StaysDelivered(acts', more);
    InvAlways(acts' + more);
    HeardAlways(acts' + more);
    HeardIs(e);
    PassedMeans(e.lists[PROGRESS], e.lists[Handlers(PROGRESS)]);
    IdleAtRest(e, PROGRESS);
    RestDelivers(e.lists[PROGRESS]);
    assert CallsTo(e.lists[PROGRESS].calls, 0) == Range(0, Delivered(e.lists[PROGRESS]));
    RangeLength(0, Delivered(e.lists[PROGRESS]));
  }

  lemma SettleAt<V>(d: Deferred<V>, k: nat, args: V)
    requires UserRuns(d) && d.first.None? && |d.lists| == 6 && (k == DONE || k == FAIL)
    ensures var d' := Perform(d, Settle(k, args));
            d'.first == Some((k, args)) && |d'.lists| == 6 && d'.lists[PROGRESS] == d.lists[PROGRESS]
  {
    hide UserRuns, Apply;
  }
}
