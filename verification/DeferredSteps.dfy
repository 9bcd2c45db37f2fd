/**
 The deferred machine as an object takes it, one act at a time.  While a callback of one list runs, others may
 fire inside it: what such nested code leaves alone, what it takes from the script that says what user code
 does, and how one call of a list's loops, its callback's work included, reads as acts.
*/
module DeferredSteps {
  import opened Lists
  import opened Callbacks
  import opened CallbackLists
  import opened Deferreds

  // User code is a script of turns: what runs first takes the next one, a call on the deferred or the return from the
  // callback.  At the script's end callbacks return at once.

  type Turn<V> = Deferreds.Act<V>

  type Machine<V> = Deferred<V>

  // ---------------------------------------------------------------- the machine, one act at a time

  lemma ExecOneMore<V>(acts: seq<Turn<V>>, a: Turn<V>)
    ensures Deferreds.Exec(acts + [a]) == Deferreds.Perform(Deferreds.Exec(acts), a)
  {
    assert (acts + [a])[..|acts|] == acts;
  }

  function Created<V>(k: nat): State<Fn, V> {
    AddFns(Fresh(OptionsOf(k)), Wiring(k))
  }

  lemma CreatedLists<V>()
    ensures var d := Create<V>();
            |d.lists| == 6 && d.phase.Pending? && forall k :: 0 <= k < 6 ==> d.lists[k] == Created(k)
  {
    hide AddFns;
  }

  ghost predicate AllSane<V>(d: Machine<V>) {
    forall k :: 0 <= k < |d.lists| ==> Sane(d.lists[k])
  }

  lemma SaneTick<V>(s: State<Fn, V>)
    requires Sane(s)
    ensures Sane(TickOf(s)) && forall isFalse :: s.pc.InCall? ==> Sane(ReturnOf(s, isFalse))
  {
  }

  lemma SaneOperate<V>(d: Machine<V>, k: nat, op: Op<Fn, V>)
    requires AllSane(d) && (k < |d.lists| ==> d.lists[k].pc.Idle? || d.lists[k].pc.InCall?)
    ensures AllSane(Operate(d, k, op))
  {
    hide Sane;
    if k < |d.lists| { SaneApply(d.lists[k], op); }
    hide Apply;
  }

  /** What the running list is about to call. */
  function NextFn<V>(s: State<Fn, V>): Fn
    requires -1 <= s.firingIndex && s.firingIndex + 1 < |s.list|
  {
    s.list[s.firingIndex + 1].fn
  }

  /** A wiring callback works on other lists than its own; the lists of handlers have none. */
  predicate WiringOf(k: nat, fn: Fn) {
    match fn
    case User(_) => false
    case SetState(_) => k == DONE || k == FAIL
    case DisableList(j) => (k == DONE || k == FAIL) && j == DONE + FAIL - k
    case LockList(j) => (k == DONE || k == FAIL) && j == PROGRESS
    case FireHandlers(j) => k <= FAIL && j == Handlers(k)
  }

  lemma NextIsCall<V>(s: State<Fn, V>)
    requires Sane(s) && s.pc.Inner? && s.firingIndex + 1 < |s.list|
    ensures -1 <= s.firingIndex && s.memory.Some? && TickOf(s).pc.InCall? && TickOf(s).memory == s.memory
    ensures Callee(TickOf(s)) == Some(NextFn(s))
  {
    assert TickOf(s).calls[|s.calls|].fn == NextFn(s);
  }

  lemma WiringMeans(k: nat, fn: Fn, n: nat)
    requires k < 6 && n < |Wiring(k)| && fn == Wiring(k)[n]
    ensures WiringOf(k, fn)
  {
  }

  lemma NextIsWired<V>(s: State<Fn, V>, k: nat)
    requires k < 6 && Wired(s, k) && Sane(s) && s.pc.Inner? && s.firingIndex + 1 < |s.list|
    ensures -1 <= s.firingIndex && (NextFn(s).User? || WiringOf(k, NextFn(s)))
  {
    NextIsCall(s);
    OtherCallee(s, k);
    hide Wired, TickOf, Sane, Callee, WiringOf;
    if !NextFn(s).User? {
      var n :| 0 <= n < |Wiring(k)| && NextFn(s) == Wiring(k)[n];
      WiringMeans(k, NextFn(s), n);
    }
  }

  lemma TopIsWired<V>(d: Machine<V>)
    requires Inv(d) && d.stack != []
    ensures StackOk(d) && |d.lists| == 6 && Top(d) < 6 && Wired(d.lists[Top(d)], Top(d)) &&
            !d.lists[Top(d)].pc.Idle? && Running(d) == Some(d.lists[Top(d)])
  {
    TopIsRunning(d);
    hide AllWired, Course, Wired;
  }

  /** The running list, calling. */
  lemma TickedAtRest<V>(d: Machine<V>)
    requires StackOk(d) && d.stack != [] && Top(d) < 6 && !d.lists[Top(d)].pc.InCall?
    requires TickOf(d.lists[Top(d)]).pc.InCall?
    ensures Running(d).Some? && Ticked(d) == d.(lists := d.lists[Top(d) := TickOf(d.lists[Top(d)])]) &&
            AtRest(Ticked(d))
  {
    NoCallKeepsStack(d, TickOf(d.lists[Top(d)]));
    hide StackOk, TickOf;
  }

  lemma NextCall<V>(d: Machine<V>)
    requires Inv(d) && d.stack != [] && Sane(d.lists[Top(d)])
    requires var s := d.lists[Top(d)]; s.pc.Inner? && s.firingIndex + 1 < |s.list|
    ensures var s := d.lists[Top(d)];
            Top(d) < 6 && -1 <= s.firingIndex && s.memory.Some? && (NextFn(s).User? || WiringOf(Top(d), NextFn(s))) &&
            TickOf(s).pc.InCall? && Callee(TickOf(s)) == Some(NextFn(s)) &&
            AtRest(Ticked(d)) && Ticked(d) == d.(lists := d.lists[Top(d) := TickOf(s)]) &&
            RunTop(d) == Effect(Ticked(d), NextFn(s), s.memory.value.args)
  {
    TopIsWired(d);
    hide Inv, StackOk, Wired, TickOf, Sane, Callee, WiringOf, AtRest, Ticked, RunTop, Effect, NextFn;
    var s := d.lists[Top(d)];
    NextIsCall(s);
    NextIsWired(s, Top(d));
    TickedAtRest(d);
    CallShape(d, s.memory.value.args);
  }

  lemma UsersAtRest<V>(d: Machine<V>)
    requires StackOk(d) && UserRuns(d)
    ensures AtRest(d)
  {
  }

  lemma SaneEffect<V>(d: Machine<V>, fn: Fn, args: V)
    requires AllSane(d) && AtRest(d)
    ensures AllSane(Effect(d, fn, args))
  {
    forall k | 0 <= k < 6 ensures d.lists[k].pc.Idle? || d.lists[k].pc.InCall? { AllAtRest(d, k); }
    assert |d.lists| == 6;
    hide AtRest, Operate, Sane;
    match fn
    case SetState(_) =>
    case DisableList(j) => SaneOperate(d, j, Disable);
    case LockList(j) => SaneOperate(d, j, Lock);
    case FireHandlers(j) => SaneOperate(d, j, Fire(args));
    case User(_) =>
  }

  lemma SaneTicked<V>(d: Machine<V>)
    requires AllSane(d) && d.stack != [] && Top(d) < |d.lists|
    ensures Running(d).Some? && AllSane(Ticked(d))
    ensures d.lists[Top(d)].pc.InCall? ==>
              forall isFalse :: AllSane(d.(lists := d.lists[Top(d) := ReturnOf(d.lists[Top(d)], isFalse)]))
  {
    SaneTick(d.lists[Top(d)]);
    hide Sane, TickOf, ReturnOf;
  }

  lemma SaneRun<V>(d: Machine<V>)
    requires Inv(d) && AllSane(d) && d.stack != []
    ensures AllSane(RunTop(d))
  {
    TopIsWired(d);
    SaneTicked(d);
    var s := d.lists[Top(d)];
    hide AllSane, Inv, Wired, TickOf, Effect, StackOk, Callee, ReturnOf, Ticked;
    if !s.pc.InCall? {
      RunTopIs(d);
      hide RunTop;
      if TickOf(s).pc.InCall? && TickOf(s).memory.Some? && Callee(TickOf(s)).Some? {
        TickedAtRest(d);
        SaneEffect(Ticked(d), Callee(TickOf(s)).value, TickOf(s).memory.value.args);
      }
    }
  }

  lemma SaneUserOperate<V>(d: Machine<V>, k: nat, op: Op<Fn, V>)
    requires Inv(d) && AllSane(d) && UserRuns(d)
    ensures AllSane(Operate(d, k, op))
  {
    InvIs(d);
    UsersAtRest(d);
    assert |d.lists| == 6;
    if k < 6 { AllAtRest(d, k); }
    hide Inv, UserRuns, AtRest, StackOk, AllSane;
    SaneOperate(d, k, op);
  }

  lemma SaneReturn<V>(d: Machine<V>, isFalse: bool)
    requires Inv(d) && AllSane(d) && UserRuns(d) && d.stack != []
    ensures Top(d) < |d.lists| && AllSane(d.(lists := d.lists[Top(d) := ReturnOf(d.lists[Top(d)], isFalse)]))
  {
    TopIsWired(d);
    SaneTicked(d);
    hide Inv, StackOk, AllSane, Wired, ReturnOf, Ticked;
  }

  lemma SanePerform<V>(d: Machine<V>, a: Turn<V>)
    requires Inv(d) && AllSane(d)
    ensures AllSane(Deferreds.Perform(d, a))
  {
    if d.stack != [] { TopIsWired(d); }
    hide AllSane, Inv, UserRuns, Operate, RunTop, StackOk, Wired, ReturnOf;
    match a
    case Settle(k, args) =>
      if UserRuns(d) {
        SaneUserOperate(d, k, Fire(args));
        SaneAlike(Operate(d, k, Fire(args)), Deferreds.Perform(d, a));
      }
    case On(k, ids) => if UserRuns(d) { SaneUserOperate(d, k, Add(Users(ids))); }
    case Run => if d.stack != [] { SaneRun(d); }
    case Leave(isFalse) => if d.stack != [] && UserRuns(d) { SaneReturn(d, isFalse); }
  }

  lemma SaneAlike<V>(d: Machine<V>, d': Machine<V>)
    ensures AllSane(d) && d'.lists == d.lists ==> AllSane(d')
  {
  }

  lemma {:induction false} SaneAlways<V>(acts: seq<Turn<V>>)
    ensures AllSane(Deferreds.Exec(acts))
  {
    if acts == [] {
      forall k | 0 <= k < 6 ensures Sane(Create<V>().lists[k]) { PushOnlyGrows(Fresh<Fn, V>(OptionsOf(k)), Wiring(k)); }
    } else {
      SaneAlways(acts[..|acts| - 1]);
      InvAlways(acts[..|acts| - 1]);
      SanePerform(Deferreds.Exec(acts[..|acts| - 1]), acts[|acts| - 1]);
    }
    hide Deferreds.Perform, Sane;
  }

  // ---------------------------------------------------------------- what nested code leaves alone

  /** The first n firing lists are still firing, where they were, and have made no call. */
  ghost predicate Below<V>(d: Machine<V>, d': Machine<V>, n: nat) {
    && |d.lists| == 6 == |d'.lists| && n <= |d.stack| && n <= |d'.stack| && d'.stack[..n] == d.stack[..n]
    && forall i :: 0 <= i < n ==> var k := d.stack[i];
         k < 6 && d'.lists[k].pc == d.lists[k].pc && d'.lists[k].calls == d.lists[k].calls
  }

  lemma BelowItself<V>(d: Machine<V>, n: nat)
    requires StackOk(d) && n <= |d.stack|
    ensures Below(d, d, n)
  {
  }

  lemma BelowThen<V>(d: Machine<V>, d': Machine<V>, d'': Machine<V>, n: nat, n': nat)
    requires Below(d, d', n) && Below(d', d'', n') && n <= n'
    ensures Below(d, d'', n)
  {
    forall i | 0 <= i < n ensures d'.stack[i] == d.stack[i] {
      assert d'.stack[i] == d'.stack[..n][i] && d.stack[i] == d.stack[..n][i];
    }
    assert d''.stack[..n] == d''.stack[..n'][..n] && d'.stack[..n] == d'.stack[..n'][..n];
  }

  lemma ApplyInCall<V>(s: State<Fn, V>, op: Op<Fn, V>)
    requires s.pc.InCall? && !op.Remove?
    ensures Apply(s, op).pc.InCall? && Apply(s, op).calls == s.calls
  {
    if op.Add? { PushOnlyGrows(s, op.fns); }
  }

  lemma OperateBelow<V>(d: Machine<V>, k: nat, op: Op<Fn, V>)
    requires AtRest(d) && k < 6 && !op.Remove?
    ensures Below(d, Operate(d, k, op), |d.stack|) && d.stack <= Operate(d, k, op).stack
    ensures Operate(d, k, op).stack == if d.lists[k].pc.Idle? && !Apply(d.lists[k], op).pc.Idle? then d.stack + [k]
                                       else d.stack
  {
    AllAtRest(d, k);
    if d.lists[k].pc.InCall? { ApplyInCall(d.lists[k], op); }
    hide Apply;
    forall i | 0 <= i < |d.stack| ensures d.stack[i] < 6 && !d.lists[d.stack[i]].pc.Idle? {
      assert d.stack[i] in d.stack;
    }
  }

  // ---------------------------------------------------------------- the script

  /** What user code did, in order. */
  ghost function ByUsers<V>(acts: seq<Turn<V>>): seq<Turn<V>> {
    Kept(acts, (a: Turn<V>) => !a.Run?)
  }

  function Returns<V>(n: nat): seq<Turn<V>> {
    seq(n, _ => Deferreds.Leave(false))
  }

  /** User code took the moves of script up to rest, and then returned n times because there were no more. */
  ghost predicate TookBy<V>(users: seq<Turn<V>>, users': seq<Turn<V>>, script: seq<Turn<V>>, rest: seq<Turn<V>>,
                            n: nat) {
    |rest| <= |script| && rest == script[|script| - |rest|..] && (n > 0 ==> rest == []) &&
    users' == users + script[..|script| - |rest|] + Returns(n)
  }

  ghost predicate Took<V>(acts: seq<Turn<V>>, acts': seq<Turn<V>>, script: seq<Turn<V>>, rest: seq<Turn<V>>) {
    acts <= acts' && exists n: nat :: TookBy(ByUsers(acts), ByUsers(acts'), script, rest, n)
  }

  lemma TookNothing<V>(acts: seq<Turn<V>>, script: seq<Turn<V>>)
    ensures Took(acts, acts, script, script)
  {
    hide ByUsers;
    assert script[..0] == [] && script[0..] == script && Returns<V>(0) == [];
    assert TookBy(ByUsers(acts), ByUsers(acts), script, script, 0);
  }

  lemma ByUsersMore<V>(acts: seq<Turn<V>>, a: Turn<V>)
    ensures ByUsers(acts + [a]) == ByUsers(acts) + if a.Run? then [] else [a]
  {
    assert (acts + [a])[..|acts|] == acts;
  }

  lemma TookRun<V>(acts: seq<Turn<V>>, script: seq<Turn<V>>)
    ensures Took(acts, acts + [Deferreds.Run], script, script)
  {
    ByUsersMore(acts, Deferreds.Run);
    hide ByUsers;
    assert script[..0] == [] && script[0..] == script && Returns<V>(0) == [];
    assert TookBy(ByUsers(acts), ByUsers(acts + [Deferreds.Run]), script, script, 0);
  }

  lemma TookOne<V>(acts: seq<Turn<V>>, script: seq<Turn<V>>)
    requires script != [] && !script[0].Run?
    ensures Took(acts, acts + [script[0]], script, script[1..])
  {
    ByUsersMore(acts, script[0]);
    hide ByUsers;
    assert script[..1] == [script[0]] && Returns<V>(0) == [];
    assert TookBy(ByUsers(acts), ByUsers(acts + [script[0]]), script, script[1..], 0);
  }

  lemma TookReturn<V>(acts: seq<Turn<V>>)
    ensures Took(acts, acts + [Deferreds.Leave(false)], [], [])
  {
    ByUsersMore(acts, Deferreds.Leave(false));
    hide ByUsers;
    assert Returns<V>(1) == [Deferreds.Leave(false)];
    assert TookBy(ByUsers(acts), ByUsers(acts + [Deferreds.Leave(false)]), [], [], 1);
  }

  lemma TookThen<V>(acts: seq<Turn<V>>, acts': seq<Turn<V>>, acts'': seq<Turn<V>>, script: seq<Turn<V>>,
                    rest: seq<Turn<V>>, rest': seq<Turn<V>>)
    requires Took(acts, acts', script, rest) && Took(acts', acts'', rest, rest')
    ensures Took(acts, acts'', script, rest')
  {
    hide ByUsers, TookBy;
    var n: nat :| TookBy(ByUsers(acts), ByUsers(acts'), script, rest, n);
    var m: nat :| TookBy(ByUsers(acts'), ByUsers(acts''), rest, rest', m);
    TookByThen(ByUsers(acts), ByUsers(acts'), ByUsers(acts''), script, rest, rest', n, m);
  }

  lemma TookByThen<V>(users: seq<Turn<V>>, users': seq<Turn<V>>, users'': seq<Turn<V>>, script: seq<Turn<V>>,
                      rest: seq<Turn<V>>, rest': seq<Turn<V>>, n: nat, m: nat)
    requires TookBy(users, users', script, rest, n) && TookBy(users', users'', rest, rest', m)
    ensures TookBy(users, users'', script, rest', n + m)
  {
    var i, j := |script| - |rest|, |rest| - |rest'|;
    assert script[i..][j..] == script[i + j..];
    hide Returns;
    TakenThen(users, script, i, j, n, m);
  }

  lemma TakenThen<V>(users: seq<Turn<V>>, script: seq<Turn<V>>, i: nat, j: nat, n: nat, m: nat)
    requires i + j <= |script| && (n > 0 ==> script[i..] == [])
    ensures users + script[..i] + Returns(n) + script[i..][..j] + Returns(m) == users + script[..i + j] + Returns(n + m)
  {
    assert script[..i + j] == script[..i] + script[i..][..j];
    assert Returns<V>(n) + Returns<V>(m) == Returns<V>(n + m);
    if n > 0 { assert script[i..][..j] == []; } else { assert Returns<V>(n) == []; }
    hide Returns;
  }

  ghost predicate NoRuns<V>(script: seq<Turn<V>>) {
    forall a :: a in script ==> !a.Run?
  }

  /**
   From acts to acts' some of the script was taken; the first n lists fire on as before.  While a list of handlers
   fires nothing happens to the other lists unless the script says so.
  */
  ghost predicate Progress<V>(acts: seq<Turn<V>>, acts': seq<Turn<V>>, script: seq<Turn<V>>, rest: seq<Turn<V>>,
                              n: nat, k: nat)
  {
    var d, d' := Deferreds.Exec(acts), Deferreds.Exec(acts');
    && Took(acts, acts', script, rest) && Below(d, d', n)
    && (k > FAIL && |rest| == |script| ==> forall j :: 0 <= j < 6 && j != k ==> d'.lists[j] == d.lists[j])
  }

  lemma NoProgress<V>(acts: seq<Turn<V>>, script: seq<Turn<V>>, n: nat, k: nat)
    requires n <= |Deferreds.Exec(acts).stack|
    ensures Progress(acts, acts, script, script, n, k)
  {
    InvAlways(acts);
    TookNothing(acts, script);
    BelowItself(Deferreds.Exec(acts), n);
    hide *;
  }

  lemma ProgressThen<V>(acts: seq<Turn<V>>, acts': seq<Turn<V>>, acts'': seq<Turn<V>>, script: seq<Turn<V>>,
                        rest: seq<Turn<V>>, rest': seq<Turn<V>>, n: nat, n': nat, k: nat)
    requires Progress(acts, acts', script, rest, n, k) && Progress(acts', acts'', rest, rest', n', k) && n <= n'
    ensures Progress(acts, acts'', script, rest', n, k)
  {
    TookThen(acts, acts', acts'', script, rest, rest');
    BelowThen(Deferreds.Exec(acts), Deferreds.Exec(acts'), Deferreds.Exec(acts''), n, n');
    assert |rest'| <= |rest| <= |script|;
    hide Took, Below, Deferreds.Exec;
  }

  /** A stretch of the running list's loops that makes no call. */
  lemma TickProgress<V>(acts: seq<Turn<V>>, script: seq<Turn<V>>)
    requires var d := Deferreds.Exec(acts); d.stack != [] && Top(d) < 6 && !d.lists[Top(d)].pc.InCall? &&
                                            !TickOf(d.lists[Top(d)]).pc.InCall?
    ensures var d, acts' := Deferreds.Exec(acts), acts + [Deferreds.Run];
            Deferreds.Exec(acts') == Ticked(d) && Progress(acts, acts', script, script, |d.stack| - 1, Top(d))
  {
    hide *;
    var d := Deferreds.Exec(acts);
    InvAlways(acts);
    TopIsWired(d);
    ExecOneMore(acts, Deferreds.Run);
    TookRun(acts, script);
    RunIsTick(d);
    TickBelow(d);
    ProgressIs(acts, acts + [Deferreds.Run], script, script, |d.stack| - 1, Top(d));
  }

  /** What the stretches do to the running list: to the next event, back from the last callback, to the end. */
  lemma TickShape<V>(s: State<Fn, V>)
    ensures s.pc.Outer? && s.queue != [] ==> TickOf(s).pc.Inner? && TickOf(s).queue == s.queue[1..]
    ensures s.pc.Inner? && s.firingIndex + 1 >= |s.list| ==> TickOf(s).pc.Outer? && TickOf(s).queue == s.queue
    ensures s.pc.Outer? && s.queue == [] ==> TickOf(s) == Finish(s) && TickOf(s).pc.Idle?
  {
  }

  lemma TickedIs<V>(d: Machine<V>)
    requires d.stack != [] && Top(d) < |d.lists|
    ensures var s' := TickOf(d.lists[Top(d)]);
            Running(d).Some? && Ticked(d) == d.(lists := d.lists[Top(d) := s'],
                                                stack := if s'.pc.Idle? then d.stack[..|d.stack| - 1] else d.stack)
  {
    hide TickOf;
  }

  lemma RunIsTick<V>(d: Machine<V>)
    requires d.stack != [] && Top(d) < |d.lists| && !d.lists[Top(d)].pc.InCall? && !TickOf(d.lists[Top(d)]).pc.InCall?
    ensures Deferreds.Perform(d, Deferreds.Run) == Ticked(d)
    ensures forall j :: 0 <= j < |d.lists| && j != Top(d) ==> Ticked(d).lists[j] == d.lists[j]
  {
    RunTopIs(d);
    hide RunTop, TickOf;
  }

  lemma ProgressIs<V>(acts: seq<Turn<V>>, acts': seq<Turn<V>>, script: seq<Turn<V>>, rest: seq<Turn<V>>, n: nat, k: nat)
    requires Took(acts, acts', script, rest) && Below(Deferreds.Exec(acts), Deferreds.Exec(acts'), n)
    requires k > FAIL && |rest| == |script| ==>
               forall j :: 0 <= j < 6 && j != k ==> Deferreds.Exec(acts').lists[j] == Deferreds.Exec(acts).lists[j]
    ensures Progress(acts, acts', script, rest, n, k)
  {
    hide Took, Below, Deferreds.Exec;
  }

  lemma TickBelow<V>(d: Machine<V>)
    requires StackOk(d) && d.stack != []
    ensures Below(d, Ticked(d), |d.stack| - 1)
  {
    hide TickOf;
    ListsBelow(d, Ticked(d), Top(d), |d.stack| - 1);
  }

  /** A change to a list that is not among them */
  lemma ListsBelow<V>(d: Machine<V>, d': Machine<V>, k: nat, n: nat)
    requires |d.lists| == 6 == |d'.lists| && n <= |d.stack| && n <= |d'.stack| && d'.stack[..n] == d.stack[..n]
    requires forall j :: 0 <= j < 6 && j != k ==> d'.lists[j] == d.lists[j]
    requires forall i :: 0 <= i < n ==> d.stack[i] < 6 && d.stack[i] != k
    ensures Below(d, d', n)
  {
  }

  lemma Starts<V>(s: State<Fn, V>, op: Op<Fn, V>)
    requires s.pc.Idle? && !op.Remove?
    ensures Apply(s, op).pc.Idle? || Apply(s, op).pc.Outer?
    ensures op.Disable? || op.Lock? ==> Apply(s, op).pc.Idle?
  {
    if op.Add? {
      PushOnlyGrows(s, op.fns);
      if s.memory.Some? { PushOnlyGrows(s.(firingIndex := |s.list| - 1, queue := s.queue + [s.memory.value]), op.fns); }
    }
  }

  /** An operation leaves the firing lists where they are, and may put its own list on top of them. */
  lemma OperateShape<V>(d: Machine<V>, k: nat, op: Op<Fn, V>)
    requires AtRest(d) && k < 6 && !op.Remove?
    ensures var d' := Operate(d, k, op);
            var start := d.lists[k].pc.Idle? && !Apply(d.lists[k], op).pc.Idle?;
            && Below(d, d', |d.stack|) && d'.stack == (if start then d.stack + [k] else d.stack)
            && (start ==> d'.lists[k].pc.Outer?) && (op.Disable? || op.Lock? ==> !start)
            && forall j :: 0 <= j < 6 && j != k ==> d'.lists[j] == d.lists[j]
  {
    OperateBelow(d, k, op);
    if d.lists[k].pc.Idle? { Starts(d.lists[k], op); }
    hide Apply, Below;
  }

  lemma UsersStill<V>(d: Machine<V>, d': Machine<V>)
    requires UserRuns(d) && Below(d, d', |d.stack|) && d'.stack == d.stack
    ensures UserRuns(d')
  {
    if d.stack != [] { assert d.stack[|d.stack| - 1] == Top(d); }
  }

  lemma ProgressMeans<V>(acts: seq<Turn<V>>, acts': seq<Turn<V>>, script: seq<Turn<V>>, rest: seq<Turn<V>>, n: nat,
                         k: nat)
    requires Progress(acts, acts', script, rest, n, k)
    ensures Took(acts, acts', script, rest) && Below(Deferreds.Exec(acts), Deferreds.Exec(acts'), n)
    ensures k > FAIL && |rest| == |script| ==>
              forall j :: 0 <= j < 6 && j != k ==> Deferreds.Exec(acts').lists[j] == Deferreds.Exec(acts).lists[j]
  {
    hide Took, Below, Deferreds.Exec;
  }

  lemma BelowAlike<V>(d: Machine<V>, e: Machine<V>, e': Machine<V>, n: nat)
    requires Below(d, e, n) && e'.lists == e.lists && e'.stack == e.stack
    ensures Below(d, e', n)
  {
  }

  /** A wiring callback of list k leaves the firing lists and k itself, and may start the handlers. */
  lemma EffectShape<V>(d: Machine<V>, k: nat, fn: Fn, args: V)
    requires AtRest(d) && k < 6 && WiringOf(k, fn)
    ensures var d' := Effect(d, fn, args);
            && Below(d, d', |d.stack|) && d'.lists[k] == d.lists[k]
            && (d'.stack == d.stack || (d'.stack == d.stack + [Handlers(k)] && d'.lists[Handlers(k)].pc.Outer?))
  {
    match fn
    case SetState(_) => BelowItself(d, |d.stack|); hide StackOk, Below;
    case DisableList(j) => OperateShape(d, j, Disable); hide AtRest, Operate, Below;
    case LockList(j) => OperateShape(d, j, Lock); hide AtRest, Operate, Below;
    case FireHandlers(j) => OperateShape(d, j, Fire(args)); hide AtRest, Operate, Below;
  }

  lemma TookOnly<V>(acts: seq<Turn<V>>, a: Turn<V>, acts': seq<Turn<V>>, script: seq<Turn<V>>, rest: seq<Turn<V>>)
    requires Took(acts + [a], acts', script, rest)
    ensures acts <= acts' && acts + acts'[|acts|..] == acts'
  {
    assert acts <= acts + [a];
  }

  /** A firing list that was calling still is calling the same. */
  lemma StillCalls<V>(d: Machine<V>, d': Machine<V>)
    requires Below(d, d', |d.stack|) && d'.stack == d.stack != []
    ensures Top(d) < 6 && d'.lists[Top(d)].pc == d.lists[Top(d)].pc
    ensures Callee(d'.lists[Top(d)]) == Callee(d.lists[Top(d)])
  {
    assert d.stack[|d.stack| - 1] == Top(d);
  }

  /** The loops have one call behind them, and as much as before in front. */
  ghost predicate Stayed<V>(s: State<Fn, V>, s': State<Fn, V>) {
    s'.queue == s.queue && s'.list == s.list && s'.firingIndex == s.firingIndex + 1
  }

  lemma StayedOne<V>(s: State<Fn, V>, isFalse: bool)
    requires s.pc.Inner? && TickOf(s).pc.InCall? && !isFalse
    ensures Stayed(s, ReturnOf(TickOf(s), isFalse))
  {
  }

  lemma OperateIs<V>(d: Machine<V>, k: nat, op: Op<Fn, V>)
    requires k < |d.lists|
    ensures var d' := Operate(d, k, op); d'.lists == d.lists[k := Apply(d.lists[k], op)] && d'.phase == d.phase
  {
    hide Apply;
  }

  lemma ReturnsTo<V>(d: Machine<V>, k: nat, isFalse: bool, a: Turn<V>)
    requires d.stack != [] && Top(d) == k < |d.lists| && d.lists[k].pc.InCall? && Callee(d.lists[k]).Some?
    requires a == (if Callee(d.lists[k]).value.User? then Deferreds.Leave(isFalse) else Deferreds.Run)
    requires !Callee(d.lists[k]).value.User? ==> !isFalse
    ensures Deferreds.Perform(d, a) == d.(lists := d.lists[k := ReturnOf(d.lists[k], isFalse)])
    ensures ReturnOf(d.lists[k], isFalse).pc.Inner?
    ensures Top(Deferreds.Perform(d, a)) == k
  {
  }

  lemma StayedMeans<V>(s: State<Fn, V>, s': State<Fn, V>)
    ensures Stayed(s, s') ==> s'.queue == s.queue && s'.list == s.list && s'.firingIndex == s.firingIndex + 1
  {
  }

  /** A stretch without a call, as one act. */
  lemma TickActs<V>(acts: seq<Turn<V>>, script: seq<Turn<V>>, k: nat)
    requires var d := Deferreds.Exec(acts); d.stack != [] && Top(d) == k < 6 && !d.lists[k].pc.InCall? &&
                                            !TickOf(d.lists[k]).pc.InCall?
    ensures var d, d' := Deferreds.Exec(acts), Deferreds.Perform(Deferreds.Exec(acts), Deferreds.Run);
            && d'.lists == d.lists[k := TickOf(d.lists[k])] && d'.phase == d.phase
            && d'.stack == (if TickOf(d.lists[k]).pc.Idle? then d.stack[..|d.stack| - 1] else d.stack)
            && (d'.stack == d.stack ==> Top(d') == k)
    ensures var d := Deferreds.Exec(acts); Progress(acts, acts + [Deferreds.Run], script, script, |d.stack| - 1, k)
  {
    hide *;
    TickProgress(acts, script);
    ExecOneMore(acts, Deferreds.Run);
    TickedIs(Deferreds.Exec(acts));
    SameTop(Deferreds.Exec(acts), Deferreds.Perform(Deferreds.Exec(acts), Deferreds.Run));
  }

  lemma SameTop<V>(d: Machine<V>, d': Machine<V>)
    requires d.stack != []
    ensures d'.stack == d.stack ==> Top(d') == Top(d)
  {
  }

  lemma NoRunsRest<V>(script: seq<Turn<V>>)
    requires NoRuns(script) && script != []
    ensures !script[0].Run? && NoRuns(script[1..])
  {
  }

  // ---------------------------------------------------------------- one call

  /** List k runs and is about to call fn with args; t is the machine with the call recorded. */
  ghost predicate Calling<V>(d: Machine<V>, k: nat, fn: Fn, args: V, t: Machine<V>) {
    && k < 6 && |d.lists| == 6 && d.stack != [] && Top(d) == k && d.lists[k].pc.Inner?
    && t == d.(lists := d.lists[k := TickOf(d.lists[k])])
    && t.lists[k].pc.InCall? && Callee(t.lists[k]) == Some(fn) && AtRest(t)
    && Deferreds.Perform(d, Deferreds.Run) == Effect(t, fn, args)
  }

  lemma NextCalling<V>(d: Machine<V>, k: nat) returns (t: Machine<V>)
    requires Inv(d) && d.stack != [] && Top(d) == k < |d.lists| && Sane(d.lists[k])
    requires d.lists[k].pc.Inner? && d.lists[k].firingIndex + 1 < |d.lists[k].list|
    ensures var s := d.lists[k];
            && 0 <= s.firingIndex + 1 && s.memory.Some? && t.phase == d.phase && k < 6 && |d.lists| == 6
            && t.lists == d.lists[k := TickOf(s)] && TickOf(s).pc.InCall?
            && var fn := s.list[s.firingIndex + 1].fn;
               Calling(d, k, fn, s.memory.value.args, t) && (fn.User? || WiringOf(k, fn))
  {
    NextCall(d);
    InvIs(d);
    t := Ticked(d);
    assert Deferreds.Perform(d, Deferreds.Run) == RunTop(d) && |d.lists| == 6;
    hide *;
    CallingIs(d, k, NextFn(d.lists[k]), d.lists[k].memory.value.args, t);
    NextFnIs(d.lists[k]);
  }

  lemma NextFnIs<V>(s: State<Fn, V>)
    requires -1 <= s.firingIndex && s.firingIndex + 1 < |s.list|
    ensures NextFn(s) == s.list[s.firingIndex + 1].fn
  {
  }

  lemma CallingIs<V>(d: Machine<V>, k: nat, fn: Fn, args: V, t: Machine<V>)
    requires k < 6 && |d.lists| == 6 && d.stack != [] && Top(d) == k && d.lists[k].pc.Inner?
    requires t == d.(lists := d.lists[k := TickOf(d.lists[k])])
    requires TickOf(d.lists[k]).pc.InCall? && Callee(TickOf(d.lists[k])) == Some(fn) && AtRest(t)
    requires Deferreds.Perform(d, Deferreds.Run) == Effect(t, fn, args)
    ensures Calling(d, k, fn, args, t)
  {
    hide TickOf, Callee, AtRest, Effect, Deferreds.Perform;
  }

  lemma UserStarts<V>(acts: seq<Turn<V>>, k: nat, fn: Fn, args: V, t: Machine<V>, script: seq<Turn<V>>)
    requires Calling(Deferreds.Exec(acts), k, fn, args, t) && fn.User?
    ensures var acts' := acts + [Deferreds.Run];
            Deferreds.Exec(acts') == t && UserRuns(t) && Took(acts, acts', script, script) && t.stack != [] &&
            Top(t) == k
  {
    ExecOneMore(acts, Deferreds.Run);
    TookRun(acts, script);
    hide Deferreds.Exec, Took, TickOf, AtRest;
  }

  /** User code, or what a wiring callback started, is done. */
  lemma StillCalling<V>(d: Machine<V>, k: nat, fn: Fn, args: V, t: Machine<V>, d': Machine<V>)
    requires Calling(d, k, fn, args, t) && Below(t, d', |t.stack|) && d'.stack == t.stack
    ensures k < 6 && |d'.lists| == 6 && d'.stack != [] && Top(d') == k && d'.lists[k].pc.InCall?
    ensures Callee(d'.lists[k]) == Some(fn) && d'.stack == d.stack
  {
    StillCalls(t, d');
    hide TickOf, AtRest, Effect, Deferreds.Perform, Callee, Below;
  }

  /** From the call of list k to the return from it, with whatever happened in between. */
  lemma CallEnds<V>(acts: seq<Turn<V>>, k: nat, fn: Fn, args: V, t: Machine<V>, d: Machine<V>, acts': seq<Turn<V>>,
                    script: seq<Turn<V>>, rest: seq<Turn<V>>, isFalse: bool)
    requires var before, after := Deferreds.Exec(acts), Deferreds.Exec(acts');
             && Calling(before, k, fn, args, t) && Below(t, d, |t.stack|) && d.stack == t.stack == after.stack
             && after.lists == d.lists[k := ReturnOf(d.lists[k], isFalse)]
    requires Took(acts, acts', script, rest)
    requires rest == script ==> d.lists[k] == t.lists[k] && !isFalse
    requires k > FAIL && |rest| == |script| ==> d == t
    ensures var before, after := Deferreds.Exec(acts), Deferreds.Exec(acts');
            && Progress(acts, acts', script, rest, |before.stack| - 1, k) && after.lists[k].pc.Inner?
            && (rest == script ==> Stayed(before.lists[k], after.lists[k]))
  {
    var before, after, n := Deferreds.Exec(acts), Deferreds.Exec(acts'), |Deferreds.Exec(acts).stack| - 1;
    InvAlways(acts);
    BeforeTop(before, k);
    ReturnsInner(d.lists[k], isFalse);
    hide Deferreds.Exec, Took, Inv, TickOf, ReturnOf, Effect, AtRest, Callee, Deferreds.Perform;
    ListsBelow(before, t, k, n);
    BelowThen(before, t, d, n, n + 1);
    ListsBelow(d, after, k, n);
    BelowThen(before, d, after, n, n);
    if rest == script { StayedOne(before.lists[k], isFalse); }
    hide Below, Stayed;
    ProgressIs(acts, acts', script, rest, n, k);
  }

  lemma ReturnsInner<V>(s: State<Fn, V>, isFalse: bool)
    ensures ReturnOf(s, isFalse).pc.Inner?
  {
  }

  lemma BeforeTop<V>(d: Machine<V>, k: nat)
    requires Inv(d) && d.stack != [] && Top(d) == k
    ensures forall i :: 0 <= i < |d.stack| - 1 ==> d.stack[i] < 6 && d.stack[i] != k
  {
    hide AllWired, Course;
  }

  /** What the body of a wiring callback leads to. */
  lemma WiringStarts<V>(acts: seq<Turn<V>>, k: nat, fn: Fn, args: V, t: Machine<V>, script: seq<Turn<V>>)
    requires Calling(Deferreds.Exec(acts), k, fn, args, t) && WiringOf(k, fn) && AllSane(Deferreds.Exec(acts))
    ensures var acts', e, h := acts + [Deferreds.Run], Effect(t, fn, args), Handlers(k);
            && Deferreds.Exec(acts') == e && Took(acts, acts', script, script) && AllSane(t) && AtRest(t)
            && h < 6 && h > FAIL && h != k && k <= FAIL && !fn.User?
            && Below(t, e, |t.stack|) && |e.lists| == 6 && e.lists[k] == t.lists[k]
            && (e.stack != t.stack ==> e.stack != [] && Top(e) == h && e.stack[..|e.stack| - 1] == t.stack &&
                                       e.lists[h].pc.Outer?)
  {
    ExecOneMore(acts, Deferreds.Run);
    TookRun(acts, script);
    SaneTick(Deferreds.Exec(acts).lists[k]);
    hide Deferreds.Exec, Took, TickOf, AtRest, Sane, Effect, Below, Deferreds.Perform;
    EffectShape(t, k, fn, args);
  }

  lemma WiringMeansMain(k: nat, fn: Fn)
    requires WiringOf(k, fn)
    ensures k <= FAIL && !fn.User?
  {
  }

  lemma StateSet<V>(d: Machine<V>, fn: Fn, args: V)
    requires fn.SetState?
    ensures Effect(d, fn, args) == d.(phase := fn.phase)
  {
  }

  /** The other wiring callbacks are operations. */
  lemma EffectOperates<V>(d: Machine<V>, k: nat, fn: Fn, args: V, op: Op<Fn, V>)
    requires AtRest(d) && AllSane(d) && WiringOf(k, fn) && !fn.SetState?
    requires op == if fn.DisableList? then Disable else if fn.LockList? then Lock else Fire(args)
    ensures fn.k < 6 && |d.lists| == 6 && Effect(d, fn, args) == Operate(d, fn.k, op) && !op.Remove?
    ensures d.lists[fn.k].pc.Idle? || d.lists[fn.k].pc.InCall?
    ensures -1 <= d.lists[fn.k].firingIndex
    ensures Effect(d, fn, args).stack != d.stack <==> d.lists[fn.k].pc.Idle? && !Apply(d.lists[fn.k], op).pc.Idle?
  {
    AllAtRest(d, fn.k);
    OperateShape(d, fn.k, op);
    hide AtRest, Apply, Operate, Below;
  }

  lemma Begins<V>(s: State<Fn, V>, op: Op<Fn, V>)
    requires (s.pc.Idle? || s.pc.InCall?) && !op.Remove?
    ensures s.pc.InCall? ==> Apply(s, op).pc.InCall?
    ensures s.pc.Idle? ==> Apply(s, op).pc.Idle? || Apply(s, op).pc.Outer?
  {
    if s.pc.Idle? { Starts(s, op); } else { ApplyInCall(s, op); }
  }

  /** An operation of user code, as one act. */
  lemma UserOperates<V>(acts: seq<Turn<V>>, k: nat, op: Op<Fn, V>, a: Turn<V>)
    requires var d := Deferreds.Exec(acts); UserRuns(d) && k < 6 && !op.Remove?
    requires var e, d' := Operate(Deferreds.Exec(acts), k, op), Deferreds.Perform(Deferreds.Exec(acts), a);
             d'.lists == e.lists && d'.stack == e.stack && d'.phase == e.phase
    ensures var d, d' := Deferreds.Exec(acts), Deferreds.Exec(acts + [a]);
            var start := d.lists[k].pc.Idle? && !Apply(d.lists[k], op).pc.Idle?;
            && d' == Deferreds.Perform(d, a) && |d.lists| == 6 && (d.lists[k].pc.Idle? || d.lists[k].pc.InCall?)
            && -1 <= d.lists[k].firingIndex && Below(d, d', |d.stack|) && |d'.lists| == 6
            && (if start then d'.stack != [] && Top(d') == k && d'.stack[..|d'.stack| - 1] == d.stack &&
                              d'.lists[k].pc.Outer?
                else d'.stack == d.stack)
  {
    hide *;
    var d, e := Deferreds.Exec(acts), Operate(Deferreds.Exec(acts), k, op);
    ExecOneMore(acts, a);
    UsersAt(acts, k);
    OperateShape(d, k, op);
    BelowAlike(d, e, Deferreds.Perform(d, a), |d.stack|);
    if e.stack == d.stack + [k] { TopIs(e, d.stack, k); TopIs(Deferreds.Perform(d, a), d.stack, k); }
  }

  lemma UsersAt<V>(acts: seq<Turn<V>>, k: nat)
    requires UserRuns(Deferreds.Exec(acts)) && k < 6
    ensures var d := Deferreds.Exec(acts);
            AtRest(d) && |d.lists| == 6 && (d.lists[k].pc.Idle? || d.lists[k].pc.InCall?) &&
            -1 <= d.lists[k].firingIndex
  {
    InvAlways(acts);
    SaneAlways(acts);
    hide Deferreds.Exec;
    var d := Deferreds.Exec(acts);
    assert Sane(d.lists[k]);
    InvIs(d);
    hide Inv, AllWired, Course;
    UsersAtRest(d);
    AllAtRest(d, k);
    hide UserRuns, AtRest, StackOk;
  }

  lemma TopIs<V>(d: Machine<V>, stack: seq<nat>, k: nat)
    requires d.stack == stack + [k]
    ensures d.stack != [] && Top(d) == k && d.stack[..|d.stack| - 1] == stack
  {
  }

  lemma TookFewer<V>(acts: seq<Turn<V>>, acts': seq<Turn<V>>, script: seq<Turn<V>>, rest: seq<Turn<V>>)
    requires Took(acts, acts', script, rest)
    ensures |rest| <= |script| && (|rest| == |script| ==> rest == script)
  {
    hide ByUsers;
  }
}
