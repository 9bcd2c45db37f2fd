/**
 jQuery.Deferred: six callback lists wired together by their own first callbacks.
*/
module Deferreds {
  import opened Lists
  import opened Callbacks

  // Several lists fire at once, so the machine keeps a stack of firing lists; user code runs only at top level or
  // inside a user callback.

  datatype Phase = Pending | Resolved | Rejected

  /** What sits in the lists: the deferred's own wiring, and the user's functions. */
  datatype Fn = SetState(phase: Phase) | DisableList(k: nat) | LockList(k: nat) | FireHandlers(k: nat) | User(id: nat)

  // the lists: notify / resolve / reject, then the handler lists of the same actions
  const PROGRESS: nat := 0
  const DONE: nat := 1
  const FAIL: nat := 2

  /** `stack` holds the lists that are firing, `first` the first resolve or reject call. */
  datatype Deferred<+V> = Deferred(lists: seq<State<Fn, V>>, phase: Phase, stack: seq<nat>, first: Option<(nat, V)>)

  function Handlers(k: nat): nat {
    k + 3
  }

  /** The callbacks the constructor puts in front of list k. */
  function Wiring(k: nat): seq<Fn> {
    if k == DONE then [SetState(Resolved), DisableList(FAIL), LockList(PROGRESS), FireHandlers(Handlers(DONE))]
    else if k == FAIL then [SetState(Rejected), DisableList(DONE), LockList(PROGRESS), FireHandlers(Handlers(FAIL))]
    else if k == PROGRESS then [FireHandlers(Handlers(PROGRESS))]
    else []
  }

  function OptionsOf(k: nat): Options {
    if k == PROGRESS || k == Handlers(PROGRESS) then MEMORY else ONCE_MEMORY
  }

  function Create<V>(): Deferred<V> {
    Deferred(seq(6, k requires 0 <= k => AddFns(Fresh<Fn, V>(OptionsOf(k)), Wiring(k))), Pending, [], None)
  }

  // ---------------------------------------------------------------- the moves

  /**
   Settle: notifyWith, resolveWith or rejectWith.  On: done, fail, progress, or then's additions to
   the handler lists.  Tick: the running list's loops go on.  Return: the running user callback returns.
  */
  datatype Act<+V> = Settle(k: nat, args: V) | On(k: nat, ids: seq<nat>) | Run | Leave(isFalse: bool)

  function Top<V>(d: Deferred<V>): nat
    requires d.stack != []
  {
    d.stack[|d.stack| - 1]
  }

  function Running<V>(d: Deferred<V>): Option<State<Fn, V>> {
    if d.stack == [] || Top(d) >= |d.lists| then None else Some(d.lists[Top(d)])
  }

  /** The function the running list is calling. */
  function Callee<V>(s: State<Fn, V>): Option<Fn> {
    if s.pc.InCall? && s.calls != [] then Some(s.calls[|s.calls| - 1].fn) else None
  }

  predicate UserRuns<V>(d: Deferred<V>) {
    d.stack == [] || (Running(d).Some? && Callee(Running(d).value).Some? && Callee(Running(d).value).value.User?)
  }

  /** An operation on list k, from whatever code is running. */
  function Operate<V>(d: Deferred<V>, k: nat, op: Op<Fn, V>): (d': Deferred<V>)
    ensures |d'.lists| == |d.lists|
  {
    if k >= |d.lists| then d
    else
      Put(d, k, Apply(d.lists[k], op))
  }

  /** List k becomes s'; if that starts it firing, it goes on top of the stack. */
  function Put<V>(d: Deferred<V>, k: nat, s': State<Fn, V>): Deferred<V>
    requires k < |d.lists|
  {
    d.(lists := d.lists[k := s'], stack := if d.lists[k].pc.Idle? && !s'.pc.Idle? then d.stack + [k] else d.stack)
  }

  /** The body of a wiring callback. */
  function Effect<V>(d: Deferred<V>, fn: Fn, args: V): (d': Deferred<V>)
    ensures |d'.lists| == |d.lists|
  {
    match fn
    case SetState(phase) => d.(phase := phase)
    case DisableList(j) => Operate(d, j, Disable)
    case LockList(j) => Operate(d, j, Lock)
    case FireHandlers(j) => Operate(d, j, Fire(args))
    case User(_) => d
  }

  function RunTop<V>(d: Deferred<V>): (d': Deferred<V>)
    requires Running(d).Some?
    ensures |d'.lists| == |d.lists|
  {
    var k, s := Top(d), Running(d).value;
    if s.pc.InCall? then
      if Callee(s).Some? && !Callee(s).value.User? then d.(lists := d.lists[k := ReturnOf(s, false)]) else d
    else
      var s' := TickOf(s);
      var d' := d.(lists := d.lists[k := s'], stack := if s'.pc.Idle? then d.stack[..|d.stack| - 1] else d.stack);
      if s'.pc.InCall? && s'.memory.Some? && Callee(s').Some?
      then Effect(d', Callee(s').value, s'.memory.value.args) else d'
  }

  function Users(ids: seq<nat>): seq<Fn> {
    seq(|ids|, i requires 0 <= i < |ids| => User(ids[i]))
  }

  function Perform<V>(d: Deferred<V>, a: Act<V>): (d': Deferred<V>)
    ensures |d'.lists| == |d.lists|
  {
    match a
    case Settle(k, args) =>
      if k > FAIL || !UserRuns(d) then d
      else
        var d' := Operate(d, k, Fire(args));
        if k != PROGRESS && d.first.None? then d'.(first := Some((k, args))) else d'
    case On(k, ids) => if UserRuns(d) then Operate(d, k, Add(Users(ids))) else d
    case Run => if Running(d).Some? then RunTop(d) else d
    case Leave(isFalse) =>
      if d.stack != [] && UserRuns(d) then d.(lists := d.lists[Top(d) := ReturnOf(d.lists[Top(d)], isFalse)]) else d
  }

  function Exec<V>(acts: seq<Act<V>>): (d: Deferred<V>)
    ensures |d.lists| == 6
  {
    if acts == [] then Create() else Perform(Exec(acts[..|acts| - 1]), acts[|acts| - 1])
  }

  // ---------------------------------------------------------------- the invariant

  ghost predicate StackOk<V>(d: Deferred<V>) {
    && |d.lists| == 6
    && (forall i :: 0 <= i < |d.stack| ==> d.stack[i] < 6)
    && (forall i, j :: 0 <= i < j < |d.stack| ==> d.stack[i] != d.stack[j])
    && (forall i :: 0 <= i < |d.stack| - 1 ==> d.lists[d.stack[i]].pc.InCall?)
    && (forall k :: 0 <= k < 6 ==> (d.lists[k].pc.Idle? <==> k !in d.stack))
  }

  /** A once-memory list that has been disabled before it fired. */
  ghost predicate Dead<V>(s: State<Fn, V>) {
    s.locked && !s.live && s.list == [] && s.queue == [] && s.memory.None? && s.pc.Idle? && s.calls == [] &&
    s.sent == []
  }

  /** The functions added to list k are its wiring and then only the user's. */
  ghost predicate WiredFirst(added: seq<Fn>, k: nat) {
    Wiring(k) <= added && forall i :: |Wiring(k)| <= i < |added| ==> added[i].User?
  }

  ghost predicate Backed<V>(list: seq<Entry<Fn>>, calls: seq<Call<Fn, V>>, added: seq<Fn>) {
    && (forall e :: e in list ==> e.id < |added| && e.fn == added[e.id])
    && (forall c :: c in calls ==> c.id < |added| && c.fn == added[c.id])
  }

  ghost predicate Wired<V>(s: State<Fn, V>, k: nat) {
    s.opts == OptionsOf(k) && |s.births| == |s.added| && WiredFirst(s.added, k) && Backed(s.list, s.calls, s.added)
  }

  /** List w has been fired with v: how far its wiring has been called says what has happened so far. */
  ghost predicate Settling<V>(d: Deferred<V>, w: nat, v: V)
    requires |d.lists| == 6 && (w == DONE || w == FAIL)
  {
    var n, loser := |d.lists[w].calls|, DONE + FAIL - w;
    && OnceOk(d.lists[w]) && d.lists[w].sent == [v]
    && d.phase == (if n == 0 then Pending else if w == DONE then Resolved else Rejected)
    && (if n < 2 then OnceOk(d.lists[loser]) && d.lists[loser].sent == [] else Dead(d.lists[loser]))
    && (n >= 3 ==> d.lists[PROGRESS].locked)
    && (n < 4 ==> d.stack != [] && Top(d) == w)
    && OnceOk(d.lists[Handlers(w)]) && d.lists[Handlers(w)].sent == (if n >= 4 then [v] else [])
    && OnceOk(d.lists[Handlers(loser)]) && d.lists[Handlers(loser)].sent == []
  }

  ghost predicate Unsettled<V>(d: Deferred<V>)
    requires |d.lists| == 6
  {
    && d.phase.Pending?
    && (forall k :: k == DONE || k == FAIL || k == Handlers(DONE) || k == Handlers(FAIL) ==>
          OnceOk(d.lists[k]) && d.lists[k].sent == [])
  }

  ghost predicate AllWired<V>(d: Deferred<V>)
    requires |d.lists| == 6
  {
    forall k :: 0 <= k < 6 ==> Wired(d.lists[k], k)
  }

  ghost predicate Course<V>(d: Deferred<V>)
    requires |d.lists| == 6
  {
    match d.first
    case None => Unsettled(d)
    case Some((w, v)) => (w == DONE || w == FAIL) && Settling(d, w, v)
  }

  ghost predicate Inv<V>(d: Deferred<V>) {
    StackOk(d) && AllWired(d) && Course(d)
  }

  // ---------------------------------------------------------------- each list keeps its wiring

  lemma BackedGrows<V>(list: seq<Entry<Fn>>, calls: seq<Call<Fn, V>>, added: seq<Fn>, fns: seq<Fn>)
    requires Backed(list, calls, added)
    ensures Backed(list + NewEntries(fns, |added|), calls, added + fns)
  {
  }

  predicate PcOk<V>(s: State<Fn, V>, s': State<Fn, V>) {
    s'.pc == s.pc || (s.pc.Idle? && s'.pc.Outer?)
  }

  lemma {:induction false} AddKeepsWiring<V>(s: State<Fn, V>, k: nat, ids: seq<nat>)
    requires Wired(s, k)
    ensures Wired(AddFns(s, Users(ids)), k)
    ensures var s' := AddFns(s, Users(ids));
            s'.calls == s.calls && s'.sent == s.sent && (s.locked ==> s'.locked) && PcOk(s, s')
  {
    var fns := Users(ids);
    if s.live {
      Added(s, fns);
      BackedGrows(s.list, s.calls, s.added, fns);
      assert WiredFirst(s.added + fns, k);
      hide AddFns, Backed, WiredFirst;
    }
  }

  lemma TickKeepsWiring<V>(s: State<Fn, V>, k: nat)
    requires Wired(s, k)
    ensures Wired(TickOf(s), k) && TickOf(s).sent == s.sent && (s.locked ==> TickOf(s).locked)
  {
    var s' := TickOf(s);
    if s.pc.Inner? && s'.pc.InCall? {
      var e := s.list[s.firingIndex + 1];
      assert e in s.list;
      forall c | c in s'.calls ensures c.id < |s.added| && c.fn == s.added[c.id] {
        if c !in s.calls { assert c == s'.calls[|s.calls|]; }
      }
    }
  }

  // ---------------------------------------------------------------- each act keeps the invariant

  /** Where operations can happen: every list is idle or in the middle of a call. */
  ghost predicate AtRest<V>(d: Deferred<V>) {
    StackOk(d) && (d.stack == [] || d.lists[Top(d)].pc.InCall?)
  }

  lemma PutKeepsStack<V>(d: Deferred<V>, k: nat, s': State<Fn, V>)
    requires AtRest(d) && k < 6 && PcOk(d.lists[k], s')
    ensures StackOk(Put(d, k, s')) && (d.lists[k].pc.Idle? || d.lists[k].pc.InCall?)
  {
    AllAtRest(d, k);
    if d.lists[k].pc.Idle? && !s'.pc.Idle? { PushKeepsStack(d, k, s'); } else { SwapKeepsStack(d, k, s'); }
  }

  lemma SwapKeepsStack<V>(d: Deferred<V>, k: nat, s': State<Fn, V>)
    requires StackOk(d) && k < 6 && s'.pc == d.lists[k].pc
    ensures StackOk(d.(lists := d.lists[k := s']))
  {
    var lists := d.lists[k := s'];
    forall j | 0 <= j < 6 ensures lists[j].pc == d.lists[j].pc {}
    forall i | 0 <= i < |d.stack| - 1 ensures lists[d.stack[i]].pc.InCall? { assert d.lists[d.stack[i]].pc.InCall?; }
  }

  lemma PushKeepsStack<V>(d: Deferred<V>, k: nat, s': State<Fn, V>)
    requires AtRest(d) && k < 6 && d.lists[k].pc.Idle? && !s'.pc.Idle?
    ensures StackOk(d.(lists := d.lists[k := s'], stack := d.stack + [k]))
  {
    var n, lists, stack := |d.stack|, d.lists[k := s'], d.stack + [k];
    assert k !in d.stack;
    forall i | 0 <= i < n ensures stack[i] != k && stack[i] < 6 && lists[stack[i]].pc.InCall? {
      assert stack[i] == d.stack[i] && d.stack[i] in d.stack;
      if i == n - 1 { assert stack[i] == Top(d); }
    }
    forall i, j | 0 <= i < j <= n ensures stack[i] != stack[j] { if j < n { assert d.stack[i] != d.stack[j]; } }
    forall j | 0 <= j < 6 ensures lists[j].pc.Idle? <==> j !in stack {
      assert d.lists[j].pc.Idle? <==> j !in d.stack;
      assert j in stack <==> j in d.stack || j == k;
    }
  }

  /** A change to list k that makes no call and sends nothing that counts. */
  ghost predicate Gentle<V>(s: State<Fn, V>, s': State<Fn, V>, k: nat) {
    && Wired(s', k) && s'.calls == s.calls && PcOk(s, s') && (s.locked ==> s'.locked)
    && (k == DONE || k == FAIL || k == Handlers(DONE) || k == Handlers(FAIL) ==>
          s'.sent == s.sent && (OnceOk(s) ==> OnceOk(s')) && (Dead(s) ==> Dead(s')))
  }

  lemma GentleUnsettled<V>(d: Deferred<V>, k: nat, s': State<Fn, V>)
    requires |d.lists| == 6 && k < 6 && Unsettled(d) && Gentle(d.lists[k], s', k)
    ensures Unsettled(Put(d, k, s'))
  {
    var d' := Put(d, k, s');
    forall j | j == DONE || j == FAIL || j == Handlers(DONE) || j == Handlers(FAIL)
      ensures OnceOk(d'.lists[j]) && d'.lists[j].sent == []
    {
      assert OnceOk(d.lists[j]) && d.lists[j].sent == [];
    }
  }

  lemma GentleSettling<V>(d: Deferred<V>, k: nat, s': State<Fn, V>, w: nat, v: V)
    requires |d.lists| == 6 && k < 6 && (w == DONE || w == FAIL) && Settling(d, w, v) && |d.lists[w].calls| >= 4
    requires Gentle(d.lists[k], s', k)
    ensures Settling(Put(d, k, s'), w, v)
  {
    hide OnceOk, Wired;
  }

  lemma PutWired<V>(d: Deferred<V>, k: nat, s': State<Fn, V>)
    requires |d.lists| == 6 && AllWired(d) && k < 6 && Wired(s', k)
    ensures AllWired(Put(d, k, s'))
  {
    forall j | 0 <= j < 6 ensures Wired(Put(d, k, s').lists[j], j) { assert Wired(d.lists[j], j); }
  }

  lemma GentleCourse<V>(d: Deferred<V>, k: nat, s': State<Fn, V>)
    requires |d.lists| == 6 && k < 6 && Course(d) && Gentle(d.lists[k], s', k)
    requires d.first.Some? ==> |d.lists[d.first.value.0].calls| >= 4
    ensures Course(Put(d, k, s'))
  {
    match d.first
    case None => GentleUnsettled(d, k, s');
    case Some((w, v)) => GentleSettling(d, k, s', w, v);
  }

  lemma {:induction false} GentleKeeps<V>(d: Deferred<V>, k: nat, s': State<Fn, V>)
    requires Inv(d) && UserRuns(d) && k < 6 && Gentle(d.lists[k], s', k)
    ensures Inv(Put(d, k, s'))
  {
    PutKeepsStack(d, k, s');
    if d.first.Some? { UserRunsAfterWiring(d); }
    PutWired(d, k, s');
    GentleCourse(d, k, s');
  }

  lemma {:induction false} AddIsGentle<V>(s: State<Fn, V>, k: nat, ids: seq<nat>)
    requires Wired(s, k) && (s.pc.Idle? || s.pc.InCall?)
    ensures Gentle(s, AddFns(s, Users(ids)), k)
  {
    AddKeepsWiring(s, k, ids);
    if OnceOk(s) { OnceAdd(s, Users(ids)); }
  }

  lemma {:induction false} OnKeeps<V>(d: Deferred<V>, k: nat, ids: seq<nat>)
    requires Inv(d) && UserRuns(d) && k < 6
    ensures Inv(Operate(d, k, Add(Users(ids))))
  {
    AllAtRest(d, k);
    AddIsGentle(d.lists[k], k, ids);
    GentleKeeps(d, k, AddFns(d.lists[k], Users(ids)));
  }

  lemma AllAtRest<V>(d: Deferred<V>, k: nat)
    requires AtRest(d) && k < 6
    ensures d.lists[k].pc.Idle? || d.lists[k].pc.InCall?
  {
    if !d.lists[k].pc.Idle? { assert k in d.stack; }
  }

  lemma {:induction false} UserRunsAfterWiring<V>(d: Deferred<V>)
    requires Inv(d) && UserRuns(d) && d.first.Some?
    ensures |d.lists[d.first.value.0].calls| >= 4
    ensures d.lists[PROGRESS].locked
  {
    var (w, v) := d.first.value;
    if |d.lists[w].calls| < 4 {
      assert Wired(d.lists[w], w) && OnceOk(d.lists[w]) && Top(d) == w && d.lists[w].pc.InCall?;
      hide OnceOk, Wired;
      CalleeInTurn(d.lists[w], w);
    }
    hide OnceOk, Wired, StackOk, UserRuns;
  }

  lemma FireKeepsWiring<V>(s: State<Fn, V>, k: nat, args: V)
    requires Wired(s, k)
    ensures var s' := Apply(s, Op<Fn, V>.Fire(args));
            Wired(s', k) && PcOk(s, s') && s'.calls == s.calls && (s.locked ==> s' == s)
  {
  }

  lemma AllLocked<V>(d: Deferred<V>, w: nat, v: V)
    requires |d.lists| == 6 && (w == DONE || w == FAIL) && Settling(d, w, v) && |d.lists[w].calls| >= 4
    ensures d.lists[PROGRESS].locked && d.lists[DONE].locked && d.lists[FAIL].locked
  {
  }

  /** Once user code runs after a resolve or reject, no action does anything any more. */
  lemma {:induction false} LateSettleIsIgnored<V>(d: Deferred<V>, k: nat, args: V)
    requires Inv(d) && UserRuns(d) && d.first.Some? && k <= FAIL
    ensures Perform(d, Settle(k, args)) == d
  {
    hide OnceOk, Wired;
    UserRunsAfterWiring(d);
    AllLocked(d, d.first.value.0, d.first.value.1);
    assert d.lists[k := d.lists[k]] == d.lists;
  }

  lemma {:induction false} NotifyKeeps<V>(d: Deferred<V>, args: V)
    requires Inv(d) && UserRuns(d)
    ensures Inv(Perform(d, Settle(PROGRESS, args)))
  {
    hide Settling, OnceOk, Wired;
    FireKeepsWiring(d.lists[PROGRESS], PROGRESS, args);
    GentleKeeps(d, PROGRESS, Apply(d.lists[PROGRESS], Op<Fn, V>.Fire(args)));
  }

  lemma {:induction false} FirstKeeps<V>(d: Deferred<V>, k: nat, args: V)
    requires Inv(d) && UserRuns(d) && d.first.None? && (k == DONE || k == FAIL)
    ensures Inv(Perform(d, Settle(k, args)))
  {
    hide Settling, OnceOk, Wired;
    var s' := Apply(d.lists[k], Op<Fn, V>.Fire(args));
    FireKeepsWiring(d.lists[k], k, args);
    PutKeepsStack(d, k, s');
    PutWired(d, k, s');
    FirstSettles(d, k, args);
    SettlingIgnoresFirst(Put(d, k, s'), k, args);
    RestIgnoresFirst(Put(d, k, s'), Some((k, args)));
    hide StackOk, AllWired, Apply, Put, UserRuns;
  }

  lemma RestIgnoresFirst<V>(d: Deferred<V>, first: Option<(nat, V)>)
    requires StackOk(d) && AllWired(d)
    ensures StackOk(d.(first := first)) && AllWired(d.(first := first))
  {
    hide Wired;
  }

  lemma SettlingIgnoresFirst<V>(d: Deferred<V>, w: nat, v: V)
    requires |d.lists| == 6 && (w == DONE || w == FAIL) && Settling(d, w, v)
    ensures Settling(d.(first := Some((w, v))), w, v)
  {
  }

  lemma FirstSettles<V>(d: Deferred<V>, k: nat, args: V)
    requires |d.lists| == 6 && Unsettled(d) && (k == DONE || k == FAIL)
    ensures Settling(Put(d, k, Apply(d.lists[k], Op<Fn, V>.Fire(args))), k, args)
  {
    assert OnceOk(d.lists[k]) && OnceOk(d.lists[DONE + FAIL - k]) && OnceOk(d.lists[Handlers(k)]) &&
           OnceOk(d.lists[Handlers(DONE + FAIL - k)]);
  }

  // -- the running list goes on

  lemma NoCallKeepsStack<V>(d: Deferred<V>, s': State<Fn, V>)
    requires StackOk(d) && d.stack != [] && !d.lists[Top(d)].pc.InCall?
    ensures StackOk(d.(lists := d.lists[Top(d) := s'],
                       stack := if s'.pc.Idle? then d.stack[..|d.stack| - 1] else d.stack))
  {
    var k, n := Top(d), |d.stack| - 1;
    var d' := d.(lists := d.lists[k := s'], stack := if s'.pc.Idle? then d.stack[..n] else d.stack);
    assert d.stack == d.stack[..n] + [k];
    assert !d.lists[k].pc.Idle?;
    forall j | 0 <= j < 6 ensures d'.lists[j].pc.Idle? <==> j !in d'.stack {
      assert d.lists[j].pc.Idle? <==> j !in d.stack;
      if s'.pc.Idle? && j == k {
        forall i | 0 <= i < n ensures d.stack[i] != k {}
      }
    }
  }

  /** The top list, advanced by one stretch of its loops. */
  function Ticked<V>(d: Deferred<V>): Deferred<V>
    requires Running(d).Some?
  {
    var s' := TickOf(Running(d).value);
    d.(lists := d.lists[Top(d) := s'], stack := if s'.pc.Idle? then d.stack[..|d.stack| - 1] else d.stack)
  }

  lemma {:induction false} TickedWired<V>(d: Deferred<V>)
    requires StackOk(d) && AllWired(d) && d.stack != []
    ensures AllWired(Ticked(d))
  {
    var k := Top(d);
    assert Wired(d.lists[k], k);
    TickKeepsWiring(d.lists[k], k);
    forall j | 0 <= j < 6 ensures Wired(Ticked(d).lists[j], j) { assert Wired(d.lists[j], j); }
  }

  lemma LockKeepsWiring<V>(s: State<Fn, V>, k: nat, op: Op<Fn, V>)
    requires Wired(s, k) && (op.Disable? || op.Lock?)
    ensures Wired(Apply(s, op), k) && PcOk(s, Apply(s, op)) && Apply(s, op).locked
  {
  }

  /** The n-th call of a once list is of the n-th function added to it. */
  lemma CalleeInTurn<V>(s: State<Fn, V>, k: nat)
    requires OnceOk(s) && Wired(s, k) && s.pc.InCall? && s.sent != []
    ensures s.calls != [] && s.memory.Some? && s.memory.value.args == s.sent[0]
    ensures |s.calls| <= |s.added| && Callee(s) == Some(s.added[|s.calls| - 1])
    ensures var n := |s.calls| - 1; if n < |Wiring(k)| then Callee(s) == Some(Wiring(k)[n]) else Callee(s).value.User?
  {
  }

  /** The winner's list cannot run out before its wiring has been called. */
  lemma {:induction false} WiringComesFirst<V>(s: State<Fn, V>, w: nat)
    requires OnceOk(s) && Wired(s, w) && s.sent != [] && (w == DONE || w == FAIL) && |s.calls| < 4
    requires s.pc.Outer? || s.pc.Inner?
    ensures OnceOk(TickOf(s)) && !TickOf(s).pc.Idle?
    ensures TickOf(s).pc.InCall? || TickOf(s).calls == s.calls
  {
    assert |s.added| >= 4;
    OnceTick(s);
  }

  /** Running an unrelated list, or the winner without a call, leaves the settling where it is. */
  lemma {:induction false} OtherRuns<V>(d: Deferred<V>, w: nat, v: V, k: nat, s': State<Fn, V>, stack: seq<nat>)
    requires |d.lists| == 6 && (w == DONE || w == FAIL) && Settling(d, w, v) && k < 6
    requires k == w ==> OnceOk(s') && s'.sent == [v] && s'.calls == d.lists[w].calls
    requires k == Handlers(w) ==> OnceOk(s') && s'.sent == d.lists[k].sent
    requires k == PROGRESS && d.lists[k].locked ==> s'.locked
    requires k != DONE + FAIL - w && k != Handlers(DONE + FAIL - w)
    requires |d.lists[w].calls| < 4 ==> stack != [] && stack[|stack| - 1] == w
    ensures Settling(d.(lists := d.lists[k := s'], stack := stack), w, v)
  {
  }

  /** One more call of the winner's list takes the settling one step on. */
  lemma {:induction false} WinnerEffect<V>(d: Deferred<V>, w: nat, v: V, s': State<Fn, V>, fn: Fn)
    requires |d.lists| == 6 && (w == DONE || w == FAIL) && Settling(d, w, v) && d.stack != [] && Top(d) == w
    requires OnceOk(s') && s'.sent == [v] && |s'.calls| == |d.lists[w].calls| + 1
    requires var n := |d.lists[w].calls|; if n < 4 then fn == Wiring(w)[n] else fn.User?
    ensures Settling(Effect(d.(lists := d.lists[w := s']), fn, v), w, v)
  {
    var n, d' := |d.lists[w].calls|, d.(lists := d.lists[w := s']);
    WiringEffect(d', w, n, fn, v);
    hide OnceOk, Dead, Wiring, Effect, Operate;
    match n
    case 0 =>
    case 1 => WinnerDisables(d, w, v, s'); hide Settling;
    case 2 => WinnerLocks(d, w, v, s'); hide Settling;
    case 3 => WinnerFires(d, w, v, s'); hide Settling;
    case _ =>
  }

  lemma WinnerDisables<V>(d: Deferred<V>, w: nat, v: V, s': State<Fn, V>)
    requires |d.lists| == 6 && (w == DONE || w == FAIL) && Settling(d, w, v) && d.stack != [] && Top(d) == w
    requires OnceOk(s') && s'.sent == [v] && |s'.calls| == 2 && |d.lists[w].calls| == 1
    ensures Settling(Operate(d.(lists := d.lists[w := s']), DONE + FAIL - w, Disable), w, v)
  {
    var loser := d.lists[DONE + FAIL - w];
    LoserDies(loser);
    assert Apply(loser, Op<Fn, V>.Disable).pc.Idle?;
    hide OnceOk, Dead, Apply;
  }

  lemma WinnerLocks<V>(d: Deferred<V>, w: nat, v: V, s': State<Fn, V>)
    requires |d.lists| == 6 && (w == DONE || w == FAIL) && Settling(d, w, v) && d.stack != [] && Top(d) == w
    requires OnceOk(s') && s'.sent == [v] && |s'.calls| == 3 && |d.lists[w].calls| == 2
    ensures Settling(Operate(d.(lists := d.lists[w := s']), PROGRESS, Lock), w, v)
  {
    LockLocks(d.lists[PROGRESS]);
    hide OnceOk, Dead, Apply;
  }

  lemma WinnerFires<V>(d: Deferred<V>, w: nat, v: V, s': State<Fn, V>)
    requires |d.lists| == 6 && (w == DONE || w == FAIL) && Settling(d, w, v) && d.stack != [] && Top(d) == w
    requires OnceOk(s') && s'.sent == [v] && |s'.calls| == 4 && |d.lists[w].calls| == 3
    ensures Settling(Operate(d.(lists := d.lists[w := s']), Handlers(w), Fire(v)), w, v)
  {
    HandlersFire(d.lists[Handlers(w)], v);
    hide OnceOk, Dead, Apply;
  }

  lemma LockLocks<V>(s: State<Fn, V>)
    ensures Apply(s, Op<Fn, V>.Lock).locked && Apply(s, Op<Fn, V>.Lock).pc == s.pc
  {
  }

  lemma WiringEffect<V>(d: Deferred<V>, w: nat, n: nat, fn: Fn, v: V)
    requires (w == DONE || w == FAIL) && if n < 4 then fn == Wiring(w)[n] else fn.User?
    ensures Effect(d, fn, v) == match n
                                case 0 => d.(phase := if w == DONE then Resolved else Rejected)
                                case 1 => Operate(d, DONE + FAIL - w, Disable)
                                case 2 => Operate(d, PROGRESS, Lock)
                                case 3 => Operate(d, Handlers(w), Fire(v))
                                case _ => d
  {
    hide Operate;
  }

  lemma LoserDies<V>(s: State<Fn, V>)
    requires OnceOk(s) && s.sent == []
    ensures Dead(Apply(s, Op<Fn, V>.Disable))
  {
  }

  lemma HandlersFire<V>(s: State<Fn, V>, v: V)
    requires OnceOk(s) && s.sent == []
    ensures OnceOk(Apply(s, Op<Fn, V>.Fire(v))) && Apply(s, Op<Fn, V>.Fire(v)).sent == [v]
  {
    OnceStep(s, Move<Fn, V>.Do(Fire(v)));
  }

  lemma {:induction false} EffectOn<V>(d: Deferred<V>, k: nat, op: Op<Fn, V>)
    requires AtRest(d) && AllWired(d) && k < 6 && (op.Disable? || op.Lock? || op.Fire?)
    ensures StackOk(Operate(d, k, op)) && AllWired(Operate(d, k, op))
  {
    assert Wired(d.lists[k], k);
    if op.Fire? { FireKeepsWiring(d.lists[k], k, op.args); } else { LockKeepsWiring(d.lists[k], k, op); }
    PutKeepsStack(d, k, Apply(d.lists[k], op));
    PutWired(d, k, Apply(d.lists[k], op));
  }

  /** Wiring callbacks only touch existing lists, and never the stack below the running one. */
  lemma {:induction false} EffectKeeps<V>(d: Deferred<V>, k: nat, n: nat, args: V)
    requires AtRest(d) && AllWired(d) && k < 6 && n < |Wiring(k)|
    ensures StackOk(Effect(d, Wiring(k)[n], args)) && AllWired(Effect(d, Wiring(k)[n], args))
  {
    assert StackOk(d);
    match Wiring(k)[n]
    case SetState(phase) => PhaseIsNoMatter(d, phase); hide StackOk, AllWired;
    case DisableList(j) => hide StackOk, AllWired, Operate, AtRest; EffectOn(d, j, Disable);
    case LockList(j) => hide StackOk, AllWired, Operate, AtRest; EffectOn(d, j, Lock);
    case FireHandlers(j) => hide StackOk, AllWired, Operate, AtRest; EffectOn(d, j, Fire(args));
    case User(_) =>
  }

  lemma PhaseIsNoMatter<V>(d: Deferred<V>, phase: Phase)
    requires StackOk(d) && AllWired(d)
    ensures StackOk(d.(phase := phase)) && AllWired(d.(phase := phase))
  {
    hide Wired;
  }

  lemma {:induction false} WinnerTick<V>(s: State<Fn, V>, w: nat, v: V)
    requires OnceOk(s) && Wired(s, w) && s.sent == [v] && (s.pc.Outer? || s.pc.Inner?) && TickOf(s).pc.InCall?
    ensures var s', n := TickOf(s), |s.calls|;
            && OnceOk(s') && s'.sent == [v] && |s'.calls| == n + 1 && s'.memory.Some? && s'.memory.value.args == v
            && Callee(s').Some? && if n < |Wiring(w)| then Callee(s').value == Wiring(w)[n] else Callee(s').value.User?
  {
    OnceTick(s);
    TickKeepsWiring(s, w);
    CalleeInTurn(TickOf(s), w);
  }

  lemma {:induction false} CallShape<V>(d: Deferred<V>, args: V)
    requires Running(d).Some?
    requires var s' := TickOf(Running(d).value);
             !Running(d).value.pc.InCall? && s'.pc.InCall? && s'.memory.Some? && s'.memory.value.args == args &&
             Callee(s').Some?
    ensures Ticked(d) == d.(lists := d.lists[Top(d) := TickOf(Running(d).value)])
    ensures RunTop(d) == Effect(Ticked(d), Callee(TickOf(Running(d).value)).value, args)
  {
  }

  /** A call of the running list, its effect included, keeps the stack and the wiring. */
  lemma {:induction false} CallKeepsRest<V>(d: Deferred<V>, args: V)
    requires StackOk(d) && AllWired(d) && d.stack != [] && !d.lists[Top(d)].pc.InCall?
    requires var s', k := TickOf(d.lists[Top(d)]), Top(d);
             s'.pc.InCall? && s'.memory.Some? && s'.memory.value.args == args && Callee(s').Some? &&
             (Callee(s').value.User? || exists n :: 0 <= n < |Wiring(k)| && Callee(s').value == Wiring(k)[n])
    ensures StackOk(RunTop(d)) && AllWired(RunTop(d)) && RunTop(d).first == d.first
  {
    hide Wired, TickOf, Callee, RunTop;
    var s', k := TickOf(d.lists[Top(d)]), Top(d);
    CallShape(d, args);
    TickedWired(d);
    NoCallKeepsStack(d, s');
    assert Running(d) == Some(d.lists[k]) && k < 6 && AtRest(Ticked(d));
    hide StackOk, AllWired, Ticked, AtRest;
    if !Callee(s').value.User? {
      var n :| 0 <= n < |Wiring(k)| && Callee(s').value == Wiring(k)[n];
      EffectKeeps(Ticked(d), k, n, args);
      EffectKeepsFirst(Ticked(d), Wiring(k)[n], args);
    }
  }

  lemma EffectKeepsFirst<V>(d: Deferred<V>, fn: Fn, args: V)
    ensures Effect(d, fn, args).first == d.first
  {
  }

  lemma {:induction false} WinnerCalls<V>(d: Deferred<V>, w: nat, v: V)
    requires StackOk(d) && AllWired(d) && (w == DONE || w == FAIL) && Settling(d, w, v) && d.stack != [] && Top(d) == w
    requires (d.lists[w].pc.Outer? || d.lists[w].pc.Inner?) && TickOf(d.lists[w]).pc.InCall?
    ensures StackOk(RunTop(d)) && AllWired(RunTop(d)) && RunTop(d).first == d.first
    ensures Settling(RunTop(d), w, v)
  {
    hide OnceOk, Effect;
    assert Wired(d.lists[w], w) && OnceOk(d.lists[w]);
    WinnerTick(d.lists[w], w, v);
    CallKeepsRest(d, v);
    CallShape(d, v);
    WinnerEffect(d, w, v, TickOf(d.lists[w]), Callee(TickOf(d.lists[w])).value);
  }

  /** Which lists can be running. */
  lemma {:induction false} WhoRuns<V>(d: Deferred<V>)
    requires Inv(d) && d.stack != []
    ensures match d.first
            case None => Top(d) == PROGRESS || Top(d) == Handlers(PROGRESS)
            case Some((w, _)) =>
              (w == DONE || w == FAIL) &&
              (Top(d) == w || Top(d) == Handlers(w) || Top(d) == PROGRESS || Top(d) == Handlers(PROGRESS))
  {
    hide Wired;
    var k := Top(d);
    assert k in d.stack && !d.lists[k].pc.Idle?;
  }

  /** The running list becomes s' without a call and without sending anything. */
  lemma {:induction false} QuietCourse<V>(d: Deferred<V>, s': State<Fn, V>, stack: seq<nat>)
    requires Inv(d) && d.stack != []
    requires var k, s := Top(d), d.lists[Top(d)];
             s'.sent == s.sent && s'.calls == s.calls && (s.locked ==> s'.locked) && (OnceOk(s) ==> OnceOk(s'))
    requires stack == d.stack ||
             (d.first.Some? ==> |d.lists[d.first.value.0].calls| >= 4)
    ensures Course(d.(lists := d.lists[Top(d) := s'], stack := stack))
  {
    hide Wired, OnceOk;
    WhoRuns(d);
    match d.first
    case None =>
    case Some((w, v)) => OtherRuns(d, w, v, Top(d), s', stack);
  }

  /** A step of a list's own loops that makes no call. */
  ghost predicate Quiet<V>(s: State<Fn, V>, s': State<Fn, V>, k: nat) {
    Wired(s', k) && s'.sent == s.sent && s'.calls == s.calls && (s.locked ==> s'.locked) && (OnceOk(s) ==> OnceOk(s'))
  }

  lemma ReturnIsQuiet<V>(s: State<Fn, V>, k: nat, isFalse: bool)
    requires Wired(s, k) && s.pc.InCall?
    ensures Quiet(s, ReturnOf(s, isFalse), k)
  {
    if OnceOk(s) { OnceStep(s, Move<Fn, V>.Return(isFalse)); }
  }

  lemma {:induction false} TickIsQuiet<V>(s: State<Fn, V>, k: nat)
    requires Wired(s, k) && (s.pc.Outer? || s.pc.Inner?) && !TickOf(s).pc.InCall?
    ensures Quiet(s, TickOf(s), k)
  {
    TickKeepsWiring(s, k);
    if OnceOk(s) { OnceTick(s); }
  }

  lemma TopIsRunning<V>(d: Deferred<V>)
    requires StackOk(d) && AllWired(d) && d.stack != []
    ensures !d.lists[Top(d)].pc.Idle? && Wired(d.lists[Top(d)], Top(d))
  {
    assert Top(d) in d.stack;
  }

  lemma QuietRest<V>(d: Deferred<V>, s': State<Fn, V>)
    requires StackOk(d) && AllWired(d) && d.stack != [] && Wired(s', Top(d)) && !s'.pc.Idle?
    ensures var d' := d.(lists := d.lists[Top(d) := s']); StackOk(d') && AllWired(d')
  {
    TopIsRunning(d);
    var d' := d.(lists := d.lists[Top(d) := s']);
    forall j | 0 <= j < 6 ensures Wired(d'.lists[j], j) { assert Wired(d.lists[j], j); }
  }

  lemma {:induction false} ReturnKeeps<V>(d: Deferred<V>, isFalse: bool)
    requires Inv(d) && d.stack != [] && d.lists[Top(d)].pc.InCall?
    ensures Inv(d.(lists := d.lists[Top(d) := ReturnOf(d.lists[Top(d)], isFalse)]))
  {
    TopIsRunning(d);
    var s' := ReturnOf(d.lists[Top(d)], isFalse);
    ReturnIsQuiet(d.lists[Top(d)], Top(d), isFalse);
    QuietRest(d, s');
    QuietCourse(d, s', d.stack);
  }

  /** The winner's list does not come to rest before its wiring has been called. */
  lemma {:induction false} NoEarlyEnd<V>(d: Deferred<V>)
    requires Inv(d) && d.stack != [] && !d.lists[Top(d)].pc.InCall? && TickOf(d.lists[Top(d)]).pc.Idle?
    ensures d.first.Some? ==> |d.lists[d.first.value.0].calls| >= 4
  {
    TopIsRunning(d);
    if d.first.Some? && |d.lists[d.first.value.0].calls| < 4 { WiringComesFirst(d.lists[Top(d)], Top(d)); }
  }

  lemma {:induction false} NoCallKeeps<V>(d: Deferred<V>)
    requires Inv(d) && d.stack != [] && !d.lists[Top(d)].pc.InCall? && !TickOf(d.lists[Top(d)]).pc.InCall?
    ensures Inv(Ticked(d))
  {
    hide OnceOk, Wired, Settling, Unsettled;
    TopIsRunning(d);
    var s' := TickOf(d.lists[Top(d)]);
    TickIsQuiet(d.lists[Top(d)], Top(d));
    TickedWired(d);
    NoCallKeepsStack(d, s');
    if s'.pc.Idle? { NoEarlyEnd(d); }
    QuietCourse(d, s', Ticked(d).stack);
  }

  /** A call made by a list other than the winner's. */
  lemma OtherCalls<V>(d: Deferred<V>)
    requires Inv(d) && d.stack != [] && !d.lists[Top(d)].pc.InCall? && TickOf(d.lists[Top(d)]).pc.InCall?
    requires d.first.Some? ==> Top(d) != d.first.value.0
    ensures Inv(RunTop(d))
  {
    var k, s' := Top(d), TickOf(d.lists[Top(d)]);
    TopIsRunning(d);
    OtherCallee(d.lists[k], k);
    var args := s'.memory.value.args;
    CallKeepsRest(d, args);
    OtherCallCourse(d, args);
    hide *;
    InvIs(RunTop(d));
  }

  lemma InvIs<V>(d: Deferred<V>)
    ensures Inv(d) <==> StackOk(d) && AllWired(d) && Course(d)
  {
    hide AllWired, Course;
  }

  lemma OtherCallCourse<V>(d: Deferred<V>, args: V)
    requires Inv(d) && d.stack != [] && !d.lists[Top(d)].pc.InCall? && (d.first.Some? ==> Top(d) != d.first.value.0)
    requires var s' := TickOf(d.lists[Top(d)]);
             s'.pc.InCall? && s'.memory.Some? && s'.memory.value.args == args && Callee(s').Some? &&
             (Callee(s').value.User? || exists n :: 0 <= n < |Wiring(Top(d))| && Callee(s').value == Wiring(Top(d))[n])
    ensures Course(RunTop(d))
  {
    TopIsRunning(d);
    WhoRuns(d);
    CallShape(d, args);
    hide StackOk, AllWired, Course, RunTop, Operate, Callee, Wired, TickOf;
    OtherTicked(d, TickOf(d.lists[Top(d)]));
    if Top(d) == PROGRESS && !Callee(TickOf(d.lists[Top(d)])).value.User? { HandlersCourse(Ticked(d), args); }
  }

  lemma OtherTicked<V>(d: Deferred<V>, s': State<Fn, V>)
    requires Inv(d) && d.stack != [] && !d.lists[Top(d)].pc.InCall? && (d.first.Some? ==> Top(d) != d.first.value.0)
    requires s' == TickOf(d.lists[Top(d)])
    ensures var d1 := d.(lists := d.lists[Top(d) := s']);
            Course(d1) && (d1.first.Some? ==> |d1.lists[d1.first.value.0].calls| >= 4)
  {
    TopIsRunning(d);
    if OnceOk(d.lists[Top(d)]) { OnceTick(d.lists[Top(d)]); }
    hide OnceOk, TickOf, Course;
    TickKeepsWiring(d.lists[Top(d)], Top(d));
    OtherCourse(d, s');
  }

  lemma HandlersCourse<V>(d: Deferred<V>, args: V)
    requires |d.lists| == 6 && Course(d) && (d.first.Some? ==> |d.lists[d.first.value.0].calls| >= 4)
    ensures Course(Operate(d, Handlers(PROGRESS), Fire(args)))
  {
    hide OnceOk, Wired;
    match d.first
    case None =>
    case Some((w, v)) =>
      var k := Handlers(PROGRESS);
      var d' := Operate(d, k, Fire(args));
      OtherRuns(d, w, v, k, d'.lists[k], d'.stack);
  }

  lemma OtherCallee<V>(s: State<Fn, V>, k: nat)
    requires Wired(s, k) && (s.pc.Outer? || s.pc.Inner?) && TickOf(s).pc.InCall?
    ensures var s' := TickOf(s); s'.memory.Some? && Callee(s').Some?
    ensures var fn := Callee(TickOf(s)).value; fn.User? || exists n :: 0 <= n < |Wiring(k)| && fn == Wiring(k)[n]
  {
    TickKeepsWiring(s, k);
    var s' := TickOf(s);
    var c := s'.calls[|s'.calls| - 1];
    assert c in s'.calls;
    if c.id < |Wiring(k)| { assert c.fn == Wiring(k)[c.id]; }
  }

  lemma {:induction false} OtherCourse<V>(d: Deferred<V>, s': State<Fn, V>)
    requires Inv(d) && d.stack != [] && (d.first.Some? ==> Top(d) != d.first.value.0)
    requires var k, s := Top(d), d.lists[Top(d)];
             s'.sent == s.sent && (s.locked ==> s'.locked) && (OnceOk(s) ==> OnceOk(s'))
    ensures var d1 := d.(lists := d.lists[Top(d) := s']);
            Course(d1) && (d1.first.Some? ==> |d1.lists[d1.first.value.0].calls| >= 4)
  {
    hide OnceOk, Wired;
    WhoRuns(d);
    match d.first
    case None =>
    case Some((w, v)) => OtherRuns(d, w, v, Top(d), s', d.stack);
  }

  lemma {:induction false} RunKeeps<V>(d: Deferred<V>)
    requires Inv(d) && d.stack != []
    ensures Inv(RunTop(d))
  {
    hide OnceOk, Wired, Settling, Unsettled, Effect;
    TopIsRunning(d);
    var s := d.lists[Top(d)];
    if s.pc.InCall? {
      ReturnKeeps(d, false);
    } else if !TickOf(s).pc.InCall? {
      NoCallKeeps(d);
    } else if d.first.Some? && Top(d) == d.first.value.0 {
      WinnerCalls(d, d.first.value.0, d.first.value.1);
    } else {
      OtherCalls(d);
    }
  }

  lemma {:induction false} PerformKeeps<V>(d: Deferred<V>, a: Act<V>)
    requires Inv(d)
    ensures Inv(Perform(d, a))
  {
    hide OnceOk, Wired, Settling, Unsettled, RunTop, Effect;
    match a
    case Settle(k, args) =>
      if k <= FAIL && UserRuns(d) {
        if k == PROGRESS { NotifyKeeps(d, args); }
        else if d.first.None? { FirstKeeps(d, k, args); }
        else { LateSettleIsIgnored(d, k, args); }
      }
    case On(k, ids) => if k < 6 && UserRuns(d) { OnKeeps(d, k, ids); }
    case Run => if d.stack != [] { RunKeeps(d); }
    case Leave(isFalse) => if d.stack != [] && UserRuns(d) { ReturnKeeps(d, isFalse); }
  }

  lemma CreatedList<V>(k: nat)
    requires k < 6
    ensures var s := AddFns(Fresh<Fn, V>(OptionsOf(k)), Wiring(k)); Wired(s, k) && s.pc.Idle? && s.sent == []
  {
    PushAppends(Fresh<Fn, V>(OptionsOf(k)), Wiring(k));
    BackedGrows<V>([], [], [], Wiring(k));
  }

  lemma {:induction false} CreateOk<V>()
    ensures Inv(Create<V>())
  {
    var d := Create<V>();
    forall k | 0 <= k < 6
      ensures Wired(d.lists[k], k) && d.lists[k].pc.Idle? && (OptionsOf(k) == ONCE_MEMORY ==> OnceOk(d.lists[k])) &&
              d.lists[k].sent == []
    {
      CreatedList<V>(k);
      if OptionsOf(k) == ONCE_MEMORY { OnceAdd(Fresh<Fn, V>(ONCE_MEMORY), Wiring(k)); }
      hide Wired, AddFns;
    }
    assert |d.lists| == 6 && d.stack == [] && d.phase.Pending? && d.first.None?;
    hide Create, Wired, OnceOk;
  }

  lemma {:induction false} InvAlways<V>(acts: seq<Act<V>>)
    ensures Inv(Exec(acts))
  {
    hide Inv;
    if acts == [] {
      CreateOk<V>();
    } else {
      InvAlways(acts[..|acts| - 1]);
      PerformKeeps(Exec(acts[..|acts| - 1]), acts[|acts| - 1]);
    }
  }

  // ---------------------------------------------------------------- settle once

  /** What user code can see of how far list k has got never shrinks. */
  ghost predicate Later<V>(d: Deferred<V>, d': Deferred<V>) {
    && |d.lists| == |d'.lists|
    && (d.first.Some? ==> d'.first == d.first)
    && (forall k :: 0 <= k < |d.lists| ==>
          |d.lists[k].calls| <= |d'.lists[k].calls| &&
          (d.lists[k].locked ==> d'.lists[k].locked && d'.lists[k].sent == d.lists[k].sent))
  }

  lemma OperateLater<V>(d: Deferred<V>, k: nat, op: Op<Fn, V>)
    requires op.Add? ==> k < |d.lists| ==> !d.lists[k].opts.unique
    requires !op.Remove?
    ensures Later(d, Operate(d, k, op))
  {
    if k < |d.lists| && op.Add? {
      var s := d.lists[k];
      PushAppends(s, op.fns);
      if s.memory.Some? { PushAppends(s.(firingIndex := |s.list| - 1, queue := s.queue + [s.memory.value]), op.fns); }
    }
  }

  lemma {:induction false} PerformLater<V>(d: Deferred<V>, a: Act<V>)
    requires Inv(d)
    ensures Later(d, Perform(d, a))
  {
    LaterItself(d);
    match a
    case Settle(k, args) => SettleLater(d, k, args);
    case On(k, ids) =>
      if k < 6 { NotUnique(d, k); }
      hide Inv, Operate, UserRuns, Later;
      OperateLater(d, k, Add(Users(ids)));
    case Run =>
      if d.stack != [] { StackInRange(d); }
      hide Inv, Later, RunTop;
      if d.stack != [] { RunLater(d); }
    case Leave(isFalse) =>
      if d.stack != [] { StackInRange(d); }
      hide Inv, UserRuns, Later;
      if d.stack != [] { ReturnLater(d, Top(d), isFalse); }
  }

  lemma NotUnique<V>(d: Deferred<V>, k: nat)
    requires Inv(d) && k < 6
    ensures !d.lists[k].opts.unique
  {
    assert Wired(d.lists[k], k);
    hide Backed, WiredFirst, StackOk, Course;
  }

  lemma StackInRange<V>(d: Deferred<V>)
    requires Inv(d) && d.stack != []
    ensures Top(d) < |d.lists|
  {
    hide AllWired, Course;
  }

  lemma SettleLater<V>(d: Deferred<V>, k: nat, args: V)
    ensures Later(d, Perform(d, Settle(k, args)))
  {
    hide UserRuns;
    LaterItself(d);
    OperateLater(d, k, Fire(args));
    hide Operate;
  }

  lemma ReturnLater<V>(d: Deferred<V>, k: nat, isFalse: bool)
    requires k < |d.lists|
    ensures Later(d, d.(lists := d.lists[k := ReturnOf(d.lists[k], isFalse)]))
  {
  }

  lemma {:induction false} RunLater<V>(d: Deferred<V>)
    requires d.stack != [] && Top(d) < |d.lists|
    ensures Later(d, RunTop(d))
  {
    var s, s' := d.lists[Top(d)], TickOf(d.lists[Top(d)]);
    if s.pc.InCall? {
      hide TickOf, Effect;
    } else {
      TickedLater(d);
      RunTopIs(d);
      hide TickOf, Ticked, Later, RunTop;
      if s'.pc.InCall? && s'.memory.Some? && Callee(s').Some? {
        EffectLater(Ticked(d), Callee(s').value, s'.memory.value.args);
        LaterStill(d, Ticked(d), Effect(Ticked(d), Callee(s').value, s'.memory.value.args));
      }
    }
  }

  lemma RunTopIs<V>(d: Deferred<V>)
    requires Running(d).Some? && !Running(d).value.pc.InCall?
    ensures var s' := TickOf(Running(d).value);
            RunTop(d) == if s'.pc.InCall? && s'.memory.Some? && Callee(s').Some?
                         then Effect(Ticked(d), Callee(s').value, s'.memory.value.args) else Ticked(d)
  {
    hide Effect, TickOf, Callee;
  }

  lemma TickedLater<V>(d: Deferred<V>)
    requires Running(d).Some?
    ensures Later(d, Ticked(d))
  {
  }

  lemma EffectLater<V>(d: Deferred<V>, fn: Fn, args: V)
    ensures Later(d, Effect(d, fn, args))
  {
    match fn
    case DisableList(j) => OperateLater(d, j, Disable); hide Operate, Later;
    case LockList(j) => OperateLater(d, j, Lock); hide Operate, Later;
    case FireHandlers(j) => OperateLater(d, j, Fire(args)); hide Operate, Later;
    case _ =>
  }

  lemma {:induction false} ExecLater<V>(acts: seq<Act<V>>, more: seq<Act<V>>)
    ensures Later(Exec(acts), Exec(acts + more))
  {
    ConcatLast(acts, more);
    hide Inv, Later, Perform;
    if more == [] {
      LaterItself(Exec(acts));
    } else {
      var n := |more| - 1;
      ExecLater(acts, more[..n]);
      InvAlways(acts + more[..n]);
      PerformLater(Exec(acts + more[..n]), more[n]);
      LaterStill(Exec(acts), Exec(acts + more[..n]), Perform(Exec(acts + more[..n]), more[n]));
    }
  }

  lemma LaterItself<V>(d: Deferred<V>)
    ensures Later(d, d)
  {
  }

  lemma LaterStill<V>(d: Deferred<V>, d': Deferred<V>, d'': Deferred<V>)
    requires Later(d, d') && Later(d', d'')
    ensures Later(d, d'')
  {
  }

  /**
   The state leaves "pending" at most once, to what the first resolve or reject call says, and never changes
   again.
  */
  lemma StateIsFinal<V>(acts: seq<Act<V>>, more: seq<Act<V>>)
    ensures !Exec(acts).phase.Pending? ==> Exec(acts + more).phase == Exec(acts).phase
    ensures var d := Exec(acts);
            !d.phase.Pending? ==> d.first.Some? && d.phase == if d.first.value.0 == DONE then Resolved else Rejected
    ensures Exec(acts).stack == [] ==> (Exec(acts).phase.Pending? <==> Exec(acts).first.None?)
  {
    hide OnceOk, Wired;
    InvAlways(acts);
    InvAlways(acts + more);
    ExecLater(acts, more);
  }

  /** Done and fail callbacks never both run, nor do their handlers, and all of them get the first call's arguments. */
  lemma {:induction false} OneOutcome<V>(acts: seq<Act<V>>, k: nat, c: Call<Fn, V>)
    requires k == DONE || k == FAIL || k == Handlers(DONE) || k == Handlers(FAIL)
    requires c in Exec(acts).lists[k].calls
    ensures var first := Exec(acts).first;
            first.Some? && (k == first.value.0 || k == Handlers(first.value.0)) && c.event.args == first.value.1
  {
    hide OnceOk, Wired, Exec;
    InvAlways(acts);
    var s := Exec(acts).lists[k];
    if OnceOk(s) { CallsCarry(s, c); }
  }

  lemma CallsCarry<V>(s: State<Fn, V>, c: Call<Fn, V>)
    requires OnceOk(s) && c in s.calls
    ensures |s.sent| == 1 && c.event.args == s.sent[0]
  {
    var i :| 0 <= i < |s.calls| && s.calls[i] == c;
  }

  /** Once user code runs after the first resolve or reject, no further notification is ever accepted. */
  lemma {:induction false} NoLateNotification<V>(acts: seq<Act<V>>, more: seq<Act<V>>)
    requires Exec(acts).first.Some? && UserRuns(Exec(acts))
    ensures Exec(acts + more).lists[PROGRESS].sent == Exec(acts).lists[PROGRESS].sent
  {
    hide OnceOk, Wired;
    InvAlways(acts);
    ExecLater(acts, more);
    UserRunsAfterWiring(Exec(acts));
  }

  lemma OnceAtRest<V>(s: State<Fn, V>, v: V)
    requires OnceOk(s) && s.pc.Idle? && s.sent == [v]
    ensures |s.calls| == |s.added| && CalledInTurn(s.calls, s.added, Event(v, 0))
  {
  }

  /**
   Once a settled deferred has come to rest, every callback added to the winner's list or to its handlers, before,
   while or after it was settled, has run exactly once, in the order added and with the first call's arguments; the
   other side's have not run at all.
  */
  lemma {:induction false} EachCallbackRunsOnce<V>(acts: seq<Act<V>>)
    requires Exec(acts).stack == [] && Exec(acts).first.Some?
    ensures var d := Exec(acts);
            var (w, v) := d.first.value;
            (w == DONE || w == FAIL) &&
            forall k :: k == w || k == Handlers(w) ==>
              |d.lists[k].calls| == |d.lists[k].added| && CalledInTurn(d.lists[k].calls, d.lists[k].added, Event(v, 0))
    ensures var d := Exec(acts);
            var loser := DONE + FAIL - d.first.value.0;
            d.lists[loser].calls == [] && d.lists[Handlers(loser)].calls == []
  {
    hide Exec;
    InvAlways(acts);
    var d := Exec(acts);
    var (w, v) := d.first.value;
    UserRunsAfterWiring(d);
    assert d.lists[w].pc.Idle? && d.lists[Handlers(w)].pc.Idle?;
    hide OnceOk, Wired;
    OnceAtRest(d.lists[w], v);
    OnceAtRest(d.lists[Handlers(w)], v);
    NobodyCalled(d.lists[Handlers(DONE + FAIL - w)]);
  }

  lemma NobodyCalled<V>(s: State<Fn, V>)
    requires OnceOk(s) && s.sent == []
    ensures s.calls == []
  {
  }
}
