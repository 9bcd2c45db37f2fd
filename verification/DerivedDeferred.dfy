/**
 Deferred#then as objects: three handlers in the parent's lists, the resolution procedure between, and a second
 deferred that it settles.
*/
module DerivedDeferreds {
  import opened Lists
  import opened Callbacks
  import opened Deferreds
  import opened DeferredSteps
  import opened DeferredNotices
  import opened DeferredObjects
  import Procedure = ThenResolution

  /** What the derived deferred is notified, resolved or rejected with. */
  datatype Args = Value(v: nat) | Failure(reason: Procedure.Reason)

  function ArgsOf(o: Procedure.Outcome): Args {
    match o
    case Resolved(v) => Value(v)
    case Rejected(e) => Failure(e)
  }

  /** The list that is fired for an outcome. */
  function SideOf(o: Procedure.Outcome): nat {
    if o.Resolved? then DONE else FAIL
  }

  // ---------------------------------------------------------------- one call at the derived deferred

  /** The last call of user code is on record, and after it nothing but listening. */
  lemma OnlyListened<V>(acts: seq<Turn<V>>, acts': seq<Turn<V>>, script: seq<Turn<V>>, rest: seq<Turn<V>>)
    requires Took(acts, acts', script, rest) && Listens(script)
    ensures acts <= acts' && acts' == acts + acts'[|acts|..] && Listens(acts'[|acts|..])
  {
    var more := acts'[|acts|..];
    assert acts' == acts + more;
    ByUsersParts(acts, more);
    var n: nat :| TookBy(ByUsers(acts), ByUsers(acts'), script, rest, n);
    hide ByUsers;
    var m := |script| - |rest|;
    assert ByUsers(acts) + script[..m] + Returns(n) == ByUsers(acts) + (script[..m] + Returns(n));
    SameTail(ByUsers(acts), ByUsers(more), script[..m] + Returns(n));
    forall a | a in more ensures !a.Settle? {
      if !a.Run? { assert a in script[..m] || a in Returns<V>(n); }
    }
  }

  lemma ByUsersParts<V>(acts: seq<Turn<V>>, more: seq<Turn<V>>)
    ensures ByUsers(acts + more) == ByUsers(acts) + ByUsers(more)
    ensures forall a :: a in more && !a.Run? ==> a in ByUsers(more)
  {
    KeptAppend(acts, more, (a: Turn<V>) => !a.Run?);
    forall a | a in more && !a.Run? ensures a in ByUsers(more) { KeptIn(more, (a: Turn<V>) => !a.Run?, a); }
  }

  lemma SameTail<T>(a: seq<T>, b: seq<T>, c: seq<T>)
    requires a + b == a + c
    ensures b == c
  {
    assert (a + b)[|a|..] == b && (a + c)[|a|..] == c;
  }

  /** What notifyWith, resolveWith and rejectWith come to when called at rest, whatever callbacks then do. */
  lemma CallIsAccepted<V>(acts: seq<Turn<V>>, k: nat, args: V, acts': seq<Turn<V>>, script: seq<Turn<V>>,
                          rest: seq<Turn<V>>)
    requires k <= FAIL && Deferreds.Exec(acts).stack == [] && Listens(script)
    requires Took(acts + [Deferreds.Settle(k, args)], acts', script, rest)
    ensures var d, d' := Deferreds.Exec(acts), Deferreds.Exec(acts');
            && d'.first == (if d.first.Some? || k == PROGRESS then d.first else Some((k, args)))
            && d'.lists[PROGRESS].sent == d.lists[PROGRESS].sent + if d.first.None? && k == PROGRESS then [args] else []
  {
    var d, a := Deferreds.Exec(acts), Deferreds.Settle(k, args);
    hide Deferreds.Exec, Took, Inv, Listens, Perform;
    OnlyListened(acts + [a], acts', script, rest);
    ListeningKeeps(acts + [a], acts'[|acts + [a]|..]);
    ExecOneMore(acts, a);
    InvAlways(acts);
    NotifiedUntilSettled(acts);
    SettleIsAccepted(d, k, args);
  }

  lemma SettleIsAccepted<V>(d: Deferred<V>, k: nat, args: V)
    requires Inv(d) && d.stack == [] && k <= FAIL && |d.lists| == 6
    requires d.first.None? ==> !d.lists[PROGRESS].locked
    ensures var d' := Perform(d, Settle(k, args));
            && |d'.lists| == 6
            && d'.first == (if d.first.Some? || k == PROGRESS then d.first else Some((k, args)))
            && d'.lists[PROGRESS].sent == d.lists[PROGRESS].sent + if d.first.None? && k == PROGRESS then [args] else []
  {
    assert UserRuns(d);
    if d.first.Some? {
      LateSettleIsIgnored(d, k, args);
      hide *;
    } else {
      hide Inv, UserRuns;
    }
  }

  // ---------------------------------------------------------------- the closure

  /** The derived deferred has been resolved, rejected and notified as the procedure says. */
  ghost predicate Follows(d: Deferred<Args>, outcome: Option<Procedure.Outcome>, notes: seq<nat>)
    requires |d.lists| == 6
  {
    && d.first == (if outcome.None? then None else Some((SideOf(outcome.value), ArgsOf(outcome.value))))
    && d.lists[PROGRESS].sent == seq(|notes|, i requires 0 <= i < |notes| => Value(notes[i]))
  }

  lemma FollowsNote(d: Deferred<Args>, d': Deferred<Args>, notes: seq<nat>, v: nat)
    requires |d.lists| == 6 == |d'.lists| && Follows(d, None, notes) && d'.first == d.first
    requires d'.lists[PROGRESS].sent == d.lists[PROGRESS].sent + [Value(v)]
    ensures Follows(d', None, notes + [v])
  {
  }

  /** What mightThrow does to the procedure. */
  function Handled(p: Procedure.Process, depth: nat, result: Procedure.Result, special: bool): Procedure.Process {
    if depth < p.maxDepth then p
    else if result == Procedure.Returned(Procedure.Thenable) then
      if special then p.(frames := p.frames + [Procedure.Progress])
      else p.(maxDepth := p.maxDepth + 1, frames := p.frames + [Procedure.Adopting(depth)])
    else if result.Returned? && result.value.Plain? && p.outcome.None? then
      if special then p.(notes := p.notes + [result.value.v])
      else p.(outcome := Some(Procedure.Resolved(result.value.v)))
    else p
  }

  function ThrownBy(p: Procedure.Process, depth: nat, result: Procedure.Result): Option<Procedure.Reason> {
    if depth < p.maxDepth then None
    else match Procedure.Terminal(result) case Some(Rejected(e)) => Some(e) case _ => None
  }

  /** mightThrow and its catch are the procedure's step. */
  lemma CallIsStep(p: Procedure.Process, depth: nat, result: Procedure.Result)
    requires depth <= p.maxDepth
    ensures var p', thrown := Handled(p, depth, result, false), ThrownBy(p, depth, result);
            Procedure.Step(p, Procedure.Call(depth, result)) ==
              if thrown.Some? && depth + 1 >= p'.maxDepth then Procedure.Settle(p', Procedure.Rejected(thrown.value))
              else p'
  {
  }

  lemma NotifyIsStep(p: Procedure.Process, depth: nat, result: Procedure.Result)
    requires depth <= p.maxDepth
    ensures Procedure.Step(p, Procedure.Notify(depth, result)) == Handled(p, depth, result, true)
  {
  }

  /** The closure that `then` makes: maxDepth, shared by all its resolvers, and the deferred they settle. */
  class Resolution {
    var maxDepth: nat
    const derived: DeferredObject<Args>
    /** The then methods running, innermost last: JavaScript's own stack. */
    var frames: seq<Procedure.Frame>
    /** What has happened so far. */
    ghost var history: seq<Procedure.Happening>

    ghost predicate Ready()
      reads derived, derived.lists
    {
      derived.Six() && derived.Valid() && derived.Now().stack == []
    }

    ghost predicate Shows(p: Procedure.Process)
      reads this`maxDepth, this`frames, derived
    {
      maxDepth == p.maxDepth && frames == p.frames && Follows(derived.Now(), p.outcome, p.notes)
    }

    ghost predicate Valid()
      reads this, derived, derived.lists
    {
      Ready() && Shows(Procedure.Run(history))
    }

    constructor ()
      ensures Valid() && history == [] && fresh(derived) && fresh(derived.lists)
    {
      derived := new DeferredObject();
      maxDepth, frames, history := 0, [], [];
      new;
      CreatedLists<Args>();
      AddGrows(Fresh<Fn, Args>(OptionsOf(PROGRESS)), Wiring(PROGRESS));
    }

    lemma ValidMeans()
      requires Valid()
      ensures Ready() && Shows(Procedure.Run(history)) && maxDepth == Procedure.Run(history).maxDepth
    {
      hide Follows, Procedure.Run;
    }

    lemma ValidIf()
      requires Ready() && Shows(Procedure.Run(history))
      ensures Valid()
    {
    }

    /** notifyWith, resolveWith or rejectWith of the derived deferred; its callbacks only listen. */
    method Send(k: nat, args: Args, script: seq<Turn<Args>>)
      requires Ready() && Listens(script) && NoRuns(script) && k <= FAIL
      modifies derived, derived.lists
      ensures Ready() && |derived.Now().lists| == 6
      ensures var d, d' := old(derived.Now()), derived.Now();
              && d'.first == (if d.first.Some? || k == PROGRESS then d.first else Some((k, args)))
              && d'.lists[PROGRESS].sent ==
                 d.lists[PROGRESS].sent + if d.first.None? && k == PROGRESS then [args] else []
    {
      ghost var before := derived.acts;
      var rest := derived.Call(Deferreds.Settle(k, args), script);
      hide Listens, NoRuns, Took, Deferreds.Exec;
      CallIsAccepted(before, k, args, derived.acts, script, rest);
    }

    method SettleWith(o: Procedure.Outcome, script: seq<Turn<Args>>, ghost p: Procedure.Process)
      requires Ready() && Shows(p) && Listens(script) && NoRuns(script)
      modifies derived, derived.lists
      ensures Ready() && Shows(Procedure.Settle(p, o))
    {
      hide Ready, Listens, NoRuns;
      Send(SideOf(o), ArgsOf(o), script);
    }

    method NotifyWith(v: nat, script: seq<Turn<Args>>, ghost p: Procedure.Process)
      requires Ready() && Shows(p) && Listens(script) && NoRuns(script)
      modifies derived, derived.lists
      ensures Ready() && Shows(p.(notes := if p.outcome.None? then p.notes + [v] else p.notes))
    {
      ghost var d := derived.Now();
      hide Ready, Listens, NoRuns;
      Send(PROGRESS, Value(v), script);
      if p.outcome.None? { FollowsNote(d, derived.Now(), p.notes, v); }
    }

    /** done, fail, progress or then on the derived deferred's promise */
    method Listen(k: nat, ids: seq<nat>, script: seq<Turn<Args>>)
      requires Valid() && Listens(script) && NoRuns(script)
      modifies derived, derived.lists
      ensures Valid() && history == old(history)
    {
      ghost var acts := derived.acts;
      var a := Act<Args>.On(k, ids);
      var rest := derived.Call(a, script);
      hide Listens, NoRuns, Took, Deferreds.Exec, Procedure.Run;
      OnlyListened(acts + [a], derived.acts, script, rest);
      ListeningKeeps(acts + [a], derived.acts[|acts + [a]|..]);
      ExecOneMore(acts, a);
      InvAlways(acts);
      OnKeepsIt(Deferreds.Exec(acts), k, ids);
    }

    /** mightThrow: the handler has ended with this result; what it throws on is handed back. */
    method MightThrow(depth: nat, result: Procedure.Result, special: bool, script: seq<Turn<Args>>,
                      ghost p: Procedure.Process)
      returns (thrown: Option<Procedure.Reason>)
      requires Ready() && Shows(p) && depth <= maxDepth && Listens(script) && NoRuns(script)
      modifies this`maxDepth, this`frames, derived, derived.lists
      ensures Ready() && Shows(Handled(p, depth, result, special))
      ensures maxDepth == Handled(p, depth, result, special).maxDepth
      ensures thrown == ThrownBy(p, depth, result)
    {
      hide Ready, Listens, NoRuns, Follows;
      if depth < maxDepth { return None; }
      thrown := None;
      match result
      case Threw(e) => thrown := Some(e);
      case Returned(Own) => thrown := Some(Procedure.SelfResolution);
      case Returned(Unreadable(e)) => thrown := Some(Procedure.Thrown(e));
      case Returned(Thenable) =>
        if special {
          frames := frames + [Procedure.Progress];
        } else {
          maxDepth := maxDepth + 1;
          frames := frames + [Procedure.Adopting(depth)];
        }
      case Returned(Plain(v)) =>
        if special { NotifyWith(v, script, p); } else { SettleWith(Procedure.Resolved(v), script, p); }
    }

    /** process, for a resolver that has been handed out */
    method CallResolver(depth: nat, result: Procedure.Result, script: seq<Turn<Args>>)
      requires Valid() && depth <= maxDepth && Listens(script) && NoRuns(script)
      modifies this, derived, derived.lists
      ensures Valid() && history == old(history) + [Procedure.Call(depth, result)]
    {
      hide *;
      ghost var p := Procedure.Run(history);
      ValidMeans();
      CallIsStep(p, depth, result);
      var thrown := MightThrow(depth, result, false, script, p);
      if thrown.Some? && depth + 1 >= maxDepth {
        SettleWith(Procedure.Rejected(thrown.value), script, Handled(p, depth, result, false));
      }
      RunMore(history, Procedure.Call(depth, result));
      history := history + [Procedure.Call(depth, result)];
      ValidIf();
    }

    /** A progress resolver has no catch. */
    method CallNotifier(depth: nat, result: Procedure.Result, script: seq<Turn<Args>>)
      requires Valid() && depth <= maxDepth && Listens(script) && NoRuns(script)
      modifies this, derived, derived.lists
      ensures Valid() && history == old(history) + [Procedure.Notify(depth, result)]
    {
      hide *;
      ghost var p := Procedure.Run(history);
      ValidMeans();
      NotifyIsStep(p, depth, result);
      var _ := MightThrow(depth, result, true, script, p);
      RunMore(history, Procedure.Notify(depth, result));
      history := history + [Procedure.Notify(depth, result)];
      ValidIf();
    }

    /** The innermost then method ends, with a throw that the catch around its call sees. */
    method ThenEnds(thrown: Option<Procedure.Reason>, script: seq<Turn<Args>>)
      requires Valid() && frames != [] && Listens(script) && NoRuns(script)
      modifies this, derived, derived.lists
      ensures Valid()
      ensures history == old(history) +
                [if thrown.Some? then Procedure.ThenThrew(thrown.value) else Procedure.ThenReturned]
    {
      hide Listens, NoRuns, Ready, Follows, Procedure.Run;
      ghost var p := Procedure.Run(history);
      var frame := frames[|frames| - 1];
      frames := frames[..|frames| - 1];
      if thrown.Some? && frame.Adopting? && frame.depth + 1 >= maxDepth {
        SettleWith(Procedure.Rejected(thrown.value), script, p.(frames := frames));
      }
      ghost var h := if thrown.Some? then Procedure.ThenThrew(thrown.value) else Procedure.ThenReturned;
      RunMore(history, h);
      history := history + [h];
    }

    /** All done callbacks and handlers have been called once with v, and no fail callback. */
    ghost predicate ResolvedWith(v: nat)
      reads derived, derived.lists
    {
      derived.phase == Resolved && derived.AllCalled(DONE, Value(v)) && derived.AllCalled(Handlers(DONE), Value(v)) &&
      |derived.lists| == 6 && derived.lists[FAIL].calls == [] && derived.lists[Handlers(FAIL)].calls == []
    }

    /** All fail callbacks and handlers have been called once with e, and no done callback. */
    ghost predicate RejectedWith(e: Procedure.Reason)
      reads derived, derived.lists
    {
      derived.phase == Rejected &&
      derived.AllCalled(FAIL, Failure(e)) && derived.AllCalled(Handlers(FAIL), Failure(e)) &&
      |derived.lists| == 6 && derived.lists[DONE].calls == [] && derived.lists[Handlers(DONE)].calls == []
    }

    /** What is decided by a call whose handler ended so, or by the end of a then method. */
    ghost predicate SettledBy(h: Procedure.Happening)
      reads derived, derived.lists
    {
      match h
      case Call(_, Returned(Plain(v))) => ResolvedWith(v)
      case Call(_, Returned(Own)) => RejectedWith(Procedure.SelfResolution)
      case Call(_, Returned(Unreadable(e))) => RejectedWith(Procedure.Thrown(e))
      case Call(_, Threw(e)) => RejectedWith(e)
      case ThenThrew(e) => RejectedWith(e)
      case _ => false
    }

    /**
     The derived deferred is pending until the first terminal call or throw that is not fenced off; that one settles
     it: with the value a handler returned, or with what it or a then method threw.  All callbacks on the side so
     decided are called once, and none on the other.
    */
    lemma FirstTerminalSettles() returns (i: nat)
      requires Valid()
      ensures derived.phase.Pending? <==> forall k :: 0 <= k < |history| ==> !Procedure.DecidesAt(history, k)
      ensures !derived.phase.Pending? ==>
                && i < |history| && Procedure.DecidesAt(history, i)
                && (forall k :: 0 <= k < i ==> !Procedure.DecidesAt(history, k))
                && SettledBy(history[i])
    {
      i := Procedure.FirstTerminalDecides(history);
      if i < |history| && Procedure.DecidesAt(history, i) { DecidesBy(history, i); }
      hide Procedure.Run, Procedure.DecidesAt, Deferreds.Exec;
      derived.PhaseIs();
      StateIsFinal(derived.acts, []);
      assert derived.acts + [] == derived.acts;
      if !derived.phase.Pending? {
        var args := derived.CallbacksRunOnce();
      }
    }

    /** The derived deferred has been notified of the notes, in their order, and of nothing else. */
    lemma NotesCame()
      requires Valid()
      ensures var notes := Procedure.Run(history).notes;
              && |derived.lists| == 6 && |derived.lists[PROGRESS].sent| == |notes|
              && forall i :: 0 <= i < |notes| ==> derived.lists[PROGRESS].sent[i] == Value(notes[i])
    {
      hide Procedure.Run, Deferreds.Exec;
      derived.HistoryIs(PROGRESS);
    }
  }

  /** What decides is a call with a terminal result or a throw. */
  lemma DecidesBy(history: seq<Procedure.Happening>, i: nat)
    requires i < |history| && Procedure.DecidesAt(history, i)
    ensures match history[i]
            case Call(_, result) => result != Procedure.Returned(Procedure.Thenable)
            case ThenThrew(_) => true
            case _ => false
  {
  }

  lemma RunMore(history: seq<Procedure.Happening>, h: Procedure.Happening)
    ensures Procedure.Run(history + [h]) == Procedure.Step(Procedure.Run(history), h)
  {
    assert (history + [h])[..|history|] == history;
  }

  // ---------------------------------------------------------------- the parent

  lemma AddsHandler<V>(acts: seq<Turn<V>>, k: nat, id: nat, acts': seq<Turn<V>>, script: seq<Turn<V>>,
                       rest: seq<Turn<V>>)
    requires (k == DONE || k == FAIL) && Deferreds.Exec(acts).stack == []
    requires Took(acts + [Deferreds.On(Handlers(k), [id])], acts', script, rest)
    ensures Deferreds.Exec(acts).lists[Handlers(k)].added + [User(id)] <= Deferreds.Exec(acts').lists[Handlers(k)].added
  {
    var d, a := Deferreds.Exec(acts), Act<V>.On(Handlers(k), [id]);
    assert k <= FAIL && Handlers(k) < 6;
    hide *;
    TookPrefix(acts + [a], acts', script, rest);
    InvAlways(acts);
    ListeningKeeps(acts + [a], acts'[|acts + [a]|..]);
    ExecOneMore(acts, a);
    HandlersLive(d, k);
    OnAdds(d, k, id);
    StaysAdded(Perform(d, a), Deferreds.Exec(acts'), Handlers(k), Listens(acts'[|acts + [a]|..]));
  }

  lemma TookPrefix<V>(acts: seq<Turn<V>>, acts': seq<Turn<V>>, script: seq<Turn<V>>, rest: seq<Turn<V>>)
    requires Took(acts, acts', script, rest)
    ensures acts <= acts' && acts' == acts + acts'[|acts|..]
  {
  }

  lemma StaysAdded<V>(d: Deferred<V>, d': Deferred<V>, k: nat, quiet: bool)
    requires GoesOn(d, d', quiet) && k < 6
    ensures |d.lists| == 6 == |d'.lists| && d.lists[k].added <= d'.lists[k].added
  {
  }

  lemma OnAdds<V>(d: Deferred<V>, k: nat, id: nat)
    requires k <= FAIL && d.stack == [] && |d.lists| == 6
    requires d.lists[Handlers(k)].live && !d.lists[Handlers(k)].opts.unique
    ensures Perform(d, On(Handlers(k), [id])).lists[Handlers(k)].added == d.lists[Handlers(k)].added + [User(id)]
  {
    Added(d.lists[Handlers(k)], Users([id]));
    assert Users([id]) == [User(id)];
    hide AddFns, Users;
  }

  lemma HandlersLive<V>(d: Deferred<V>, k: nat)
    requires Inv(d) && (k == DONE || k == FAIL)
    ensures |d.lists| == 6 && d.lists[Handlers(k)].live && !d.lists[Handlers(k)].opts.unique
  {
    OptionsAt(d, Handlers(k));
    hide StackOk, AllWired, Wired, Dead, OnceOk;
    assert OnceOk(d.lists[Handlers(k)]);
    OnceLive(d.lists[Handlers(k)]);
  }

  lemma OnceLive<V>(s: State<Fn, V>)
    requires OnceOk(s)
    ensures s.live
  {
    hide Numbered, Delivering;
  }

  /** A handler's place in the list it was added to, and the function there. */
  ghost predicate Registered<P>(parent: DeferredObject<P>, k: nat, n: nat, id: nat)
    reads parent
  {
    k <= FAIL && n < |parent.Now().lists[Handlers(k)].added| && parent.Now().lists[Handlers(k)].added[n] == User(id)
  }

  lemma StillRegistered<P>(d: Deferred<P>, d': Deferred<P>, k: nat)
    requires k < 6 && |d.lists| == 6 == |d'.lists| && forall j :: 0 <= j < 6 ==> d.lists[j].added <= d'.lists[j].added
    ensures |d.lists[k].added| <= |d'.lists[k].added|
    ensures forall n :: 0 <= n < |d.lists[k].added| ==> d'.lists[k].added[n] == d.lists[k].added[n]
  {
  }

  /** One handler added to the parent, which may call it at once: all it then does is set a timer. */
  method AddHandler<P>(parent: DeferredObject<P>, k: nat, id: nat) returns (ghost n: nat)
    requires parent.Six() && parent.Valid() && parent.Now().stack == [] && k <= FAIL
    modifies parent, parent.lists
    ensures parent.Six() && parent.Valid() && parent.Now().stack == [] && old(parent.acts) <= parent.acts
    ensures n == |old(parent.Now()).lists[Handlers(k)].added|
    ensures k != PROGRESS ==> Registered(parent, k, n, id)
  {
    ghost var before := parent.acts;
    n := |parent.Now().lists[Handlers(k)].added|;
    var rest := parent.Call(Deferreds.On(Handlers(k), [id]), []);
    hide Deferreds.Exec, Took;
    TookOnly(before, Act<P>.On(Handlers(k), [id]), parent.acts, [], rest);
    if k != PROGRESS { AddsHandler(before, k, id, parent.acts, [], rest); }
  }

  lemma RegisteredLater<P>(parent: DeferredObject<P>, acts: seq<Turn<P>>, k: nat)
    requires acts <= parent.acts && k <= FAIL
    ensures Deferreds.Exec(parent.acts) == parent.Now()
    ensures |Deferreds.Exec(acts).lists[Handlers(k)].added| <= |parent.Now().lists[Handlers(k)].added|
    ensures forall n, id :: 0 <= n < |Deferreds.Exec(acts).lists[Handlers(k)].added| &&
                            Deferreds.Exec(acts).lists[Handlers(k)].added[n] == User(id) ==>
                              Registered(parent, k, n, id)
  {
    assert parent.acts == acts + parent.acts[|acts|..];
    ListeningKeeps(acts, parent.acts[|acts|..]);
    hide Deferreds.Exec;
    StillRegistered(Deferreds.Exec(acts), parent.Now(), Handlers(k));
  }

  /** What has been added to the parent's handlers of k since. */
  ghost predicate AddedSince<P>(acts: seq<Turn<P>>, parent: DeferredObject<P>, k: nat, n: nat, id: nat)
    reads parent
  {
    acts <= parent.acts && k <= FAIL && |Deferreds.Exec(acts).lists[Handlers(k)].added| <= n &&
    Registered(parent, k, n, id)
  }

  lemma AddedStill<P>(acts: seq<Turn<P>>, acts': seq<Turn<P>>, parent: DeferredObject<P>, k: nat, n: nat, id: nat)
    requires acts <= acts' <= parent.acts && k <= FAIL
    requires n < |Deferreds.Exec(acts').lists[Handlers(k)].added|
    requires Deferreds.Exec(acts').lists[Handlers(k)].added[n] == User(id)
    requires |Deferreds.Exec(acts).lists[Handlers(k)].added| <= n
    ensures AddedSince(acts, parent, k, n, id)
  {
    RegisteredLater(parent, acts', k);
    hide Deferreds.Exec, Registered;
  }

  /** The three handlers of a then call */
  method AddHandlers<P>(parent: DeferredObject<P>, onProgress: nat, onFulfilled: nat, onRejected: nat)
    returns (ghost done: nat, ghost fail: nat)
    requires parent.Six() && parent.Valid() && parent.Now().stack == []
    modifies parent, parent.lists
    ensures parent.Six() && parent.Valid() && parent.Now().stack == []
    ensures AddedSince(old(parent.acts), parent, DONE, done, onFulfilled)
    ensures AddedSince(old(parent.acts), parent, FAIL, fail, onRejected)
  {
    ghost var acts := parent.acts;
    hide Deferreds.Exec;
    var _ := AddHandler(parent, PROGRESS, onProgress);
    RegisteredLater(parent, acts, DONE);
    done := AddHandler(parent, DONE, onFulfilled);
    RegisteredLater(parent, acts, FAIL);
    ghost var acts' := parent.acts;
    fail := AddHandler(parent, FAIL, onRejected);
    AddedStill(acts, acts', parent, DONE, done, onFulfilled);
  }

  /** then: the derived deferred, and the handlers that bring its resolution under way. */
  method Then<P>(parent: DeferredObject<P>, onProgress: nat, onFulfilled: nat, onRejected: nat)
    returns (r: Resolution, ghost done: nat, ghost fail: nat)
    requires parent.Six() && parent.Valid() && parent.Now().stack == []
    modifies parent, parent.lists
    ensures parent.Six() && parent.Valid() && parent.Now().stack == []
    ensures fresh(r) && fresh(r.derived) && fresh(r.derived.lists) && r.Valid() && r.history == []
    ensures AddedSince(old(parent.acts), parent, DONE, done, onFulfilled)
    ensures AddedSince(old(parent.acts), parent, FAIL, fail, onRejected)
  {
    hide *;
    r := new Resolution();
    done, fail := AddHandlers(parent, onProgress, onFulfilled, onRejected);
  }

  lemma {:induction false} CalledOnce<V>(calls: seq<Call<Fn, V>>, n: nat)
    requires forall j :: 0 <= j < |calls| ==> calls[j].id == j && calls[j].event.serial == 0
    ensures CallsTo(calls, n) == if n < |calls| then [0] else []
  {
    if calls != [] { CalledOnce(calls[..|calls| - 1], n); }
  }

  /**
   Of the two handlers of a then call exactly one is ever called, once, with what the parent was settled with: the
   resolvers of depth 0 run at most once.
  */
  lemma OneHandlerRuns<P>(parent: DeferredObject<P>, done: nat, onFulfilled: nat, fail: nat, onRejected: nat)
    returns (args: P)
    requires parent.Six() && parent.Valid() && parent.Now().stack == [] && !parent.phase.Pending?
    requires Registered(parent, DONE, done, onFulfilled) && Registered(parent, FAIL, fail, onRejected)
    ensures |parent.lists| == 6
    ensures var (d, f) := (parent.lists[Handlers(DONE)].calls, parent.lists[Handlers(FAIL)].calls);
            if parent.phase.Resolved? then
              parent.Now().first == Some((DONE, args)) && CallsTo(d, done) == [0] && CallsTo(f, fail) == [] &&
              done < |d| && d[done] == Call(User(onFulfilled), done, Event(args, 0))
            else
              parent.Now().first == Some((FAIL, args)) && CallsTo(d, done) == [] && CallsTo(f, fail) == [0] &&
              fail < |f| && f[fail] == Call(User(onRejected), fail, Event(args, 0))
  {
    hide Deferreds.Exec;
    args := parent.CallbacksRunOnce();
    parent.ListIs(Handlers(DONE));
    parent.ListIs(Handlers(FAIL));
    CalledOnce(parent.lists[Handlers(DONE)].calls, done);
    CalledOnce(parent.lists[Handlers(FAIL)].calls, fail);
  }
}
