/**
 The resolution procedure behind Deferred#then, by counter and by flags over the same events.
*/
module ThenResolution {
  import opened Lists

  // jQuery fences off stale resolvers with one counter; Promises/A+ (section 2.3.3.3) asks that of each pair of
  // resolvers only the first call counts.

  datatype Reason = Thrown(e: nat) | SelfResolution

  /**
   What a handler returns: the derived promise itself, a thenable, an object whose then cannot be read, or
   anything else.
  */
  datatype Value = Plain(v: nat) | Thenable | Own | Unreadable(e: nat)

  datatype Result = Returned(value: Value) | Threw(reason: Reason)

  datatype Outcome = Resolved(v: nat) | Rejected(reason: Reason)

  /**
   Call: a resolver of the given depth is called and its handler ends with this result (the
   substituted handlers Identity and Thrower return or throw what they are given).  Notify: the same
   for a progress resolver.  ThenReturned, ThenThrew: the innermost running then method ends.
  */
  datatype Happening = Call(depth: nat, result: Result) | Notify(depth: nat, result: Result)
                     | ThenReturned | ThenThrew(reason: Reason)

  /** A then method on the stack: called to adopt at this depth, or for a progress value. */
  datatype Frame = Adopting(depth: nat) | Progress

  // ---------------------------------------------------------------- jQuery

  datatype Process = Process(maxDepth: nat, frames: seq<Frame>, outcome: Option<Outcome>, notes: seq<nat>)

  const START := Process(0, [], None, [])

  /** Settling the derived deferred, which only works once. */
  function Settle(p: Process, o: Outcome): Process {
    if p.outcome.None? then p.(outcome := Some(o)) else p
  }

  function Pop(frames: seq<Frame>): seq<Frame> {
    if frames == [] then [] else frames[..|frames| - 1]
  }

  /** What a terminal result settles the derived deferred with; a thenable settles nothing yet. */
  function Terminal(r: Result): Option<Outcome> {
    match r
    case Threw(e) => Some(Rejected(e))
    case Returned(Plain(v)) => Some(Resolved(v))
    case Returned(Own) => Some(Rejected(SelfResolution))
    case Returned(Unreadable(e)) => Some(Rejected(Thrown(e)))
    case Returned(Thenable) => None
  }

  function Step(p: Process, h: Happening): Process {
    match h
    case Call(d, r) =>
      if d > p.maxDepth || d < p.maxDepth then p          // not handed out yet, or fenced off
      else if Terminal(r).Some? then
        if (r.Returned? && r.value.Plain?) || d + 1 >= p.maxDepth then Settle(p, Terminal(r).value) else p
      else p.(maxDepth := p.maxDepth + 1, frames := p.frames + [Adopting(d)])
    case Notify(d, r) =>
      if d > p.maxDepth || d < p.maxDepth then p
      else if r == Returned(Thenable) then p.(frames := p.frames + [Progress])
      else if r.Returned? && r.value.Plain? && p.outcome.None? then p.(notes := p.notes + [r.value.v])
      else p
    case ThenReturned => p.(frames := Pop(p.frames))
    case ThenThrew(e) =>
      var p' := p.(frames := Pop(p.frames));
      if p.frames != [] && p.frames[|p.frames| - 1].Adopting? && p.frames[|p.frames| - 1].depth + 1 >= p.maxDepth
      then Settle(p', Rejected(e)) else p'
  }

  function Run(hs: seq<Happening>): Process {
    if hs == [] then START else Step(Run(hs[..|hs| - 1]), hs[|hs| - 1])
  }

  // ---------------------------------------------------------------- Promises/A+

  /**
   One flag per pair of resolvers handed out, pair 0 being the handlers' own.  Nothing guards the
   outcome: that it is decided once is a consequence of the flags.
  */
  datatype Pairs = Pairs(called: seq<bool>, frames: seq<Frame>, outcome: Option<Outcome>)

  function SpecStep(s: Pairs, h: Happening): Pairs {
    match h
    case Call(d, r) =>
      if d >= |s.called| || s.called[d] then s
      else
        var s' := s.(called := s.called[d := true]);
        if Terminal(r).Some? then s'.(outcome := Terminal(r))
        else s'.(called := s'.called + [false], frames := s.frames + [Adopting(|s.called| - 1)])
    case Notify(d, r) =>
      if d < |s.called| && !s.called[d] && r == Returned(Thenable) then s.(frames := s.frames + [Progress]) else s
    case ThenReturned => s.(frames := Pop(s.frames))
    case ThenThrew(e) =>
      var s' := s.(frames := Pop(s.frames));
      if s.frames != [] && s.frames[|s.frames| - 1].Adopting? then
        var pair := s.frames[|s.frames| - 1].depth + 1;     // the pair this then method was given
        if pair < |s.called| && !s.called[pair]
        then s'.(called := s.called[pair := true], outcome := Some(Rejected(e))) else s'
      else s'
  }

  function SpecRun(hs: seq<Happening>): Pairs {
    if hs == [] then Pairs([false], [], None) else SpecStep(SpecRun(hs[..|hs| - 1]), hs[|hs| - 1])
  }

  // ---------------------------------------------------------------- the counter does the flags' job

  /** While nothing is settled the two agree on every resolver; afterwards every flag is up. */
  ghost predicate Agree(p: Process, s: Pairs) {
    && p.outcome == s.outcome
    && (p.outcome.None? ==>
          && |s.called| == p.maxDepth + 1 && s.frames == p.frames
          && (forall i :: 0 <= i < |s.called| ==> s.called[i] == (i < p.maxDepth))
          && (forall i :: 0 <= i < |p.frames| && p.frames[i].Adopting? ==> p.frames[i].depth < p.maxDepth))
    && (p.outcome.Some? ==> forall i :: 0 <= i < |s.called| ==> s.called[i])
  }

  lemma StepAgrees(p: Process, s: Pairs, h: Happening)
    requires Agree(p, s)
    ensures Agree(Step(p, h), SpecStep(s, h))
    ensures p.outcome.Some? ==> Step(p, h).outcome == p.outcome
  {
  }

  /** For every sequence of calls, nested and repeated as they like, and every throw, the outcomes are the same. */
  lemma {:induction false} CounterImplementsFlags(hs: seq<Happening>)
    ensures Agree(Run(hs), SpecRun(hs))
    ensures Run(hs).outcome == SpecRun(hs).outcome
  {
    if hs != [] {
      CounterImplementsFlags(hs[..|hs| - 1]);
      StepAgrees(Run(hs[..|hs| - 1]), SpecRun(hs[..|hs| - 1]), hs[|hs| - 1]);
    }
  }

  /** The derived deferred is notified of what progress handlers return in time, and of nothing else. */
  lemma NotesAre(hs: seq<Happening>, h: Happening)
    ensures Run([]).notes == []
    ensures Run(hs + [h]).notes ==
            match h
            case Notify(d, Returned(Plain(v))) =>
              Run(hs).notes + if d == Run(hs).maxDepth && Run(hs).outcome.None? then [v] else []
            case _ => Run(hs).notes
  {
    assert (hs + [h])[..|hs|] == hs;
  }

  lemma {:induction false} DepthsGrow(hs: seq<Happening>, more: seq<Happening>)
    ensures Run(hs).maxDepth <= Run(hs + more).maxDepth
    ensures Run(hs).outcome.Some? ==> Run(hs + more).outcome == Run(hs).outcome
  {
    ConcatLast(hs, more);
    if more != [] {
      DepthsGrow(hs, more[..|more| - 1]);
      RunLast(hs + more);
      StepGrows(Run(hs + more[..|more| - 1]), more[|more| - 1]);
    }
    hide *;
  }

  lemma RunLast(hs: seq<Happening>)
    requires hs != []
    ensures Run(hs) == Step(Run(hs[..|hs| - 1]), hs[|hs| - 1])
  {
  }

  lemma StepGrows(p: Process, h: Happening)
    ensures p.maxDepth <= Step(p, h).maxDepth
    ensures p.outcome.Some? ==> Step(p, h).outcome == p.outcome
  {
  }

  /**
   The fence: once a resolver of depth d has adopted a thenable, no later call of a resolver of
   depth at most d changes anything, and a throw by a then method called at a lower depth changes
   nothing but the stack.
  */
  lemma {:induction false} Fence(hs: seq<Happening>, more: seq<Happening>, d: nat)
    requires d < Run(hs).maxDepth
    ensures forall d': nat, r :: d' <= d ==> Run(hs + more + [Call(d', r)]) == Run(hs + more)
    ensures forall d': nat, r :: d' <= d ==> Run(hs + more + [Notify(d', r)]) == Run(hs + more)
    ensures var p := Run(hs + more);
            p.frames != [] && p.frames[|p.frames| - 1].Adopting? && p.frames[|p.frames| - 1].depth < d ==>
              forall e :: Run(hs + more + [ThenThrew(e)]) == p.(frames := Pop(p.frames))
  {
    DepthsGrow(hs, more);
    forall h: Happening ensures Run(hs + more + [h]) == Step(Run(hs + more), h) {
      assert (hs + more + [h])[..|hs + more|] == hs + more;
    }
  }

  /** A call or throw decides the outcome exactly when it is terminal, not fenced off, and the first such. */
  predicate Decides(p: Process, h: Happening) {
    match h
    case Call(d, r) => d == p.maxDepth && Terminal(r).Some?
    case ThenThrew(_) => p.frames != [] && p.frames[|p.frames| - 1].Adopting? &&
                         p.frames[|p.frames| - 1].depth + 1 == p.maxDepth
    case _ => false
  }

  function Decision(h: Happening): Option<Outcome> {
    match h
    case Call(_, r) => Terminal(r)
    case ThenThrew(e) => Some(Rejected(e))
    case _ => None
  }

  lemma StepDecides(p: Process, s: Pairs, h: Happening)
    requires Agree(p, s)
    ensures Step(p, h).outcome == if p.outcome.Some? then p.outcome else if Decides(p, h) then Decision(h) else None
    ensures Decides(p, h) ==> Decision(h).Some?
  {
  }

  predicate DecidesAt(hs: seq<Happening>, k: nat)
    requires k < |hs|
  {
    Decides(Run(hs[..k]), hs[k])
  }

  /** The derived deferred settles with the first terminal call or throw that is not fenced off, and only then. */
  lemma {:induction false} FirstTerminalDecides(hs: seq<Happening>) returns (i: nat)
    ensures Run(hs).outcome.None? ==> forall k :: 0 <= k < |hs| ==> !DecidesAt(hs, k)
    ensures Run(hs).outcome.Some? ==>
              i < |hs| && DecidesAt(hs, i) && Run(hs).outcome == Decision(hs[i]) &&
              forall k :: 0 <= k < i ==> !DecidesAt(hs, k)
  {
    hide Step, Decides, Decision, SpecRun, Agree;
    if hs == [] { return 0; }
    var n := |hs| - 1;
    i := FirstTerminalDecides(hs[..n]);
    CounterImplementsFlags(hs[..n]);
    StepDecides(Run(hs[..n]), SpecRun(hs[..n]), hs[n]);
    forall k | 0 <= k < n ensures DecidesAt(hs[..n], k) == DecidesAt(hs, k) {
      assert hs[..n][..k] == hs[..k];
    }
    if Run(hs[..n]).outcome.None? { i := n; }
  }
}
