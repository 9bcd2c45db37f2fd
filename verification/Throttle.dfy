/**
 _.throttle, built on _.debounce, as a timed machine.  Timers fire on time, those due together in
 the order they were set; the throttled function does not call its own wrapper.  Runs keep their
 distance, and every call is served in time.
*/
module Throttle {
  import opened Lists

  /** The two callbacks that can be waiting: throttle's `later`, and debounce's for `whenDone`. */
  datatype Callback = Later | WhenDone

  datatype Timer = Timer(id: nat, due: nat, callback: Callback)

  /** A run of the throttled function with the arguments of call number `args`. */
  datatype Run = Run(time: nat, args: nat)

  /** The closures' variables, the event loop's clock and timers, and the history of calls and runs. */
  datatype State = State(
    wait: nat, timeout: Option<nat>, throttling: bool, more: bool, args: nat, doneTimeout: Option<nat>,
    now: nat, timers: seq<Timer>, nextId: nat,
    calls: seq<nat>, runs: seq<Run>)

  datatype Event = Called | TimerFires | TimePasses(until: nat)

  function Fresh(wait: nat): State {
    State(wait, None, false, false, 0, None, 0, [], 0, [], [])
  }

  // ---------------------------------------------------------------- one event

  function Without(timers: seq<Timer>, id: Option<nat>): seq<Timer> {
    Kept(timers, (t: Timer) => id != Some(t.id))
  }

  /** whenDone(), the debounced function: drop its pending timer, set a new one */
  function CallWhenDone(s: State): State {
    s.(timers := Without(s.timers, s.doneTimeout) + [Timer(s.nextId, s.now + s.wait, WhenDone)],
       doneTimeout := Some(s.nextId), nextId := s.nextId + 1)
  }

  function RunFunc(s: State): State {
    s.(runs := s.runs + [Run(s.now, s.args)])
  }

  /** A call, up to the setting of `later` */
  function Arm(s: State): State {
    var s1 := s.(args := |s.calls|, calls := s.calls + [s.now]);
    if s1.timeout.Some? then s1
    else s1.(timers := s1.timers + [Timer(s1.nextId, s1.now + s1.wait, Later)], timeout := Some(s1.nextId),
             nextId := s1.nextId + 1)
  }

  function RunOrNote(s: State): State {
    if s.throttling then s.(more := true) else RunFunc(s)
  }

  /** The function throttle returns */
  function CallOf(s: State): State {
    CallWhenDone(RunOrNote(Arm(s))).(throttling := true)
  }

  /** The index of the timer that fires next: the earliest, the first set among equals. */
  function Next(timers: seq<Timer>): (i: nat)
    requires timers != []
    ensures i < |timers|
    ensures forall k :: 0 <= k < |timers| ==>
              timers[i].due <= timers[k].due && (k < i ==> timers[i].due < timers[k].due)
  {
    var n := |timers| - 1;
    if n == 0 then 0
    else
      var i := Next(timers[..n]);
      if timers[n].due < timers[i].due then n else i
  }

  function FireOf(s: State): State
    requires s.timers != []
  {
    var i := Next(s.timers);
    var s1 := s.(timers := s.timers[..i] + s.timers[i + 1..]);
    match s.timers[i].callback
    case Later => LaterOf(s1)
    case WhenDone => WhenDoneOf(s1)
  }

  function LaterOf(s: State): State {
    var s' := s.(timeout := None);
    CallWhenDone(if s'.more then RunFunc(s') else s')
  }

  function WhenDoneOf(s: State): State {
    s.(doneTimeout := None, more := false, throttling := false)
  }

  /** A timer fires when it is due, and no time passes while one is. */
  predicate Legal(s: State, e: Event) {
    match e
    case Called => true
    case TimerFires => s.timers != [] && s.timers[Next(s.timers)].due == s.now
    case TimePasses(until) => s.now <= until && forall t :: t in s.timers ==> until <= t.due
  }

  function Step(s: State, e: Event): State {
    if !Legal(s, e) then s
    else match e
      case Called => CallOf(s)
      case TimerFires => FireOf(s)
      case TimePasses(until) => s.(now := until)
  }

  function Exec(wait: nat, events: seq<Event>): State {
    if events == [] then Fresh(wait) else Step(Exec(wait, events[..|events| - 1]), events[|events| - 1])
  }

  // ---------------------------------------------------------------- the invariant

  /** Idle: no timers.  Cooling: only whenDone is waiting.  Armed: later is waiting, and whenDone behind it. */
  ghost predicate TimersOk(s: State) {
    && (forall t :: t in s.timers ==> t.id < s.nextId && s.now <= t.due <= s.now + s.wait)
    && match |s.timers|
       case 0 => s.timeout.None? && s.doneTimeout.None? && !s.throttling && !s.more
       case 1 => s.timeout.None? && s.timers[0].callback.WhenDone? && s.doneTimeout == Some(s.timers[0].id) &&
                 s.throttling
       case 2 => s.timers[0].callback.Later? && s.timers[1].callback.WhenDone? && s.throttling &&
                 s.timeout == Some(s.timers[0].id) && s.doneTimeout == Some(s.timers[1].id) &&
                 s.timers[0].id != s.timers[1].id && s.timers[0].due <= s.timers[1].due
       case _ => false
  }

  /** From when on the function may run again. */
  ghost predicate FreeAgain(s: State, time: nat) {
    s.runs == [] || s.runs[|s.runs| - 1].time + s.wait <= time
  }

  ghost predicate Bounded(runs: seq<Run>, now: nat, calls: nat) {
    forall i :: 0 <= i < |runs| ==> runs[i].time <= now && runs[i].args < calls
  }

  ghost predicate Spaced(runs: seq<Run>, wait: nat) {
    forall i, j :: 0 <= i < j < |runs| ==> runs[i].time + wait <= runs[j].time && runs[i].args < runs[j].args
  }

  ghost predicate RateOk(s: State) {
    && FreeAgain(s, if s.timers == [] then s.now else s.timers[0].due)
    && Bounded(s.runs, s.now, |s.calls|) && Spaced(s.runs, s.wait)
    && (s.timers != [] || s.runs != [] ==> s.calls != []) && (s.calls != [] ==> s.args == |s.calls| - 1)
    && (|s.timers| == 2 && s.more ==> s.runs == [] || s.runs[|s.runs| - 1].args < s.args)
  }

  /** Call k was followed in time by a run with its own or later arguments. */
  ghost predicate Served(s: State, k: nat)
    requires k < |s.calls|
  {
    exists i :: 0 <= i < |s.runs| && s.calls[k] <= s.runs[i].time <= s.calls[k] + s.wait && k <= s.runs[i].args
  }

  /** Or such a run is coming: `later` is armed, will run the function, and is due in time. */
  ghost predicate Coming(s: State, k: nat)
    requires k < |s.calls|
  {
    |s.timers| == 2 && s.more && s.timers[0].due <= s.calls[k] + s.wait
  }

  ghost predicate Inv(s: State) {
    && TimersOk(s) && RateOk(s)
    && (forall k :: 0 <= k < |s.calls| ==> s.calls[k] <= s.now && (Served(s, k) || Coming(s, k)))
  }

  lemma WithoutOne(t: Timer, id: Option<nat>)
    ensures Without([t], id) == if id == Some(t.id) then [] else [t]
  {
    assert Without([t][..0], id) == [];
  }

  lemma WithoutTwo(t: Timer, u: Timer, id: Option<nat>)
    ensures Without([t, u], id) == (if id == Some(t.id) then [] else [t]) + if id == Some(u.id) then [] else [u]
  {
    WithoutOne(t, id);
    assert [t, u][..1] == [t];
  }

  /** Setting and resetting whenDone leaves just `later`, if set, in front of it. */
  lemma ResetWhenDone(s: State, later: Timer)
    requires TimersOk(s) && later.id >= s.nextId
    ensures Without(s.timers + [later], s.doneTimeout) == (if |s.timers| == 2 then [s.timers[0]] else []) + [later]
    ensures Without(s.timers, s.doneTimeout) == if |s.timers| == 2 then [s.timers[0]] else []
  {
    WithoutDone(s);
    WithoutOne(later, s.doneTimeout);
    assert s.doneTimeout != Some(later.id) by { if |s.timers| > 0 { assert s.timers[|s.timers| - 1] in s.timers; } }
    KeptAppend(s.timers, [later], (t: Timer) => s.doneTimeout != Some(t.id));
    assert Without(s.timers + [later], s.doneTimeout) ==
           Without(s.timers, s.doneTimeout) + Without([later], s.doneTimeout);
    hide *;
  }

  lemma WithoutDone(s: State)
    requires TimersOk(s)
    ensures Without(s.timers, s.doneTimeout) == if |s.timers| == 2 then [s.timers[0]] else []
  {
    if |s.timers| == 1 {
      WithoutOne(s.timers[0], s.doneTimeout);
      assert s.timers == [s.timers[0]];
    } else if |s.timers| == 2 {
      WithoutTwo(s.timers[0], s.timers[1], s.doneTimeout);
      assert s.timers == [s.timers[0], s.timers[1]];
    }
  }

  lemma ServedStays(s: State, s': State, k: nat)
    requires k < |s.calls| && Served(s, k) && s.calls <= s'.calls && s.runs <= s'.runs && s.wait == s'.wait
    ensures Served(s', k)
  {
    var i :| 0 <= i < |s.runs| && s.calls[k] <= s.runs[i].time <= s.calls[k] + s.wait && k <= s.runs[i].args;
    assert s'.runs[i] == s.runs[i];
  }

  lemma ArmShape(s: State)
    ensures var armed := RunOrNote(Arm(s));
            && armed.calls == s.calls + [s.now] && armed.args == |s.calls| && armed.more == (s.more || s.throttling)
            && armed.runs == (if s.throttling then s.runs else s.runs + [Run(s.now, |s.calls|)])
            && armed.now == s.now && armed.wait == s.wait && armed.doneTimeout == s.doneTimeout
            && armed.timers ==
               (if s.timeout.Some? then s.timers else s.timers + [Timer(s.nextId, s.now + s.wait, Later)])
            && armed.nextId == (if s.timeout.Some? then s.nextId else s.nextId + 1)
            && armed.timeout == (if s.timeout.Some? then s.timeout else Some(s.nextId))
  {
  }

  /** What is left of the timers once the pending reset is cleared. */
  lemma ResetCleared(s: State)
    requires TimersOk(s)
    ensures var armed := RunOrNote(Arm(s));
            Without(armed.timers, armed.doneTimeout) ==
            [if |s.timers| == 2 then s.timers[0] else Timer(s.nextId, s.now + s.wait, Later)]
    ensures (|s.timers| == 2 <==> s.timeout.Some?) && (|s.timers| == 2 ==> s.timeout == Some(s.timers[0].id))
  {
    ArmShape(s);
    hide RunOrNote, Arm;
    ResetWhenDone(s, Timer(s.nextId, s.now + s.wait, Later));
    hide Without;
  }

  lemma CallShape(s: State)
    requires TimersOk(s)
    ensures var s', done := CallOf(s), Timer(CallOf(s).nextId - 1, s.now + s.wait, WhenDone);
            && s'.timers == [if |s.timers| == 2 then s.timers[0] else Timer(s.nextId, s.now + s.wait, Later), done]
            && s'.throttling && s'.more == (s.more || s.throttling) && s'.calls == s.calls + [s.now] &&
               s'.args == |s.calls|
            && s'.runs == if s.throttling then s.runs else s.runs + [Run(s.now, |s.calls|)]
    ensures CallOf(s).timeout == Some(CallOf(s).timers[0].id) && CallOf(s).doneTimeout == Some(CallOf(s).nextId - 1)
    ensures CallOf(s).nextId > s.nextId && (|s.timers| != 2 ==> CallOf(s).nextId > s.nextId + 1)
    ensures CallOf(s).now == s.now && CallOf(s).wait == s.wait
  {
    hide RunOrNote, Arm, Without;
    ArmShape(s);
    ResetCleared(s);
    var armed := RunOrNote(Arm(s));
    var first := if |s.timers| == 2 then s.timers[0] else Timer(s.nextId, s.now + s.wait, Later);
    var done := Timer(armed.nextId, s.now + s.wait, WhenDone);
    assert CallOf(s) == armed.(timers := [first, done], doneTimeout := Some(armed.nextId), nextId := armed.nextId + 1,
                               throttling := true)
    by {
      hide TimersOk;
      assert [first] + [done] == [first, done];
    }
    hide CallOf, CallWhenDone;
  }

  lemma {:induction false} CallKeepsTimers(s: State)
    requires TimersOk(s)
    ensures TimersOk(CallOf(s))
  {
    CallShape(s);
    hide CallOf;
    if |s.timers| == 2 { assert s.timers[0] in s.timers; }
    assert s.throttling || s.timers == [];
  }

  lemma {:induction false} CallKeepsRate(s: State)
    requires TimersOk(s) && RateOk(s)
    ensures RateOk(CallOf(s))
  {
    CallShape(s);
    hide CallOf, Without;
    var s' := CallOf(s);
    RunAdded(s, s');
  }

  /** At most one run is added, now, with the arguments of the last call. */
  lemma RunAdded(s: State, s': State)
    requires RateOk(s) && s'.now == s.now && s'.wait == s.wait && s.calls <= s'.calls && s'.calls != []
    requires s'.runs == s.runs ||
             (s'.runs == s.runs + [Run(s.now, |s'.calls| - 1)] && FreeAgain(s, s.now) &&
              (s.runs == [] || s.runs[|s.runs| - 1].args < |s'.calls| - 1))
    ensures Bounded(s'.runs, s'.now, |s'.calls|) && Spaced(s'.runs, s'.wait)
  {
    var n := |s.runs|;
    forall i, j | 0 <= i < j < |s'.runs|
      ensures s'.runs[i].time + s'.wait <= s'.runs[j].time && s'.runs[i].args < s'.runs[j].args
    {
      assert s'.runs[i] == s.runs[i];
      if j < n { assert s'.runs[j] == s.runs[j]; }
      else if i < n - 1 { assert s.runs[i].time + s.wait <= s.runs[n - 1].time; }
    }
  }

  /** An earlier call stays served or on its way; the new one is served now or joins what is on its way. */
  lemma CallServes(s: State, s': State, k: nat)
    requires TimersOk(s) && (k < |s.calls| ==> s.calls[k] <= s.now && (Served(s, k) || Coming(s, k)))
    requires s'.now == s.now && s'.wait == s.wait && s'.calls == s.calls + [s.now] && k <= |s.calls|
    requires |s'.timers| == 2 && s'.more == (s.more || s.throttling)
    requires s'.timers[0] == if |s.timers| == 2 then s.timers[0] else Timer(s.nextId, s.now + s.wait, Later)
    requires s'.runs == if s.throttling then s.runs else s.runs + [Run(s.now, |s.calls|)]
    ensures s'.calls[k] <= s'.now && (Served(s', k) || Coming(s', k))
  {
    if k < |s.calls| && Served(s, k) {
      ServedStays(s, s', k);
    } else if !s.throttling {
      assert k == |s.calls| && s'.runs[|s.runs|] == Run(s.now, k);
    } else {
      if |s.timers| == 2 { assert s.timers[0] in s.timers; }
    }
  }

  lemma {:induction false} CallKeeps(s: State)
    requires Inv(s)
    ensures Inv(CallOf(s))
  {
    hide CallOf, RateOk, Without, TimersOk, Served, Coming;
    var s', n := CallOf(s), |s.calls|;
    CallShape(s);
    CallKeepsTimers(s);
    CallKeepsRate(s);
    forall k | 0 <= k <= n ensures s'.calls[k] <= s'.now && (Served(s', k) || Coming(s', k)) { CallServes(s, s', k); }
  }

  /** `later` fires first, and resets whenDone. */
  lemma LaterResets(s: State)
    requires TimersOk(s) && |s.timers| == 2
    ensures FireOf(s) ==
            s.(timers := [Timer(s.nextId, s.now + s.wait, WhenDone)], timeout := None, doneTimeout := Some(s.nextId),
               nextId := s.nextId + 1, runs := if s.more then s.runs + [Run(s.now, s.args)] else s.runs)
  {
    hide Without, Next, WhenDoneOf;
    var later, done := s.timers[0], s.timers[1];
    assert s.timers == [later, done] && s.timers[..0] + s.timers[1..] == [done];
    NextOfTwo(later, done);
    WithoutOne(done, s.doneTimeout);
    LaterAlone(s.(timers := [done]), done);
    hide LaterOf;
  }

  lemma LaterAlone(s: State, done: Timer)
    requires s.timers == [done] && s.doneTimeout == Some(done.id)
    ensures LaterOf(s) ==
            s.(timers := [Timer(s.nextId, s.now + s.wait, WhenDone)], timeout := None, doneTimeout := Some(s.nextId),
               nextId := s.nextId + 1, runs := if s.more then s.runs + [Run(s.now, s.args)] else s.runs)
  {
    hide Without;
    WithoutOne(done, s.doneTimeout);
  }

  lemma LaterFires(s: State)
    requires TimersOk(s) && |s.timers| == 2
    ensures var s' := FireOf(s);
            && s'.calls == s.calls && s'.args == s.args && s'.now == s.now && s'.wait == s.wait && s'.more == s.more
            && s'.timers == [Timer(s.nextId, s.now + s.wait, WhenDone)]
            && s'.runs == if s.more then s.runs + [Run(s.now, s.args)] else s.runs
    ensures TimersOk(FireOf(s))
  {
    LaterResets(s);
    hide FireOf;
    assert s.throttling && s.timeout.Some?;
    OneTimerOk(FireOf(s), Timer(s.nextId, s.now + s.wait, WhenDone));
    hide TimersOk;
  }

  /** Cooling */
  lemma OneTimerOk(s: State, done: Timer)
    requires s.timers == [done] && done.callback.WhenDone? && done.id < s.nextId && done.due == s.now + s.wait
    requires s.timeout.None? && s.doneTimeout == Some(done.id) && s.throttling
    ensures TimersOk(s)
  {
  }

  lemma NextOfTwo(t: Timer, u: Timer)
    requires t.due <= u.due
    ensures Next([t, u]) == 0
  {
    assert [t, u][..1] == [t];
  }

  lemma WhenDoneFires(s: State)
    requires TimersOk(s) && |s.timers| == 1
    ensures FireOf(s) == s.(timers := [], doneTimeout := None, more := false, throttling := false) &&
            TimersOk(FireOf(s))
  {
    assert s.timers[..0] + s.timers[1..] == [];
  }

  lemma FrontIsDue(s: State)
    requires TimersOk(s) && Legal(s, TimerFires)
    ensures (|s.timers| == 1 || |s.timers| == 2) && s.timers[0].due == s.now
  {
  }

  lemma {:induction false} FireKeepsRate(s: State)
    requires TimersOk(s) && RateOk(s) && (|s.timers| == 1 || |s.timers| == 2) && s.timers[0].due == s.now
    ensures RateOk(FireOf(s))
  {
    hide FireOf, Without, Next, CallWhenDone, Spaced, Bounded;
    assert FreeAgain(s, s.now);
    if |s.timers| == 2 {
      LaterFires(s);
      RunAdded(s, FireOf(s));
    } else {
      WhenDoneFires(s);
    }
  }

  lemma {:induction false} FireKeeps(s: State)
    requires Inv(s) && Legal(s, TimerFires)
    ensures Inv(FireOf(s))
  {
    hide FireOf, Without, Next, Legal, RateOk;
    FrontIsDue(s);
    var s' := FireOf(s);
    FireKeepsRate(s);
    if |s.timers| == 2 { LaterFires(s); } else { WhenDoneFires(s); }
    forall k | 0 <= k < |s'.calls| ensures Served(s', k) {
      if Served(s, k) {
        ServedStays(s, s', k);
      } else {
        LastArgs(s);
        assert s'.runs[|s.runs|] == Run(s.now, s.args);
      }
    }
  }

  lemma LastArgs(s: State)
    requires RateOk(s) && s.calls != []
    ensures s.args == |s.calls| - 1
  {
  }

  lemma TimeKeeps(s: State, until: nat)
    requires Inv(s) && Legal(s, TimePasses(until))
    ensures Inv(s.(now := until))
  {
    var s' := s.(now := until);
    forall k | 0 <= k < |s.calls| ensures Served(s', k) || Coming(s', k) {
      if Served(s, k) { ServedStays(s, s', k); }
    }
    if s.timers != [] { assert s.timers[0] in s.timers; }
  }

  lemma {:induction false} StepKeeps(s: State, e: Event)
    requires Inv(s)
    ensures Inv(Step(s, e)) && Step(s, e).wait == s.wait
  {
    if Legal(s, e) {
      match e
      case Called => CallKeeps(s); CallShape(s);
      case TimerFires => FireKeeps(s);
      case TimePasses(until) => TimeKeeps(s, until);
    }
  }

  lemma {:induction false} InvAlways(wait: nat, events: seq<Event>)
    ensures Inv(Exec(wait, events)) && Exec(wait, events).wait == wait
  {
    if events != [] {
      InvAlways(wait, events[..|events| - 1]);
      StepKeeps(Exec(wait, events[..|events| - 1]), events[|events| - 1]);
    }
  }

  // ---------------------------------------------------------------- the bounds

  /** A call whose wait is over has been served. */
  lemma InvServes(s: State, k: nat)
    requires Inv(s) && k < |s.calls| && s.calls[k] + s.wait < s.now
    ensures Served(s, k)
  {
    assert |s.timers| == 2 ==> s.timers[0] in s.timers;
  }

  /** Whenever the function runs again, at least `wait` has passed, and it gets the arguments of a later call. */
  lemma {:induction false} RunsAreSpaced(wait: nat, events: seq<Event>, i: nat, j: nat)
    requires i < j < |Exec(wait, events).runs|
    ensures var runs := Exec(wait, events).runs;
            runs[j].time - runs[i].time >= wait && runs[i].args < runs[j].args
  {
    InvAlways(wait, events);
  }

  /** Once `wait` is over after a call, the function has run in that time with the call's or newer arguments. */
  lemma EveryCallIsServed(wait: nat, events: seq<Event>, k: nat)
    requires k < |Exec(wait, events).calls| && Exec(wait, events).calls[k] + wait < Exec(wait, events).now
    ensures var s := Exec(wait, events);
            exists i :: 0 <= i < |s.runs| && s.calls[k] <= s.runs[i].time <= s.calls[k] + wait && k <= s.runs[i].args
  {
    InvAlways(wait, events);
    InvServes(Exec(wait, events), k);
  }

  /** Each timer is due soon after the last call: `later` within wait, the reset within twice that. */
  ghost predicate DueSoon(s: State) {
    (s.timers != [] ==> s.calls != []) &&
    forall t :: t in s.timers && s.calls != [] ==>
      t.due <= s.calls[|s.calls| - 1] + (if t.callback.Later? then s.wait else 2 * s.wait)
  }

  lemma StepDueSoon(s: State, e: Event)
    requires Inv(s) && DueSoon(s)
    ensures DueSoon(Step(s, e))
  {
    hide RateOk, Served, Coming, CallOf, FireOf;
    if Legal(s, e) {
      match e
      case Called =>
        CallShape(s);
        if |s.timers| == 2 { assert s.timers[0] in s.timers; }
      case TimerFires =>
        FrontIsDue(s);
        assert s.timers[0] in s.timers;
        if |s.timers| == 2 { LaterFires(s); } else { WhenDoneFires(s); }
      case TimePasses(until) =>
    }
  }

  lemma {:induction false} AlwaysDueSoon(wait: nat, events: seq<Event>)
    ensures DueSoon(Exec(wait, events))
  {
    if events != [] {
      AlwaysDueSoon(wait, events[..|events| - 1]);
      InvAlways(wait, events[..|events| - 1]);
      StepDueSoon(Exec(wait, events[..|events| - 1]), events[|events| - 1]);
    }
  }

  /** The first call, and every call more than twice `wait` after the one before, runs the function at once. */
  lemma QuietCallRunsAtOnce(wait: nat, events: seq<Event>)
    requires var s := Exec(wait, events); s.calls == [] || s.calls[|s.calls| - 1] + 2 * wait < s.now
    ensures var s := Exec(wait, events); Exec(wait, events + [Called]).runs == s.runs + [Run(s.now, |s.calls|)]
  {
    hide *;
    InvAlways(wait, events);
    AlwaysDueSoon(wait, events);
    CalledWhenQuiet(Exec(wait, events));
    OneMoreEvent(wait, events, Called);
  }

  lemma OneMoreEvent(wait: nat, events: seq<Event>, e: Event)
    ensures Exec(wait, events + [e]) == Step(Exec(wait, events), e)
  {
    assert (events + [e])[..|events|] == events;
  }

  lemma NoTimers(s: State)
    requires Inv(s) && DueSoon(s) && (s.calls == [] || s.calls[|s.calls| - 1] + 2 * s.wait < s.now)
    ensures s.timers == []
  {
    hide RateOk, Served, Coming;
  }

  lemma CalledWhenQuiet(s: State)
    requires Inv(s) && DueSoon(s) && (s.calls == [] || s.calls[|s.calls| - 1] + 2 * s.wait < s.now)
    ensures Step(s, Called).runs == s.runs + [Run(s.now, |s.calls|)]
  {
    NoTimers(s);
    CallShape(s);
    hide CallOf, RateOk, Served, Coming;
  }

  // ---------------------------------------------------------------- the closures

  /** The two closures' variables and the event loop they run on. */
  class Throttled {
    const wait: nat
    var timeout: Option<nat>
    var throttling: bool
    var more: bool
    var args: nat
    var doneTimeout: Option<nat>
    var now: nat
    var timers: seq<Timer>
    var nextId: nat
    var calls: seq<nat>
    var runs: seq<Run>

    ghost function View(): State
      reads this
    {
      State(wait, timeout, throttling, more, args, doneTimeout, now, timers, nextId, calls, runs)
    }

    ghost predicate Valid()
      reads this
    {
      Inv(View())
    }

    /** The object's runs keep their distance and get ever newer arguments. */
    lemma RunsKeepDistance(i: nat, j: nat)
      requires Valid() && i < j < |runs|
      ensures runs[j].time - runs[i].time >= wait && runs[i].args < runs[j].args
    {
    }

    /** And every call of the object is served in time. */
    lemma CallsAreServed(k: nat)
      requires Valid() && k < |calls| && calls[k] + wait < now
      ensures exists i :: 0 <= i < |runs| && calls[k] <= runs[i].time <= calls[k] + wait && k <= runs[i].args
    {
      InvServes(View(), k);
    }

    /** A throttled function that has not been called. */
    constructor (wait: nat)
      ensures View() == Fresh(wait) && Valid()
    {
      this.wait := wait;
      timeout, throttling, more, args, doneTimeout := None, false, false, 0, None;
      now, timers, nextId, calls, runs := 0, [], 0, [], [];
    }

    method SetTimeout(callback: Callback) returns (id: nat)
      modifies this`timers, this`nextId
      ensures id == old(nextId) && nextId == id + 1
      ensures timers == old(timers) + [Timer(id, now + wait, callback)]
    {
      id := nextId;
      timers, nextId := timers + [Timer(id, now + wait, callback)], nextId + 1;
    }

    method ClearTimeout(id: Option<nat>)
      modifies this`timers
      ensures timers == Without(old(timers), id)
    {
      var kept, i := [], 0;
      while i < |timers|
        invariant 0 <= i <= |timers| && timers == old(timers)
        invariant kept == Without(timers[..i], id)
      {
        assert timers[..i + 1][..i] == timers[..i];
        if id != Some(timers[i].id) { kept := kept + [timers[i]]; }
        i := i + 1;
      }
      assert timers[..i] == timers;
      timers := kept;
    }

    /** The function _.debounce returns */
    method Debounced()
      modifies this`timers, this`nextId, this`doneTimeout
      ensures View() == CallWhenDone(old(View()))
    {
      ClearTimeout(doneTimeout);
      var id := SetTimeout(WhenDone);
      doneTimeout := Some(id);
    }

    method Apply()
      modifies this`runs
      ensures View() == RunFunc(old(View()))
    {
      runs := runs + [Run(now, args)];
    }

    method ArmLater()
      modifies this`args, this`calls, this`timers, this`timeout, this`nextId
      ensures View() == Arm(old(View()))
    {
      args, calls := |calls|, calls + [now];
      if timeout.None? {
        var id := SetTimeout(Later);
        timeout := Some(id);
      }
    }

    /** The function _.throttle returns */
    method Call()
      requires Valid()
      modifies this
      ensures Valid() && View() == Step(old(View()), Called)
    {
      StepKeeps(View(), Called);
      assert Step(View(), Called) == CallWhenDone(RunOrNote(Arm(View()))).(throttling := true);
      hide Inv, Step, CallWhenDone, CallOf;
      ArmLater();
      assert View() == Arm(old(View()));
      if throttling {
        more := true;
      } else {
        Apply();
      }
      assert View() == RunOrNote(Arm(old(View())));
      hide Arm, RunOrNote;
      Debounced();
      throttling := true;
    }

    /** throttle's `later` */
    method RunLater()
      modifies this`timeout, this`runs, this`timers, this`nextId, this`doneTimeout
      ensures View() == LaterOf(old(View()))
    {
      hide CallWhenDone;
      timeout := None;
      if more { Apply(); }
      Debounced();
    }

    /** debounce's `later`, with the function throttle gave it */
    method RunWhenDone()
      modifies this`doneTimeout, this`more, this`throttling
      ensures View() == WhenDoneOf(old(View()))
    {
      doneTimeout := None;
      more, throttling := false, false;
    }

    /** The event loop takes the next timer and runs its callback. */
    method RunTimer()
      requires timers != []
      modifies this
      ensures View() == FireOf(old(View()))
    {
      hide LaterOf, WhenDoneOf;
      var i := Next(timers);
      var callback := timers[i].callback;
      timers := timers[..i] + timers[i + 1..];
      match callback
      case Later => RunLater();
      case WhenDone => RunWhenDone();
    }

    /** A timer is due. */
    method Fire()
      requires Valid() && Legal(View(), TimerFires)
      modifies this
      ensures Valid() && View() == Step(old(View()), TimerFires)
    {
      StepKeeps(View(), TimerFires);
      hide Inv, FireOf;
      RunTimer();
    }

    method Pass(until: nat)
      requires Valid() && Legal(View(), TimePasses(until))
      modifies this`now
      ensures Valid() && View() == Step(old(View()), TimePasses(until))
    {
      StepKeeps(View(), TimePasses(until));
      hide Inv;
      now := until;
    }
  }
}
