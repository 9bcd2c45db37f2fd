/**
 A memory list that can be locked, as notify's is once the deferred is settled: what has come to each of its
 callbacks.
*/
module NotifyLists {
  import opened Lists
  import opened Callbacks

  // A locked list delivers the value it remembers and no other.  Were the others never sent and the lock not there, it
  // would be in the same position; only what has had its turn is taken out of it.

  function Unlocked<F, V>(s: State<F, V>): State<F, V> {
    if s.locked && s.memory.Some? && s.memory.value.serial < |s.sent|
    then s.(locked := false, sent := s.sent[..s.memory.value.serial + 1]) else s
  }

  /** Every registration is in the list, or has had all up to the value remembered. */
  ghost predicate Cared<F, V>(s: State<F, V>)
    requires |s.births| == |s.added|
  {
    forall id: nat {:trigger CallsTo(s.calls, id)} :: id < |s.added| ==>
      Listed(s, id) || (s.locked && CallsTo(s.calls, id) == Range(s.births[id], Current(s) + 1))
  }

  /** Nothing was ever delivered, and nothing will be. */
  ghost predicate Silent<F, V>(s: State<F, V>) {
    && s.locked && !s.live && s.list == [] && s.queue == [] && s.memory.None? && s.pc.Idle? && s.calls == []
    && s.sent == [] && |s.births| == |s.added| && forall id :: 0 <= id < |s.births| ==> s.births[id] == 0
  }

  ghost predicate Live<F, V>(s: State<F, V>) {
    s.live && (s.locked ==> s.memory.Some? && Current(s) < |s.sent|) && GapFree(Unlocked(s)) && Cared(s)
  }

  ghost predicate Ok<F, V>(s: State<F, V>) {
    Silent(s) || Live(s)
  }

  /** How many values have been, or are being, delivered. */
  function Delivered<F, V>(s: State<F, V>): nat {
    if s.memory.Some? then s.memory.value.serial + 1 else 0
  }

  // ---------------------------------------------------------------- at rest

  lemma ListedServed<F, V>(s: State<F, V>, id: nat)
    requires GapFree(s) && s.pc.Idle? && Listed(s, id)
    ensures CallsTo(s.calls, id) == Range(s.births[id], |s.sent|) && s.births[id] <= |s.sent|
  {
    var i :| 0 <= i < |s.list| && s.list[i] == Entry(s.added[id], id);
    EntryServed(s, i);
    ServedTo(s, i);
    hide GapFree, CallsTo;
  }

  lemma RestDelivers<F, V>(s: State<F, V>)
    requires Ok(s) && s.pc.Idle?
    ensures |s.births| == |s.added| && Delivered(s) <= |s.sent| && (!s.locked ==> Delivered(s) == |s.sent|)
    ensures forall id: nat {:trigger CallsTo(s.calls, id)} :: id < |s.added| ==>
              CallsTo(s.calls, id) == Range(s.births[id], Delivered(s))
    ensures forall c :: c in s.calls ==> c.id < |s.added| && c.fn == s.added[c.id] && EventOk(s.sent, c.event)
  {
    hide CallsTo, ListServed, QueueOk, Distinct, Consecutive;
    if Live(s) {
      forall id: nat | id < |s.added| ensures CallsTo(s.calls, id) == Range(s.births[id], Delivered(s)) {
        if Listed(s, id) { ListedServed(Unlocked(s), id); }
      }
    } else {
      forall id: nat | id < |s.added| ensures CallsTo(s.calls, id) == Range(s.births[id], Delivered(s)) {
        CallsToNobody(s.calls, id);
      }
    }
  }

  // ---------------------------------------------------------------- each step keeps it

  /** What an addition changes. */
  lemma AddChanges<F, V>(s: State<F, V>, fns: seq<F>)
    requires s.opts == MEMORY && s.live
    ensures var s' := AddFns(s, fns);
            && s'.list == s.list + NewEntries(fns, |s.births|) && s'.added == s.added + fns && s'.memory == s.memory
            && s'.calls == s.calls && s'.sent == s.sent && s'.locked == s.locked && s'.live
            && s.births <= s'.births && |s'.births| == |s.births| + |fns|
            && Unlocked(s') == AddFns(Unlocked(s), fns)
  {
    Added(s, fns);
    Added(Unlocked(s), fns);
    hide AddFns, NewEntries;
  }

  lemma AddCares<F, V>(s: State<F, V>, s': State<F, V>, fns: seq<F>)
    requires |s.births| == |s.added| && |s'.births| == |s'.added| && Cared(s) && s.births <= s'.births
    requires s'.list == s.list + NewEntries(fns, |s.births|) && s'.added == s.added + fns && s'.memory == s.memory
    requires s'.calls == s.calls && s'.locked == s.locked
    ensures Cared(s')
  {
    forall id: nat | id < |s'.added|
      ensures Listed(s', id) || (s'.locked && CallsTo(s'.calls, id) == Range(s'.births[id], Current(s') + 1))
    {
      if id < |s.added| {
        assert CallsTo(s.calls, id) == CallsTo(s.calls, id);
        if Listed(s, id) { assert Entry(s.added[id], id) in s'.list; }
      } else {
        assert NewEntries(fns, |s.births|)[id - |s.births|] == Entry(s'.added[id], id);
        assert s'.list[|s.list| + (id - |s.births|)] == Entry(s'.added[id], id);
      }
    }
  }

  lemma AddOk<F, V>(s: State<F, V>, fns: seq<F>)
    requires Ok(s) && (s.pc.Idle? || s.pc.InCall?)
    ensures Ok(AddFns(s, fns)) && Delivered(AddFns(s, fns)) == Delivered(s)
  {
    if Live(s) {
      assert s.opts == MEMORY && |s.births| == |s.added|;
      AddChanges(s, fns);
      hide AddFns, Cared, GapFree, NewEntries;
      AddKeeps(Unlocked(s), fns);
      AddCares(s, AddFns(s, fns), fns);
    }
  }

  lemma CaresStill<F, V>(s: State<F, V>, s': State<F, V>)
    requires |s.births| == |s.added| && Cared(s) && s'.births == s.births && s'.added == s.added
    requires s'.list == s.list && s'.calls == s.calls && s'.locked == s.locked
    requires s.locked ==> Current(s') == Current(s)
    ensures Cared(s')
  {
    forall id: nat | id < |s'.added|
      ensures Listed(s', id) || (s'.locked && CallsTo(s'.calls, id) == Range(s'.births[id], Current(s') + 1))
    {
      assert CallsTo(s.calls, id) == CallsTo(s.calls, id);
    }
  }

  lemma FireOk<F, V>(s: State<F, V>, args: V)
    requires Ok(s) && (s.pc.Idle? || s.pc.InCall?)
    ensures Ok(Apply(s, Fire(args))) && Delivered(Apply(s, Fire(args))) == Delivered(s)
  {
    if !s.locked {
      FireKeeps(s, args);
      assert s.opts == MEMORY && |s.births| == |s.added|;
      hide GapFree, Cared;
      CaresStill(s, Apply(s, Op<F, V>.Fire(args)));
    }
  }

  lemma ReturnOk<F, V>(s: State<F, V>, isFalse: bool)
    requires Ok(s) && s.pc.InCall?
    ensures Ok(ReturnOf(s, isFalse)) && Delivered(ReturnOf(s, isFalse)) == Delivered(s)
  {
    var s' := ReturnOf(s, isFalse);
    assert s.opts == MEMORY && s' == s.(pc := Inner) && Unlocked(s') == Unlocked(s).(pc := Inner);
    assert |s.births| == |s.added|;
    ReturnKeeps(Unlocked(s), Unlocked(s'));
    hide GapFree, ReturnOf, Cared;
    CaresStill(s, s');
  }

  // the loops

  lemma CallCares<F, V>(s: State<F, V>)
    requires |s.births| == |s.added| && Cared(s) && s.pc.Inner? && TickOf(s).pc.InCall? && s.memory.Some?
    requires Listed(s, s.list[s.firingIndex + 1].id)
    ensures Cared(TickOf(s))
  {
    var s', called := TickOf(s), s.list[s.firingIndex + 1];
    var c := s'.calls[|s.calls|];
    forall id: nat | id < |s'.added|
      ensures Listed(s', id) || (s'.locked && CallsTo(s'.calls, id) == Range(s'.births[id], Current(s') + 1))
    {
      assert CallsTo(s.calls, id) == CallsTo(s.calls, id);
      if !Listed(s, id) { CallsToMore(s.calls, c, id); }
    }
  }

  lemma NextListed<F, V>(s: State<F, V>)
    requires GapFree(s) && s.firingIndex + 1 < |s.list|
    ensures |s.births| == |s.added| && 0 <= s.firingIndex + 1 && Listed(s, s.list[s.firingIndex + 1].id)
  {
    assert ListServed'(s);
    NextServed(s);
    hide GapFree, ListServed', CallsTo, Range;
  }

  lemma InnerOk<F, V>(s: State<F, V>)
    requires Ok(s) && s.pc.Inner?
    ensures Ok(TickOf(s)) && Delivered(TickOf(s)) == Delivered(s)
  {
    var o := Unlocked(s);
    assert o.memory.Some? && |s.births| == |s.added| && 0 <= s.firingIndex + 1 <= |s.list| && s.opts == MEMORY;
    assert Unlocked(TickOf(s)) == TickOf(o);
    if s.firingIndex + 1 < |s.list| { NextListed(o); CallServes(o); } else { PassEnds(o); }
    hide GapFree, Cared;
    if s.firingIndex + 1 < |s.list| { CallCares(s); } else { CaresStill(s, TickOf(s)); }
  }

  /** A locked list that fires again has the value it remembers before it. */
  lemma SameValue<F, V>(s: State<F, V>)
    requires Live(s) && s.locked && (s.pc.Outer? || s.pc.Idle? || s.pc.InCall?)
    ensures if s.pc.Outer? then s.queue != [] ==> |s.queue| == 1 && s.queue[0].serial == Current(s) else s.queue == []
  {
    hide ListServed, Distinct, CallsOk, Consecutive, Cared;
  }

  lemma NoList<F, V>(s: State<F, V>)
    requires GapFree(s) && s.pc.Idle?
    ensures GapFree(s.(list := []))
  {
    TwoParts(s);
    TwoParts(s.(list := []));
    hide GapFree;
    ConsecutiveStill(s, s.(list := []));
    hide Consecutive, EventOk, InOrder;
    assert Cursor(s.(list := [])) == Cursor(s) && Pending(s.(list := [])) == Pending(s);
    PartsServed(s.(list := []), [], []);
  }

  /** At the end of a fire the entries of a locked list have had all there was for them. */
  lemma EndOk<F, V>(s: State<F, V>)
    requires Live(s) && s.pc.Outer? && s.queue == [] && s.locked && GapFree(TickOf(Unlocked(s)))
    requires |s.births| == |s.added| && s.opts == MEMORY
    ensures Ok(TickOf(s))
  {
    var r, s' := TickOf(Unlocked(s)), TickOf(s);
    assert r == Unlocked(s).(pc := Idle) && s' == s.(list := [], pc := Idle) && Unlocked(s') == r.(list := []);
    NoList(r);
    forall id: nat | id < |s'.added|
      ensures Listed(s', id) || (s'.locked && CallsTo(s'.calls, id) == Range(s'.births[id], Current(s') + 1))
    {
      assert CallsTo(s.calls, id) == CallsTo(s.calls, id);
      if Listed(s, id) { ListedServed(r, id); }
    }
    hide GapFree;
  }

  lemma OuterShape<F, V>(s: State<F, V>)
    requires Live(s) && s.pc.Outer?
    ensures |s.births| == |s.added| && s.opts == MEMORY && 0 <= s.firingIndex + 1 <= |s.list|
    ensures s.queue != [] ==> EventOk(Unlocked(s).sent, s.queue[0])
    ensures GapFree(Unlocked(s)) && GapFree(TickOf(Unlocked(s)))
  {
    NextEvent(Unlocked(s));
    hide ListServed, Distinct, CallsOk, Consecutive, TickOf;
  }

  lemma OuterCares<F, V>(s: State<F, V>)
    requires Live(s) && s.pc.Outer? && (s.queue != [] || !s.locked) && s.opts == MEMORY && |s.births| == |s.added|
    requires s.queue != [] ==> EventOk(Unlocked(s).sent, s.queue[0])
    requires s.locked ==> (s.queue != [] ==> |s.queue| == 1 && s.queue[0].serial == Current(s))
    requires GapFree(TickOf(Unlocked(s)))
    ensures Ok(TickOf(s)) && (s.locked ==> Delivered(TickOf(s)) == Delivered(s))
  {
    hide GapFree, Cared;
    CaresStill(s, TickOf(s));
  }

  lemma OuterOk<F, V>(s: State<F, V>)
    requires Ok(s) && s.pc.Outer?
    ensures Ok(TickOf(s)) && (s.locked ==> Delivered(TickOf(s)) == Delivered(s))
  {
    OuterShape(s);
    if s.locked { SameValue(s); }
    hide GapFree, Cared, EventOk;
    if s.queue != [] || !s.locked { OuterCares(s); } else { EndOk(s); }
  }

  // the lock

  lemma {:induction false} SerialCalled<F, V>(calls: seq<Call<F, V>>, c: Call<F, V>)
    requires c in calls
    ensures c.event.serial in CallsTo(calls, c.id)
  {
    var n := |calls| - 1;
    if calls[n] == c {
      assert CallsTo(calls, c.id) == CallsTo(calls[..n], c.id) + [c.event.serial];
    } else {
      assert calls == calls[..n] + [calls[n]];
      SerialCalled(calls[..n], c);
    }
  }

  lemma BelowEnd(a: nat, b: nat, x: nat)
    requires x in Range(a, b)
    ensures x < b
  {
  }

  /** No call has had a value behind the one remembered. */
  lemma CallsSoFar<F, V>(s: State<F, V>, c: Call<F, V>)
    requires GapFree(s) && (s.pc.Idle? || s.pc.InCall?) && !s.locked && Cared(s) && c in s.calls
    ensures c.event.serial < Delivered(s)
  {
    var i := CalledEntry(s, c);
    hide GapFree, CallsTo, Cared, Cursor, Delivered;
    ServedTo(s, i);
    CursorSoFar(s, i);
    SerialCalled(s.calls, c);
    hide Range;
    BelowEnd(s.births[c.id], if i <= s.firingIndex then Cursor(s) + 1 else Cursor(s), c.event.serial);
  }

  lemma CalledEntry<F, V>(s: State<F, V>, c: Call<F, V>) returns (i: nat)
    requires GapFree(s) && !s.locked && Cared(s) && c in s.calls
    ensures i < |s.list| && s.list[i].id == c.id
  {
    hide ListServed, QueueOk, MemoryOk, Distinct, Consecutive;
    var id := c.id;
    assert id < |s.added|;
    assert CallsTo(s.calls, id) == CallsTo(s.calls, id) && Listed(s, id);
    i :| 0 <= i < |s.list| && s.list[i] == Entry(s.added[id], id);
  }

  lemma CursorSoFar<F, V>(s: State<F, V>, i: nat)
    requires GapFree(s) && (s.pc.Idle? || s.pc.InCall?)
    ensures (if i <= s.firingIndex then Cursor(s) + 1 else Cursor(s)) <= Delivered(s)
  {
    hide ListServed, Distinct, Consecutive, CallsOk, CallsTo;
  }

  /** Without what was sent behind the value remembered. */
  function Shortened<F, V>(s: State<F, V>): State<F, V>
    requires s.memory.Some? && s.memory.value.serial < |s.sent|
  {
    s.(queue := [], sent := s.sent[..s.memory.value.serial + 1])
  }

  lemma ShortenedOk<F, V>(s: State<F, V>)
    requires GapFree(s) && (s.pc.Idle? || s.pc.InCall?) && s.memory.Some? && Cared(s) && !s.locked
    ensures Current(s) < |s.sent| && GapFree(Shortened(s))
  {
    var s' := Shortened(s);
    forall k | 0 <= k < |s.calls| ensures s.calls[k].event.serial < Delivered(s) { CallsSoFar(s, s.calls[k]); }
    TwoParts(s);
    TwoParts(s');
    assert Cursor(s') == Cursor(s) by { hide ListServed, Distinct, Consecutive, CallsOk, CallsTo, Cared; }
    SameList(s, s');
    ConsecutiveStill(s, s');
    hide GapFree, Consecutive, ListServed', Distinct, Cared, CallsTo;
  }

  lemma NeverCalled<F, V>(s: State<F, V>)
    requires GapFree(s) && s.pc.Idle? && s.memory.None? && Cared(s) && !s.locked
    ensures s.sent == [] && s.calls == [] && |s.births| == |s.added|
    ensures forall id :: 0 <= id < |s.births| ==> s.births[id] == 0
  {
    assert s.sent == [] && |s.births| == |s.added|;
    assert |s.calls| > 0 ==> EventOk(s.sent, s.calls[0].event);
    forall id: nat | id < |s.births| ensures s.births[id] == 0 {
      assert CallsTo(s.calls, id) == CallsTo(s.calls, id) && Listed(s, id);
      ListedServed(s, id);
    }
  }

  lemma LockCares<F, V>(s: State<F, V>)
    requires |s.births| == |s.added| && Cared(s) && !s.locked
    ensures Cared(s.(locked := true, queue := []))
  {
    var s' := s.(locked := true, queue := []);
    forall id: nat | id < |s'.added| ensures Listed(s', id) {
      assert CallsTo(s.calls, id) == CallsTo(s.calls, id);
    }
  }

  lemma LockLive<F, V>(s: State<F, V>)
    requires Live(s) && (s.pc.Idle? || s.pc.InCall?) && !s.locked && s.memory.Some?
    ensures Live(s.(locked := true, queue := []))
  {
    assert |s.births| == |s.added| && Unlocked(s) == s;
    ShortenedOk(s);
    hide GapFree, Cared;
    LockCares(s);
    assert Unlocked(s.(locked := true, queue := [])) == Shortened(s);
  }

  lemma LockIdle<F, V>(s: State<F, V>)
    requires Live(s) && (s.pc.Idle? || s.pc.InCall?) && !s.locked && s.memory.None?
    ensures Silent(Apply(s, Lock))
  {
    assert s.pc.Idle? by { hide ListServed, Distinct, Consecutive, CallsOk, CallsTo, Cared; }
    NeverCalled(s);
    hide GapFree, Cared;
  }

  lemma LockOk<F, V>(s: State<F, V>)
    requires Ok(s) && (s.pc.Idle? || s.pc.InCall?)
    ensures Ok(Apply(s, Lock)) && Delivered(Apply(s, Lock)) == Delivered(s)
  {
    hide GapFree, Cared;
    if !Silent(s) {
      assert Live(s);
      if s.locked { SameValue(s); }
      else if s.memory.None? { LockIdle(s); }
      else { LockLive(s); }
    }
  }
}
