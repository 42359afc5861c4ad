/** The simple watcher: create and remove records pass straight through,
    and modify records are debounced by a single-slot state that holds at
    most one pending path and its timer. */
module SimpleWatch {
  import opened FsEvents

  /** The public events of the simple watcher. */
  datatype Event = Create(path: string) | Modify(path: string) | Remove(path: string)

  /** The modify slot: the pending timer handle, the pending path, the set
      of timer handles still live (the pending one and any orphans), and the
      next handle the timer service will hand out. Handles start at 1, so a
      present handle is never falsy. */
  datatype State = State(timeout: Option<nat>, path: Option<string>, live: set<nat>, nextHandle: nat)

  const Idle := State(None, None, {}, 1)

  /** JavaScript truthiness of an optional string: absent and "" are falsy. */
  predicate Truthy(p: Option<string>) {
    p.Some? && p.value != ""
  }

  /** The outcome of a call into the slot: either it threw, or it returned,
      possibly after invoking the modify callback with a path. */
  datatype Outcome = Threw(after: State) | Returned(called: Option<string>, after: State)

  /** `set`: arm a fresh timer and remember the path; the previous handle is
      not cancelled here. */
  function Armed(s: State, p: string): State {
    State(Some(s.nextHandle), Some(p), s.live + {s.nextHandle}, s.nextHandle + 1)
  }

  /** `clear`: cancel the pending timer, if any, and forget the path. */
  function Cleared(s: State): State {
    State(None, None, if s.timeout.Some? then s.live - {s.timeout.value} else s.live, s.nextHandle)
  }

  /** `invoke`: throw unless both the path and the timer are truthy;
      otherwise call back with the path and clear. */
  function Invoked(s: State): Outcome {
    if !Truthy(s.path) || s.timeout.None? then Threw(s)
    else Returned(s.path, Cleared(s))
  }

  /** `update(p)` for one modify record. */
  function Updated(s: State, p: string): Outcome {
    if !Truthy(s.path) then Returned(None, Armed(s, p))
    else if s.path.value == p then Returned(None, Armed(Cleared(s), p))
    else match Invoked(s)
      case Threw(t) => Threw(t)
      case Returned(c, t) => Returned(c, Armed(t, p))
  }

  /** A timer fires: a cancelled or already fired handle does nothing; a live
      one is spent and runs `invoke`. */
  function SlotFired(s: State, handle: nat): Outcome {
    if handle !in s.live then Returned(None, s)
    else Invoked(s.(live := s.live - {handle}))
  }

  ghost predicate StateValid(s: State) {
    && 1 <= s.nextHandle
    && (s.path.Some? <==> s.timeout.Some?)
    && (s.timeout.Some? ==> s.timeout.value in s.live)
    && (forall h | h in s.live :: 1 <= h < s.nextHandle)
  }

  /** The handles that are live but no longer the pending one: timers that
      `set` overwrote without cancelling. */
  function Orphans(s: State): set<nat> {
    if s.timeout.Some? then s.live - {s.timeout.value} else s.live
  }

  /** The whole watcher: where its loop is, the slot, and what it has
      dispatched. */
  datatype Sys = Sys(phase: Phase, slot: State, emitted: seq<Event>)

  const Start := Sys(Listening, Idle, [])

  /** The outcome of a slot call, folded into the watcher: a throw ends the
      process, a callback dispatches `modify`. */
  function Applied(sys: Sys, o: Outcome): Sys {
    match o
    case Threw(t) => Sys(Failed, t, sys.emitted)
    case Returned(c, t) =>
      Sys(sys.phase, t, if c.Some? then sys.emitted + [Event.Modify(c.value)] else sys.emitted)
  }

  /** Whether `handle` drops a record before `process`: a truthy flag, other than
      exactly one path, or a kind it does not follow. */
  predicate Dropped(record: FsEvent) {
    Truthy(record.flag) || |record.paths| != 1 || record.kind in {Any, Access, Other}
  }

  /** `handle` followed by `process`, for one record while the loop runs. */
  function Handled(sys: Sys, record: FsEvent): Sys {
    if sys.phase != Listening || Dropped(record) then sys
    else
      var p := record.paths[0];
      match record.kind
      case Create => sys.(emitted := sys.emitted + [Event.Create(p)])
      case Remove => sys.(emitted := sys.emitted + [Event.Remove(p)])
      case _ => Applied(sys, Updated(sys.slot, p))
  }

  /** A timer fires, unless an exception has already ended the process. */
  function Fired(sys: Sys, handle: nat): Sys {
    if sys.phase == Failed then sys else Applied(sys, SlotFired(sys.slot, handle))
  }

  /** The loop ends (abort or end of the source) and runs `cleanup`, which
      clears the slot. */
  function Stopped(sys: Sys): Sys {
    if sys.phase == Listening then sys.(phase := Closed, slot := Cleared(sys.slot)) else sys
  }

  ghost predicate SysValid(sys: Sys) {
    sys.phase == Failed || StateValid(sys.slot)
  }

  /** The modify slot of the source, with its fields. */
  class WatcherState {
    var timeout: Option<nat>
    var path: Option<string>
    var live: set<nat>
    var nextHandle: nat

    function Snap(): State
      reads this
    {
      State(timeout, path, live, nextHandle)
    }

    constructor ()
      ensures Snap() == Idle
    {
      timeout, path, live, nextHandle := None, None, {}, 1;
    }

    method Set(p: string)
      modifies this
      ensures Snap() == Armed(old(Snap()), p)
    {
      timeout := Some(nextHandle);
      live := live + {nextHandle};
      nextHandle := nextHandle + 1;
      path := Some(p);
    }

    method Clear()
      modifies this
      ensures Snap() == Cleared(old(Snap()))
    {
      if timeout.Some? {
        live := live - {timeout.value};
      }
      timeout := None;
      path := None;
    }

    method Invoke() returns (threw: bool, called: Option<string>)
      modifies this
      ensures (if threw then Threw(Snap()) else Returned(called, Snap())) == Invoked(old(Snap()))
    {
      if !Truthy(path) || timeout.None? {
        return true, None;
      }
      called := path;
      Clear();
      threw := false;
    }

    method Update(p: string) returns (threw: bool, called: Option<string>)
      modifies this
      ensures (if threw then Threw(Snap()) else Returned(called, Snap())) == Updated(old(Snap()), p)
    {
      if !Truthy(path) {
        Set(p);
        return false, None;
      }
      if path.value == p {
        Clear();
        Set(p);
        return false, None;
      }
      threw, called := Invoke();
      if !threw {
        Set(p);
      }
    }

    /** A timer callback runs: the handle is spent, then `invoke` runs. */
    method Fire(handle: nat) returns (threw: bool, called: Option<string>)
      modifies this
      ensures (if threw then Threw(Snap()) else Returned(called, Snap())) == SlotFired(old(Snap()), handle)
    {
      if handle !in live {
        return false, None;
      }
      live := live - {handle};
      threw, called := Invoke();
    }

    method Cleanup()
      modifies this
      ensures Snap() == Cleared(old(Snap()))
    {
      Clear();
    }
  }

  /** The simple watcher of the source: its modify slot and the events it
      has dispatched. */
  class Watcher {
    const modifyState: WatcherState
    var phase: Phase
    var emitted: seq<Event>

    function State(): Sys
      reads this, modifyState
    {
      Sys(phase, modifyState.Snap(), emitted)
    }

    ghost predicate Valid()
      reads this, modifyState
    {
      SysValid(State())
    }

    constructor ()
      ensures fresh(modifyState) && State() == Start && Valid()
    {
      modifyState := new WatcherState();
      phase := Listening;
      emitted := [];
    }

    method Process(p: string, kind: Kind)
      requires phase == Listening && kind in {Kind.Create, Kind.Modify, Kind.Remove}
      modifies this, modifyState
      ensures State() == Handled(old(State()), FsEvent(kind, [p], None))
    {
      match kind
      case Create => emitted := emitted + [Event.Create(p)];
      case Remove => emitted := emitted + [Event.Remove(p)];
      case Modify =>
        var threw, called := modifyState.Update(p);
        if threw {
          phase := Failed;
        } else if called.Some? {
          emitted := emitted + [Event.Modify(called.value)];
        }
    }

    method Handle(record: FsEvent)
      requires Valid()
      modifies this, modifyState
      ensures Valid()
      ensures State() == Handled(old(State()), record)
    {
      HandledKeepsValid(State(), record);
      if phase != Listening || Truthy(record.flag) || |record.paths| != 1 {
        return;
      }
      if record.kind in {Any, Access, Other} {
        return;
      }
      Process(record.paths[0], record.kind);
    }

    method Fire(handle: nat)
      requires Valid()
      modifies this, modifyState
      ensures Valid()
      ensures State() == Fired(old(State()), handle)
    {
      FiredKeepsValid(State(), handle);
      if phase == Failed {
        return;
      }
      var threw, called := modifyState.Fire(handle);
      if threw {
        phase := Failed;
      } else if called.Some? {
        emitted := emitted + [Event.Modify(called.value)];
      }
    }

    method Stop()
      requires Valid()
      modifies this, modifyState
      ensures Valid()
      ensures State() == Stopped(old(State()))
    {
      StoppedKeepsValid(State());
      if phase == Listening {
        phase := Closed;
        modifyState.Cleanup();
      }
    }
  }

  lemma UpdatedKeepsValid(s: State, p: string)
    requires StateValid(s)
    ensures Updated(s, p).Returned? && StateValid(Updated(s, p).after)
  {
  }

  lemma HandledKeepsValid(sys: Sys, record: FsEvent)
    requires SysValid(sys)
    ensures SysValid(Handled(sys, record))
  {
    if sys.phase == Listening && !Dropped(record) && record.kind == Kind.Modify {
      UpdatedKeepsValid(sys.slot, record.paths[0]);
    }
  }

  lemma FiredKeepsValid(sys: Sys, handle: nat)
    requires SysValid(sys)
    ensures SysValid(Fired(sys, handle))
  {
  }

  lemma StoppedKeepsValid(sys: Sys)
    requires SysValid(sys)
    ensures SysValid(Stopped(sys))
  {
  }

  /** Modify records are never lost to an exception: on a valid slot
      `update` always returns, and it invokes the callback exactly when a
      different truthy path was pending, with that path. Afterwards a fresh
      timer is pending for the new path. A truthy pending path's old timer is
      cancelled, so it cannot call back a second time, and no orphan is added.
      Only a pending "" leaves its timer behind as an orphan. */
  lemma UpdateCallsBackOnPathChange(s: State, p: string)
    requires StateValid(s)
    ensures Updated(s, p).Returned?
    ensures Updated(s, p).called == (if Truthy(s.path) && s.path.value != p then s.path else None)
    ensures Updated(s, p).after.path == Some(p)
    ensures Updated(s, p).after.timeout == Some(s.nextHandle)
    ensures Updated(s, p).after.nextHandle == s.nextHandle + 1
    ensures Truthy(s.path) ==> s.timeout.value !in Updated(s, p).after.live
    ensures Truthy(s.path) || s.path.None? ==> Orphans(Updated(s, p).after) == Orphans(s)
    ensures !Truthy(s.path) && s.timeout.Some? ==>
      Orphans(Updated(s, p).after) == Orphans(s) + {s.timeout.value}
  {
  }

  /** A repeated modify of the pending path restarts its timer: the old
      handle is cancelled, a fresh one is pending, nothing is dispatched. */
  lemma RepeatedModifyRestartsTimer(sys: Sys, p: string)
    requires SysValid(sys) && sys.phase == Listening
    requires sys.slot.path == Some(p) && p != ""
    ensures var r := Handled(sys, FsEvent(Kind.Modify, [p], None));
      && r.emitted == sys.emitted
      && r.slot.path == Some(p)
      && sys.slot.timeout.value !in r.slot.live
      && r.slot.timeout == Some(sys.slot.nextHandle)
      && Orphans(r.slot) == Orphans(sys.slot)
  {
  }

  /** Create and remove records are dispatched at once and leave the modify
      slot as it was. */
  lemma CreateAndRemovePassThrough(sys: Sys, p: string, kind: Kind)
    requires sys.phase == Listening && kind in {Kind.Create, Kind.Remove}
    ensures var r := Handled(sys, FsEvent(kind, [p], None));
      && r.slot == sys.slot
      && r.emitted == sys.emitted + [if kind == Kind.Create then Event.Create(p) else Event.Remove(p)]
  {
  }

  /** Records with a truthy flag, with other than one path, or of a kind the
      watcher does not follow, change nothing. */
  lemma DroppedRecordsChangeNothing(sys: Sys, record: FsEvent)
    requires Dropped(record)
    ensures Handled(sys, record) == sys
  {
  }

  /** The pending timer firing dispatches `modify` for the pending path (or
      throws when that path is ""), and leaves the slot empty. */
  lemma PendingTimerDispatches(sys: Sys)
    requires SysValid(sys) && sys.phase != Failed && sys.slot.timeout.Some?
    ensures var r := Fired(sys, sys.slot.timeout.value);
      if sys.slot.path == Some("") then r.phase == Failed
      else
        && r.emitted == sys.emitted + [Event.Modify(sys.slot.path.value)]
        && r.slot.path.None? && r.slot.timeout.None?
        && r.slot.live == Orphans(sys.slot)
  {
  }

  /** Stopping the loop clears the slot: afterwards only orphaned timers are
      live, and stopping again changes nothing. */
  lemma StopClearsSlot(sys: Sys)
    requires SysValid(sys) && sys.phase == Listening
    ensures var r := Stopped(sys);
      && r.phase == Closed && r.slot.path.None? && r.slot.timeout.None?
      && r.slot.live == Orphans(sys.slot)
      && Stopped(r) == r
  {
  }

  /** A modify of the path "" arms a timer whose `invoke` throws, since ""
      is falsy: the process fails when the timer fires. */
  lemma EmptyPathTimerThrows()
    ensures var s1 := Handled(Start, FsEvent(Kind.Modify, [""], None));
      var s2 := Fired(s1, 1);
      && s1.slot.timeout == Some(1)
      && s2.phase == Failed
  {
  }

  /** After a modify of "", a modify of another path arms a second timer
      without cancelling the first; the orphan fires first, dispatches the
      new path early and cancels the second timer. */
  lemma EmptyPathLeavesOrphan(p: string)
    requires p != ""
    ensures var s1 := Handled(Start, FsEvent(Kind.Modify, [""], None));
      var s2 := Handled(s1, FsEvent(Kind.Modify, [p], None));
      var s3 := Fired(s2, 1);
      && Orphans(s2.slot) == {1}
      && s3.emitted == [Event.Modify(p)]
      && s3.slot.live == {}
      && Fired(s3, 2) == s3
  {
    var s1 := Handled(Start, FsEvent(Kind.Modify, [""], None));
    assert s1.slot == State(Some(1), Some(""), {1}, 2);
    var s2 := Handled(s1, FsEvent(Kind.Modify, [p], None));
    assert s2.slot == State(Some(2), Some(p), {1, 2}, 3);
    assert s2.slot.live - {2} == {1};
    assert ({1, 2} - {1}) - {2} == {};
  }

  /** Two modifies of different paths: the first is dispatched when the
      second arrives, the second when its timer fires. */
  lemma ModifyThenOtherModify(a: string, b: string)
    requires a != "" && b != "" && a != b
    ensures var s1 := Handled(Start, FsEvent(Kind.Modify, [a], None));
      var s2 := Handled(s1, FsEvent(Kind.Modify, [b], None));
      var s3 := Fired(s2, 2);
      && s2.emitted == [Event.Modify(a)]
      && s3.emitted == [Event.Modify(a), Event.Modify(b)]
      && s3.slot == State(None, None, {}, 3)
  {
    var s1 := Handled(Start, FsEvent(Kind.Modify, [a], None));
    assert s1.slot == State(Some(1), Some(a), {1}, 2);
    var s2 := Handled(s1, FsEvent(Kind.Modify, [b], None));
    assert ({1} - {1}) + {2} == {2};
    assert s2.slot == State(Some(2), Some(b), {2}, 3);
    assert {2} - {2} == {};
  }
}
