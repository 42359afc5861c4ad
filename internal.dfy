/** The raw-event interpreter (layer 1): one record at a time, it keeps the
    current and previous record, a single global momentary marker and a
    per-path table of pending create/modify timers, and emits classified
    events. Timers are handles in a table of live callbacks; a timer firing
    is one more input step. */
module InternalWatch {
  import opened FsEvents

  /** The debounce threshold, in milliseconds. */
  const THRESHOLD: int := 4

  datatype Reason =
    | InitialCreate
    | WithCreate
    | MomentaryProgress
    | InitialModify
    | UndecidableModify
    | LinuxAccess
    | Unexpected

  /** The classified events this layer dispatches. */
  datatype Event =
    | Ignore(reason: Reason)
    | Momentary(at: string)
    | Move(from: string, to: string)
    | Remove(at: string)
    | Create(at: string)
    | Modify(at: string)

  /** A processed record: its kind, the time it was seen, its one path. */
  datatype Status = Status(kind: Kind, time: int, path: string)

  datatype Progress = CreateProgress | ModifyProgress

  /** The global single-slot marker of a path in a transient life cycle. */
  datatype MomentaryStatus = MomentaryStatus(progress: Progress, path: string)

  /** The pending create and modify timers of one path. */
  datatype TimeoutStatus = TimeoutStatus(createTimer: Option<nat>, modifyTimer: Option<nat>)

  const NoTimeouts := TimeoutStatus(None, None)

  /** The callback a live timer handle runs when it fires. */
  datatype Callback = ExpireCreate(path: string) | ExpireModify(path: string)

  /** The whole state of an interpreter, together with what it has emitted. */
  datatype Snapshot = Snapshot(
    phase: Phase,
    current: Option<Status>,
    previous: Option<Status>,
    momentary: Option<MomentaryStatus>,
    modifyHandle: map<string, int>,
    timeout: map<string, TimeoutStatus>,
    timers: map<nat, Callback>,
    nextHandle: nat,
    emitted: seq<Event>)

  const Initial := Snapshot(Listening, None, None, None, map[], map[], map[], 1, [])

  // ---------------------------------------------------------------------
  // The predicates the interpreter consults

  predicate IsEqualPaths(previous: Option<Status>, current: Option<Status>) {
    previous.Some? && current.Some? && previous.value.path == current.value.path
  }

  predicate IsEqualKinds(previous: Option<Status>, current: Option<Status>) {
    previous.Some? && current.Some? && previous.value.kind == current.value.kind
  }

  /** The window test, literally: with a target time it compares the target
      with the current time, otherwise the previous record's time with the
      current one, both as a signed difference. */
  predicate InThreshold(target: Option<int>, previous: Option<Status>, current: Option<Status>) {
    if target.Some? && current.Some? then target.value - current.value.time <= THRESHOLD
    else if previous.Some? && current.Some? then previous.value.time - current.value.time <= THRESHOLD
    else false
  }

  predicate InModifyIgnoring(modifyHandle: map<string, int>, previous: Option<Status>, current: Option<Status>) {
    && current.Some?
    && current.value.path in modifyHandle
    && InThreshold(Some(modifyHandle[current.value.path]), previous, current)
  }

  /** The marker names the current path, is at the phase the current kind
      continues (create then modify, modify then remove), and the previous
      record is in the window. */
  predicate InMomentaryProgress(momentary: Option<MomentaryStatus>, previous: Option<Status>, current: Option<Status>) {
    && current.Some?
    && momentary.Some?
    && (match momentary.value.progress
        case CreateProgress => current.value.kind == Kind.Modify
        case ModifyProgress => current.value.kind == Kind.Remove)
    && momentary.value.path == current.value.path
    && InThreshold(None, previous, current)
  }

  // ---------------------------------------------------------------------
  // Table helpers

  /** A copy of the path's entry, or an empty one (`{ ...this.timeout[path] }`). */
  function SlotsAt(timeout: map<string, TimeoutStatus>, path: string): TimeoutStatus {
    if path in timeout then timeout[path] else NoTimeouts
  }

  /** clearTimeout: a live handle is dropped; an absent one changes nothing. */
  function Cancel(timers: map<nat, Callback>, handle: Option<nat>): map<nat, Callback> {
    if handle.Some? then timers - {handle.value} else timers
  }

  predicate IsEmpty(t: TimeoutStatus) {
    t.createTimer.None? && t.modifyTimer.None?
  }

  /** The table after the purge that runs before each record. */
  function Purged(timeout: map<string, TimeoutStatus>): map<string, TimeoutStatus> {
    map k | k in timeout && !IsEmpty(timeout[k]) :: timeout[k]
  }

  /** The modify-handle table after its purge (entries out of the window go). */
  function PurgedHandles(modifyHandle: map<string, int>, previous: Option<Status>, current: Option<Status>): map<string, int> {
    map k | k in modifyHandle && InThreshold(Some(modifyHandle[k]), previous, current) :: modifyHandle[k]
  }

  // ---------------------------------------------------------------------
  // The transitions

  /** `detect`: classify the current record. An unlisted kind throws. */
  function Detected(s: Snapshot): (r: Snapshot)
    requires s.current.Some?
    ensures s.emitted <= r.emitted && |r.emitted| <= |s.emitted| + 2
  {
    match s.current.value.kind
    case Create => CreateDetected(s)
    case Modify => ModifyChecks(Advanced(s))
    case Remove => RemoveDetected(s)
    case Access => s.(emitted := s.emitted + [Ignore(LinuxAccess)])
    case _ => s.(phase := Failed)
  }

  /** A create: mark the path, drop its modify handle, arm its create timer
      (overwriting, not cancelling, any earlier one). */
  function CreateDetected(s: Snapshot): (r: Snapshot)
    requires s.current.Some?
    ensures s.emitted <= r.emitted && |r.emitted| == |s.emitted| + 1
  {
    var path := s.current.value.path;
    s.(momentary := Some(MomentaryStatus(CreateProgress, path)),
       modifyHandle := s.modifyHandle - {path},
       timeout := s.timeout[path := SlotsAt(s.timeout, path).(createTimer := Some(s.nextHandle))],
       timers := s.timers[s.nextHandle := ExpireCreate(path)],
       nextHandle := s.nextHandle + 1,
       emitted := s.emitted + [Ignore(InitialCreate)])
  }

  /** A remove: momentary when the marker is at modify for this path (reading
      the path's entry, which throws when it is missing), a plain remove
      otherwise. */
  function RemoveDetected(s: Snapshot): (r: Snapshot)
    requires s.current.Some?
    ensures s.emitted <= r.emitted && |r.emitted| <= |s.emitted| + 1
  {
    var path := s.current.value.path;
    if InMomentaryProgress(s.momentary, s.previous, s.current) then
      if path !in s.timeout then s.(phase := Failed)
      else
        s.(timers := Cancel(s.timers, s.timeout[path].createTimer),
           timeout := s.timeout[path := s.timeout[path].(createTimer := None)],
           momentary := None,
           emitted := s.emitted + [Momentary(path)])
    else
      s.(emitted := s.emitted + [Event.Remove(path)])
  }

  /** The first, non-exclusive step of a modify: a marker at create for this
      path advances to modify. */
  function Advanced(s: Snapshot): (r: Snapshot)
    requires s.current.Some?
    ensures r.current == s.current && s.emitted <= r.emitted && |r.emitted| <= |s.emitted| + 1
  {
    if InMomentaryProgress(s.momentary, s.previous, s.current) then
      s.(momentary := Some(MomentaryStatus(ModifyProgress, s.current.value.path)),
         emitted := s.emitted + [Ignore(MomentaryProgress)])
    else s
  }

  /** The exclusive checks of a modify, in the source's order. */
  function ModifyChecks(s: Snapshot): (r: Snapshot)
    requires s.current.Some?
    ensures s.emitted <= r.emitted && |r.emitted| == |s.emitted| + 1
  {
    var path := s.current.value.path;
    if InModifyIgnoring(s.modifyHandle, s.previous, s.current) then
      s.(modifyHandle := s.modifyHandle - {path},
         emitted := s.emitted + [Ignore(WithCreate)])
    else if IsEqualKinds(s.previous, s.current) && IsEqualPaths(s.previous, s.current) && path in s.timeout then
      s.(timers := Cancel(s.timers, s.timeout[path].modifyTimer),
         timeout := s.timeout[path := s.timeout[path].(modifyTimer := None)],
         emitted := s.emitted + [Event.Modify(path)])
    else if IsEqualKinds(s.previous, s.current) && !IsEqualPaths(s.previous, s.current)
            && s.previous.Some? && s.previous.value.path in s.timeout then
      var from := s.previous.value.path;
      s.(timers := Cancel(s.timers, s.timeout[from].modifyTimer),
         timeout := s.timeout[from := s.timeout[from].(modifyTimer := None)],
         emitted := s.emitted + [Move(from, path)])
    else if path in s.timeout && s.timeout[path].createTimer.Some? then
      s.(emitted := s.emitted + [Ignore(WithCreate)])
    else
      s.(timeout := s.timeout[path := SlotsAt(s.timeout, path).(modifyTimer := Some(s.nextHandle))],
         timers := s.timers[s.nextHandle := ExpireModify(path)],
         nextHandle := s.nextHandle + 1,
         emitted := s.emitted + [Ignore(InitialModify)])
  }

  /** One pass of the record loop: a record naming one path becomes the current
      record, the tables are purged, the record is classified, and (unless that
      threw) it becomes the previous record. */
  function Stepped(s: Snapshot, record: FsEvent, time: int): (r: Snapshot)
    ensures s.emitted <= r.emitted
  {
    if s.phase != Listening || |record.paths| != 1 then s
    else
      var current := Some(Status(record.kind, time, record.paths[0]));
      var purged := s.(current := current,
                       timeout := Purged(s.timeout),
                       modifyHandle := PurgedHandles(s.modifyHandle, s.previous, current));
      var detected := Detected(purged);
      if detected.phase == Failed then detected else detected.(previous := detected.current)
  }

  /** A live timer fires and runs its callback; a cancelled or spent handle
      never runs. Both callbacks read the path's entry, and throw when it has
      been purged. */
  function Fired(s: Snapshot, handle: nat): (r: Snapshot)
    ensures s.emitted <= r.emitted && |r.emitted| <= |s.emitted| + 1
  {
    if s.phase == Failed || handle !in s.timers then s
    else
      var timers := s.timers - {handle};
      match s.timers[handle]
      case ExpireCreate(path) =>
        if path !in s.timeout then s.(timers := timers, phase := Failed)
        else
          s.(timers := timers,
             timeout := s.timeout[path := s.timeout[path].(createTimer := None)],
             emitted := s.emitted + [Event.Create(path)],
             momentary := None)
      case ExpireModify(path) =>
        if path !in s.timeout then s.(timers := timers, phase := Failed)
        else
          s.(timers := timers,
             timeout := s.timeout[path := s.timeout[path].(modifyTimer := None)],
             emitted := s.emitted + [Event.Modify(path)])
  }

  /** Abort, or the source running out: the record loop ends, timers stay live. */
  function Stopped(s: Snapshot): (r: Snapshot)
    ensures r.timers == s.timers && r.emitted == s.emitted
    ensures r.phase == (if s.phase == Listening then Closed else s.phase)
  {
    if s.phase == Listening then s.(phase := Closed) else s
  }

  // ---------------------------------------------------------------------
  // The invariant

  /** A stored slot names a live timer whose callback is for that slot. */
  predicate SlotLive(timers: map<nat, Callback>, slot: Option<nat>, callback: Callback) {
    slot.Some? ==> slot.value in timers && timers[slot.value] == callback
  }

  /** A marker on a path implies that the path has an entry with a pending
      create timer. */
  predicate MarkerBacked(s: Snapshot) {
    s.momentary.Some? ==>
      s.momentary.value.path in s.timeout && s.timeout[s.momentary.value.path].createTimer.Some?
  }

  ghost predicate Valid(s: Snapshot) {
    && s.modifyHandle == map[]
    && 1 <= s.nextHandle
    && (forall h | h in s.timers :: 1 <= h < s.nextHandle)
    && (forall p | p in s.timeout ::
          SlotLive(s.timers, s.timeout[p].createTimer, ExpireCreate(p))
          && SlotLive(s.timers, s.timeout[p].modifyTimer, ExpireModify(p)))
    && MarkerBacked(s)
  }

  // ---------------------------------------------------------------------
  // The imperative interpreter

  class InternalWatcher {
    var phase: Phase
    var current: Option<Status>
    var previous: Option<Status>
    var momentary: Option<MomentaryStatus>
    var modifyHandle: map<string, int>
    var timeout: map<string, TimeoutStatus>
    var timers: map<nat, Callback>
    var nextHandle: nat
    var emitted: seq<Event>

    function Snap(): Snapshot
      reads this
    {
      Snapshot(phase, current, previous, momentary, modifyHandle, timeout, timers, nextHandle, emitted)
    }

    constructor ()
      ensures Snap() == Initial && Valid(Snap())
    {
      phase, current, previous, momentary := Listening, None, None, None;
      modifyHandle, timeout, timers, nextHandle, emitted := map[], map[], map[], 1, [];
    }

    /** setTimeout: registers a callback under a fresh handle. */
    method SetTimeout(callback: Callback) returns (handle: nat)
      modifies this`timers, this`nextHandle
      ensures handle == old(nextHandle) && nextHandle == old(nextHandle) + 1
      ensures timers == old(timers)[handle := callback]
    {
      handle := nextHandle;
      timers := timers[handle := callback];
      nextHandle := nextHandle + 1;
    }

    /** clearTimeout. */
    method ClearTimeout(handle: Option<nat>)
      modifies this`timers
      ensures timers == Cancel(old(timers), handle)
    {
      if handle.Some? {
        timers := timers - {handle.value};
      }
    }

    /** The loop that deletes entries whose slots are both empty. */
    method PurgeTimeouts()
      modifies this`timeout
      ensures timeout == Purged(old(timeout))
    {
      var keys := timeout.Keys;
      while keys != {}
        invariant keys <= old(timeout).Keys
        invariant forall k :: k in timeout <==> k in old(timeout) && (k in keys || !IsEmpty(old(timeout)[k]))
        invariant forall k | k in timeout :: timeout[k] == old(timeout)[k]
        decreases keys
      {
        var k :| k in keys;
        if IsEmpty(timeout[k]) {
          timeout := timeout - {k};
        }
        keys := keys - {k};
      }
      assert timeout.Keys == Purged(old(timeout)).Keys;
    }

    /** The loop that deletes modify handles that are out of the window. */
    method PurgeModifyHandles()
      modifies this`modifyHandle
      ensures modifyHandle == PurgedHandles(old(modifyHandle), previous, current)
    {
      var keys := modifyHandle.Keys;
      while keys != {}
        invariant keys <= old(modifyHandle).Keys
        invariant forall k :: k in modifyHandle <==>
          k in old(modifyHandle) && (k in keys || InThreshold(Some(old(modifyHandle)[k]), previous, current))
        invariant forall k | k in modifyHandle :: modifyHandle[k] == old(modifyHandle)[k]
        decreases keys
      {
        var k :| k in keys;
        if !InThreshold(Some(modifyHandle[k]), previous, current) {
          modifyHandle := modifyHandle - {k};
        }
        keys := keys - {k};
      }
      assert modifyHandle.Keys == PurgedHandles(old(modifyHandle), previous, current).Keys;
    }

    method Detect()
      requires current.Some?
      modifies this
      ensures Snap() == Detected(old(Snap()))
    {
      match current.value.kind {
        case Create => DetectCreate();
        case Modify => AdvanceMomentary(); CheckModify();
        case Remove => DetectRemove();
        case Access => emitted := emitted + [Ignore(LinuxAccess)];
        case _ => phase := Failed;
      }
    }

    method DetectCreate()
      requires current.Some?
      modifies this
      ensures Snap() == CreateDetected(old(Snap()))
    {
      var path := current.value.path;
      momentary := Some(MomentaryStatus(CreateProgress, path));
      modifyHandle := modifyHandle - {path};
      timeout := timeout[path := SlotsAt(timeout, path)];
      var handle := SetTimeout(ExpireCreate(path));
      timeout := timeout[path := timeout[path].(createTimer := Some(handle))];
      emitted := emitted + [Ignore(InitialCreate)];
    }

    method AdvanceMomentary()
      requires current.Some?
      modifies this
      ensures Snap() == Advanced(old(Snap()))
    {
      if InMomentaryProgress(momentary, previous, current) {
        momentary := Some(MomentaryStatus(ModifyProgress, current.value.path));
        emitted := emitted + [Ignore(MomentaryProgress)];
      }
    }

    method CheckModify()
      requires current.Some?
      modifies this
      ensures Snap() == ModifyChecks(old(Snap()))
    {
      var path := current.value.path;
      if InModifyIgnoring(modifyHandle, previous, current) {
        modifyHandle := modifyHandle - {path};
        emitted := emitted + [Ignore(WithCreate)];
      } else if IsEqualKinds(previous, current) && IsEqualPaths(previous, current) && path in timeout {
        ClearTimeout(timeout[path].modifyTimer);
        timeout := timeout[path := timeout[path].(modifyTimer := None)];
        emitted := emitted + [Event.Modify(path)];
      } else if IsEqualKinds(previous, current) && !IsEqualPaths(previous, current)
                && previous.Some? && previous.value.path in timeout {
        var from := previous.value.path;
        ClearTimeout(timeout[from].modifyTimer);
        timeout := timeout[from := timeout[from].(modifyTimer := None)];
        emitted := emitted + [Move(from, path)];
      } else if path in timeout && timeout[path].createTimer.Some? {
        emitted := emitted + [Ignore(WithCreate)];
      } else {
        timeout := timeout[path := SlotsAt(timeout, path)];
        var handle := SetTimeout(ExpireModify(path));
        timeout := timeout[path := timeout[path].(modifyTimer := Some(handle))];
        emitted := emitted + [Ignore(InitialModify)];
      }
    }

    method DetectRemove()
      requires current.Some?
      modifies this
      ensures Snap() == RemoveDetected(old(Snap()))
    {
      var path := current.value.path;
      if InMomentaryProgress(momentary, previous, current) {
        if path !in timeout {
          // reading the slot of a missing entry throws
          phase := Failed;
          return;
        }
        ClearTimeout(timeout[path].createTimer);
        timeout := timeout[path := timeout[path].(createTimer := None)];
        momentary := None;
        emitted := emitted + [Momentary(path)];
      } else {
        emitted := emitted + [Event.Remove(path)];
      }
    }

    /** One pass of the record loop; returns what it emitted. */
    method Step(record: FsEvent, time: int) returns (events: seq<Event>)
      requires Valid(Snap())
      modifies this
      ensures Snap() == Stepped(old(Snap()), record, time)
      ensures emitted == old(emitted) + events
      ensures Valid(Snap())
    {
      StepKeepsValid(Snap(), record, time);
      if phase != Listening || |record.paths| != 1 {
        return [];
      }
      var before := |emitted|;
      current := Some(Status(record.kind, time, record.paths[0]));
      PurgeTimeouts();
      PurgeModifyHandles();
      Detect();
      if phase != Failed {
        previous := current;
      }
      events := emitted[before..];
    }

    /** A timer fires; returns what its callback emitted. */
    method Fire(handle: nat) returns (events: seq<Event>)
      requires Valid(Snap())
      modifies this
      ensures Snap() == Fired(old(Snap()), handle)
      ensures emitted == old(emitted) + events
      ensures Valid(Snap())
    {
      FireKeepsValid(Snap(), handle);
      if phase == Failed || handle !in timers {
        return [];
      }
      var callback := timers[handle];
      timers := timers - {handle};
      match callback {
        case ExpireCreate(path) =>
          if path !in timeout {
            phase := Failed;
            return [];
          }
          timeout := timeout[path := timeout[path].(createTimer := None)];
          emitted := emitted + [Event.Create(path)];
          momentary := None;
          events := [Event.Create(path)];
        case ExpireModify(path) =>
          if path !in timeout {
            phase := Failed;
            return [];
          }
          timeout := timeout[path := timeout[path].(modifyTimer := None)];
          emitted := emitted + [Event.Modify(path)];
          events := [Event.Modify(path)];
      }
    }

    /** Abort; the source running out has the same effect on this watcher. */
    method Abort()
      modifies this
      ensures Snap() == Stopped(old(Snap()))
    {
      if phase == Listening {
        phase := Closed;
      }
    }
  }

  // ---------------------------------------------------------------------
  // The invariant is kept

  lemma PurgeKeepsValid(s: Snapshot, current: Option<Status>)
    requires Valid(s)
    ensures Valid(s.(current := current, timeout := Purged(s.timeout),
                     modifyHandle := PurgedHandles(s.modifyHandle, s.previous, current)))
  {
    var t := s.(current := current, timeout := Purged(s.timeout),
                modifyHandle := PurgedHandles(s.modifyHandle, s.previous, current));
    assert t.modifyHandle == map[];
    if s.momentary.Some? {
      assert s.momentary.value.path in t.timeout;
    }
  }

  lemma DetectKeepsValid(s: Snapshot)
    requires s.current.Some? && Valid(s)
    ensures Valid(Detected(s))
  {
    var path := s.current.value.path;
    match s.current.value.kind
    case Create =>
      var r := CreateDetected(s);
      assert r.modifyHandle == map[];
      forall p | p in r.timeout
        ensures SlotLive(r.timers, r.timeout[p].createTimer, ExpireCreate(p))
        ensures SlotLive(r.timers, r.timeout[p].modifyTimer, ExpireModify(p))
      {
        if p != path {
          assert r.timeout[p] == s.timeout[p];
        }
      }
    case Modify =>
      var a := Advanced(s);
      assert Valid(a);
      ModifyChecksKeepsValid(a);
    case Remove =>
      if InMomentaryProgress(s.momentary, s.previous, s.current) {
        var r := RemoveDetected(s);
        var h := s.timeout[path].createTimer.value;
        forall p | p in r.timeout
          ensures SlotLive(r.timers, r.timeout[p].createTimer, ExpireCreate(p))
          ensures SlotLive(r.timers, r.timeout[p].modifyTimer, ExpireModify(p))
        {
          if p != path {
            assert r.timeout[p] == s.timeout[p];
          }
        }
      }
    case Access =>
    case Any =>
    case Other =>
  }

  lemma ModifyChecksKeepsValid(s: Snapshot)
    requires s.current.Some? && Valid(s)
    requires s.momentary.Some? ==> s.momentary.value.path in s.timeout
    ensures Valid(ModifyChecks(s))
  {
    var path := s.current.value.path;
    var r := ModifyChecks(s);
    if InModifyIgnoring(s.modifyHandle, s.previous, s.current) {
    } else if IsEqualKinds(s.previous, s.current) && IsEqualPaths(s.previous, s.current) && path in s.timeout {
      ClearModifyKeepsValid(s, path, r);
    } else if IsEqualKinds(s.previous, s.current) && !IsEqualPaths(s.previous, s.current)
              && s.previous.Some? && s.previous.value.path in s.timeout {
      ClearModifyKeepsValid(s, s.previous.value.path, r);
    } else if path in s.timeout && s.timeout[path].createTimer.Some? {
    } else {
      forall p | p in r.timeout
        ensures SlotLive(r.timers, r.timeout[p].createTimer, ExpireCreate(p))
        ensures SlotLive(r.timers, r.timeout[p].modifyTimer, ExpireModify(p))
      {
        if p != path {
          assert r.timeout[p] == s.timeout[p];
        }
      }
    }
  }

  /** Cancelling and emptying one path's modify slot keeps the invariant. */
  lemma ClearModifyKeepsValid(s: Snapshot, q: string, r: Snapshot)
    requires Valid(s) && q in s.timeout
    requires r.modifyHandle == s.modifyHandle && r.nextHandle == s.nextHandle && r.momentary == s.momentary
    requires r.timers == Cancel(s.timers, s.timeout[q].modifyTimer)
    requires r.timeout == s.timeout[q := s.timeout[q].(modifyTimer := None)]
    ensures Valid(r)
  {
    forall p | p in r.timeout
      ensures SlotLive(r.timers, r.timeout[p].createTimer, ExpireCreate(p))
      ensures SlotLive(r.timers, r.timeout[p].modifyTimer, ExpireModify(p))
    {
      if p != q {
        assert r.timeout[p] == s.timeout[p];
      }
    }
  }

  lemma StepKeepsValid(s: Snapshot, record: FsEvent, time: int)
    requires Valid(s)
    ensures Valid(Stepped(s, record, time))
  {
    if s.phase == Listening && |record.paths| == 1 {
      var current := Some(Status(record.kind, time, record.paths[0]));
      var purged := s.(current := current, timeout := Purged(s.timeout),
                       modifyHandle := PurgedHandles(s.modifyHandle, s.previous, current));
      PurgeKeepsValid(s, current);
      DetectKeepsValid(purged);
    }
  }

  lemma FireKeepsValid(s: Snapshot, handle: nat)
    requires Valid(s)
    ensures Valid(Fired(s, handle))
  {
    if s.phase != Failed && handle in s.timers {
      var r := Fired(s, handle);
      var path := s.timers[handle].path;
      if path in s.timeout {
        forall p | p in r.timeout
          ensures SlotLive(r.timers, r.timeout[p].createTimer, ExpireCreate(p))
          ensures SlotLive(r.timers, r.timeout[p].modifyTimer, ExpireModify(p))
        {
          if p != path {
            assert r.timeout[p] == s.timeout[p];
          }
        }
      }
    }
  }

  // ---------------------------------------------------------------------
  // What one record does

  /** A create marks the path, drops its modify handle, stores a fresh create
      handle in its slot while every earlier timer (an earlier create timer of
      the same path included) stays live, and emits exactly `initial-create`. */
  lemma CreateMarksAndArms(s: Snapshot, t: int, p: string)
    requires Valid(s) && s.current == Some(Status(Kind.Create, t, p))
    ensures var r := Detected(s);
      && r.momentary == Some(MomentaryStatus(CreateProgress, p))
      && p !in r.modifyHandle
      && p in r.timeout && r.timeout[p].createTimer == Some(s.nextHandle)
      && r.timeout[p].modifyTimer == SlotsAt(s.timeout, p).modifyTimer
      && r.timers[s.nextHandle] == ExpireCreate(p)
      && (forall h | h in s.timers :: h in r.timers && r.timers[h] == s.timers[h])
      && (forall q | q in s.timeout && q != p :: q in r.timeout && r.timeout[q] == s.timeout[q])
      && r.emitted == s.emitted + [Ignore(InitialCreate)]
  {
  }

  /** A modify consumes the marker `{create, P}` exactly when the marker names
      this path and the window test passes; then it emits `momentary-progress`
      first and the exclusive checks still run on the same record, against the
      advanced marker. */
  lemma ModifyAdvancesMarker(s: Snapshot, t: int, p: string)
    requires s.current == Some(Status(Kind.Modify, t, p))
    ensures var r := Detected(s);
      (|r.emitted| == |s.emitted| + 2 <==>
         s.momentary == Some(MomentaryStatus(CreateProgress, p)) && InThreshold(None, s.previous, s.current))
    ensures s.momentary == Some(MomentaryStatus(CreateProgress, p)) && InThreshold(None, s.previous, s.current) ==>
      && Detected(s).emitted[|s.emitted|] == Ignore(MomentaryProgress)
      && Detected(s) == ModifyChecks(s.(momentary := Some(MomentaryStatus(ModifyProgress, p)),
                                        emitted := s.emitted + [Ignore(MomentaryProgress)]))
    ensures !(s.momentary == Some(MomentaryStatus(CreateProgress, p)) && InThreshold(None, s.previous, s.current)) ==>
      Detected(s) == ModifyChecks(s)
  {
  }

  /** Under the invariant the modify-handle table is empty, so the
      `with-create` branch guarded by it is never taken. */
  lemma ModifyHandleBranchUnreachable(s: Snapshot, record: FsEvent, time: int)
    requires Valid(s)
    ensures !InModifyIgnoring(s.modifyHandle, s.previous, s.current)
    ensures Stepped(s, record, time).modifyHandle == map[]
  {
    StepKeepsValid(s, record, time);
  }

  /** A modify right after a modify of the same path whose entry exists
      cancels that path's modify timer and emits `modify{P}` at once, arming
      nothing. No window is consulted. */
  lemma SecondModifyConfirmsEdit(s: Snapshot, t: int, p: string)
    requires Valid(s) && s.current == Some(Status(Kind.Modify, t, p))
    requires s.previous.Some? && s.previous.value.kind == Kind.Modify && s.previous.value.path == p
    requires p in s.timeout
    ensures var r := Detected(s);
      && r.emitted[|r.emitted| - 1] == Event.Modify(p)
      && r.timeout == s.timeout[p := s.timeout[p].(modifyTimer := None)]
      && r.timers == Cancel(s.timers, s.timeout[p].modifyTimer)
      && r.nextHandle == s.nextHandle
  {
  }

  /** A modify right after a modify of another path Q whose entry exists
      cancels Q's modify timer and emits `move{Q, P}`. */
  lemma ModifyAfterOtherModifyIsMove(s: Snapshot, t: int, p: string)
    requires Valid(s) && s.current == Some(Status(Kind.Modify, t, p))
    requires s.previous.Some? && s.previous.value.kind == Kind.Modify && s.previous.value.path != p
    requires s.previous.value.path in s.timeout
    ensures var q := s.previous.value.path; var r := Detected(s);
      && r.emitted[|r.emitted| - 1] == Move(q, p)
      && r.timeout == s.timeout[q := s.timeout[q].(modifyTimer := None)]
      && r.timers == Cancel(s.timers, s.timeout[q].modifyTimer)
      && r.nextHandle == s.nextHandle
  {
  }

  /** Any other modify: with a pending create timer for the path it emits
      `with-create` and arms nothing; without one it arms a fresh modify
      timer for the path and emits `initial-modify`. */
  lemma UnpairedModify(s: Snapshot, t: int, p: string)
    requires Valid(s) && s.current == Some(Status(Kind.Modify, t, p))
    requires !(s.previous.Some? && s.previous.value.kind == Kind.Modify && s.previous.value.path in s.timeout)
    ensures var r := Detected(s);
      if p in s.timeout && s.timeout[p].createTimer.Some? then
        && r.emitted[|r.emitted| - 1] == Ignore(WithCreate)
        && r.timeout == s.timeout && r.timers == s.timers && r.nextHandle == s.nextHandle
      else
        && r.emitted[|r.emitted| - 1] == Ignore(InitialModify)
        && r.timeout == s.timeout[p := SlotsAt(s.timeout, p).(modifyTimer := Some(s.nextHandle))]
        && r.timers == s.timers[s.nextHandle := ExpireModify(p)]
  {
  }

  /** A remove emits `momentary{P}` exactly when the marker is `{modify, P}`
      and the window test passes, and `remove{P}` exactly otherwise; it never
      throws, because a marker on P implies that P has an entry. The
      momentary case cancels P's create timer and clears the marker. */
  lemma RemoveIsMomentaryOrRemove(s: Snapshot, t: int, p: string)
    requires Valid(s) && s.current == Some(Status(Kind.Remove, t, p))
    ensures var r := Detected(s);
      var momentary := s.momentary == Some(MomentaryStatus(ModifyProgress, p)) && InThreshold(None, s.previous, s.current);
      && r.phase == s.phase
      && |r.emitted| == |s.emitted| + 1
      && (r.emitted[|s.emitted|] == Momentary(p) <==> momentary)
      && (r.emitted[|s.emitted|] == Event.Remove(p) <==> !momentary)
      && (momentary ==>
            && r.momentary.None?
            && r.timeout == s.timeout[p := s.timeout[p].(createTimer := None)]
            && r.timers == s.timers - {s.timeout[p].createTimer.value})
      && (!momentary ==> r.timeout == s.timeout && r.timers == s.timers && r.momentary == s.momentary)
  {
  }

  /** A firing create timer empties its path's create slot and emits
      `create{P}`; it clears the global marker whichever path it names. If
      the path's entry has been purged, the callback throws instead. */
  lemma CreateTimerFires(s: Snapshot, h: nat)
    requires s.phase != Failed && h in s.timers && s.timers[h].ExpireCreate?
    ensures var p := s.timers[h].path; var r := Fired(s, h);
      && h !in r.timers
      && (p in s.timeout ==>
            && r.phase == s.phase
            && r.emitted == s.emitted + [Event.Create(p)]
            && r.timeout == s.timeout[p := s.timeout[p].(createTimer := None)]
            && r.momentary.None?)
      && (p !in s.timeout ==> r.phase == Failed && r.emitted == s.emitted)
  {
  }

  /** A firing modify timer empties its path's modify slot and emits
      `modify{P}`, or throws if the entry has been purged. */
  lemma ModifyTimerFires(s: Snapshot, h: nat)
    requires s.phase != Failed && h in s.timers && s.timers[h].ExpireModify?
    ensures var p := s.timers[h].path; var r := Fired(s, h);
      && h !in r.timers
      && (p in s.timeout ==>
            && r.phase == s.phase
            && r.emitted == s.emitted + [Event.Modify(p)]
            && r.timeout == s.timeout[p := s.timeout[p].(modifyTimer := None)]
            && r.momentary == s.momentary)
      && (p !in s.timeout ==> r.phase == Failed && r.emitted == s.emitted)
  {
  }

  // ---------------------------------------------------------------------
  // What the record loop does

  /** Records naming no path or several paths are skipped without a trace. */
  lemma MultiPathRecordsSkipped(s: Snapshot, record: FsEvent, time: int)
    requires |record.paths| != 1
    ensures Stepped(s, record, time) == s
  {
  }

  /** The purge keeps exactly the entries with a pending slot, unchanged. */
  lemma PurgeKeepsPendingEntries(timeout: map<string, TimeoutStatus>)
    ensures forall k :: k in Purged(timeout) <==> k in timeout && !IsEmpty(timeout[k])
    ensures forall k | k in Purged(timeout) :: Purged(timeout)[k] == timeout[k]
  {
  }

  /** A record fails the watcher exactly when its kind is not one of
      create, modify, remove, access; otherwise it becomes both the current
      and the previous record, and an access record emits `linux-access`. */
  lemma StepFailsExactlyOnUnknownKinds(s: Snapshot, record: FsEvent, time: int)
    requires Valid(s) && s.phase == Listening && |record.paths| == 1
    ensures var r := Stepped(s, record, time);
      && (r.phase == Failed <==> record.kind == Any || record.kind == Other)
      && (r.phase != Failed ==>
            && r.phase == Listening
            && r.current == Some(Status(record.kind, time, record.paths[0]))
            && r.previous == r.current)
      && (record.kind == Access ==> r.emitted == s.emitted + [Ignore(LinuxAccess)])
  {
    var current := Some(Status(record.kind, time, record.paths[0]));
    var purged := s.(current := current, timeout := Purged(s.timeout),
                     modifyHandle := PurgedHandles(s.modifyHandle, s.previous, current));
    PurgeKeepsValid(s, current);
    if record.kind == Kind.Remove {
      RemoveIsMomentaryOrRemove(purged, time, record.paths[0]);
    }
  }

  /** The window test of the marker only rejects a record whose time lies
      more than the threshold BEFORE the previous one: on a clock that never
      goes back, every record is "in the window", however late it comes. */
  lemma WindowIgnoresElapsedTime(previous: Status, current: Status)
    ensures InThreshold(None, Some(previous), Some(current)) <==> current.time >= previous.time - THRESHOLD
    ensures previous.time <= current.time ==> InThreshold(None, Some(previous), Some(current))
  {
  }

  /** Two creates of one path: the second overwrites the slot, and both
      timers are live. */
  lemma TwoCreates(p: string)
    ensures var create := FsEvent(Kind.Create, [p], None);
      var s2 := Stepped(Stepped(Initial, create, 0), create, 1);
      && Valid(s2) && s2.phase == Listening
      && s2.timeout == map[p := TimeoutStatus(Some(2), None)]
      && s2.timers == map[1 := ExpireCreate(p), 2 := ExpireCreate(p)]
      && s2.emitted == [Ignore(InitialCreate), Ignore(InitialCreate)]
  {
    var create := FsEvent(Kind.Create, [p], None);
    var s1 := Stepped(Initial, create, 0);
    assert Purged(map[]) == map[];
    assert s1.timeout == map[p := TimeoutStatus(Some(1), None)];
    assert s1.timers == map[1 := ExpireCreate(p)];
    assert Purged(s1.timeout) == s1.timeout;
    StepKeepsValid(Initial, create, 0);
    StepKeepsValid(s1, create, 1);
  }

  /** Two creates of one path overwrite its create slot without cancelling
      the first timer. When that orphan fires it empties the slot of the
      second one, the next record purges the entry, and the second timer's
      callback then throws: the watcher fails although the invariant held
      throughout. */
  lemma OrphanedCreateTimerFails(p: string)
    ensures var create := FsEvent(Kind.Create, [p], None);
      var s1 := Stepped(Initial, create, 0);
      var s2 := Stepped(s1, create, 1);
      var s3 := Fired(s2, 1);
      var s4 := Stepped(s3, FsEvent(Access, [p], None), 2);
      var s5 := Fired(s4, 2);
      && Valid(s4) && 2 in s4.timers
      && s3.emitted == [Ignore(InitialCreate), Ignore(InitialCreate), Event.Create(p)]
      && s5.phase == Failed
  {
    var create := FsEvent(Kind.Create, [p], None);
    TwoCreates(p);
    var s2 := Stepped(Stepped(Initial, create, 0), create, 1);
    var s3 := Fired(s2, 1);
    assert s3.timeout == map[p := NoTimeouts];
    assert s3.timers == map[2 := ExpireCreate(p)];
    var s4 := Stepped(s3, FsEvent(Access, [p], None), 2);
    assert Purged(s3.timeout) == map[];
    assert s4.timeout == map[];
    FireKeepsValid(s2, 1);
    StepKeepsValid(s3, FsEvent(Access, [p], None), 2);
  }
}
