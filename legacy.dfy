/** The older interpreter: one record at a time against the previous
    record's kind, time and path, a single momentary marker, a one-shot
    modify handle, and two timer slots. Its output is what the loop reports:
    each detection, and each timer's late report. */
module LegacyWatch {
  import opened FsEvents

  /** The debounce threshold, in milliseconds. */
  const THRESHOLD: int := 4

  /** What `detect` returns. */
  datatype Detection = Ignore | Momentary | Move | Modify | Remove

  /** `modifyHandle`: whether the next modify in the window is swallowed. */
  datatype Handling = Pass | IgnoreNext

  /** `momentaryProgress`. */
  datatype Progress = NoProgress | CreateProgress | ModifyProgress

  /** The callback a live timer handle runs when it fires. */
  datatype Callback = CreateLater(path: string, time: int) | ModifyLater(path: string, time: int)

  /** A line of the loop's output: a detection for a record, or a timer's
      late report of a create or a modify. */
  datatype Report =
    | Detected(detection: Detection, path: string, time: int)
    | Lazily(kind: Kind, path: string, time: int)

  datatype Snapshot = Snapshot(
    phase: Phase,
    previousKind: Option<Kind>,
    previousTime: Option<int>,
    previousPath: Option<string>,
    progress: Progress,
    momentaryPath: Option<string>,
    modifyHandle: Handling,
    createTimeout: Option<nat>,
    moveTimeout: Option<nat>,
    timers: map<nat, Callback>,
    nextHandle: nat,
    log: seq<Report>)

  const Initial := Snapshot(Listening, None, None, None, NoProgress, None, Pass, None, None, map[], 1, [])

  /** `inThreshold`, as written: a previous record exists and it is not more
      than THRESHOLD later than the current one. */
  predicate InThreshold(previousTime: Option<int>, currentTime: int) {
    previousTime.Some? && previousTime.value - currentTime <= THRESHOLD
  }

  function Cancel(timers: map<nat, Callback>, handle: Option<nat>): map<nat, Callback> {
    if handle.Some? then timers - {handle.value} else timers
  }

  /** What `detect` does: it returns a detection and a new state, or throws. */
  datatype Outcome = Threw | Returned(detection: Detection, after: Snapshot)

  function CreateDetected(s: Snapshot, path: string, time: int): Snapshot {
    s.(progress := CreateProgress, momentaryPath := Some(path), modifyHandle := IgnoreNext,
       createTimeout := Some(s.nextHandle),
       timers := s.timers[s.nextHandle := CreateLater(path, time)],
       nextHandle := s.nextHandle + 1)
  }

  /** The marker update a modify makes before its checks: a modify marker is
      dropped, and a create marker of the same path becomes a modify marker. */
  function ModifyProgressed(s: Snapshot, path: string): Progress {
    var p := if s.progress == ModifyProgress then NoProgress else s.progress;
    if p == CreateProgress && s.momentaryPath == Some(path) then ModifyProgress else p
  }

  function ModifyDetected(s: Snapshot, path: string, time: int): Outcome {
    var s1 := s.(progress := ModifyProgressed(s, path));
    if s1.modifyHandle == IgnoreNext && InThreshold(s1.previousTime, time) then
      Returned(Ignore, s1.(modifyHandle := Pass))
    else if s1.previousKind == Some(Kind.Modify) then
      Returned(if s1.previousPath == Some(path) then Detection.Modify else Move,
               s1.(timers := Cancel(s1.timers, s1.moveTimeout), moveTimeout := None))
    else if s1.progress == NoProgress then
      Returned(Ignore, s1.(moveTimeout := Some(s1.nextHandle),
                           timers := s1.timers[s1.nextHandle := ModifyLater(path, time)],
                           nextHandle := s1.nextHandle + 1))
    else
      Returned(Ignore, s1)
  }

  function RemoveDetected(s: Snapshot, path: string, time: int): Outcome {
    if s.progress == ModifyProgress && s.momentaryPath == Some(path) && InThreshold(s.previousTime, time) then
      Returned(Momentary, s.(timers := Cancel(s.timers, s.createTimeout), createTimeout := None,
                             progress := NoProgress, momentaryPath := None))
    else
      Returned(Detection.Remove, s)
  }

  /** `detect`: kinds other than create, modify, remove and access throw. */
  function DetectedBy(s: Snapshot, kind: Kind, path: string, time: int): Outcome {
    match kind
    case Create => Returned(Ignore, CreateDetected(s, path, time))
    case Modify => ModifyDetected(s, path, time)
    case Remove => RemoveDetected(s, path, time)
    case Access => Returned(Ignore, s)
    case _ => Threw
  }

  /** The loop's reset of an out-of-window record. */
  function WindowReset(s: Snapshot, time: int): Snapshot {
    if InThreshold(s.previousTime, time) then s else s.(progress := NoProgress, modifyHandle := Pass)
  }

  /** One pass of the record loop. */
  function Stepped(s: Snapshot, record: FsEvent, time: int): Snapshot {
    if s.phase != Listening || |record.paths| != 1 then s
    else
      var path := record.paths[0];
      var s0 := WindowReset(s, time);
      match DetectedBy(s0, record.kind, path, time)
      case Threw => s0.(phase := Failed)
      case Returned(d, s1) =>
        s1.(log := s1.log + [Detected(d, path, time)],
            previousKind := Some(record.kind), previousTime := Some(time), previousPath := Some(path))
  }

  /** A timer fires: a cancelled or already fired handle does nothing. */
  function Fired(s: Snapshot, handle: nat): Snapshot {
    if s.phase == Failed || handle !in s.timers then s
    else
      var s0 := s.(timers := s.timers - {handle});
      match s.timers[handle]
      case CreateLater(path, time) =>
        s0.(createTimeout := None, log := s0.log + [Lazily(Kind.Create, path, time)],
            progress := NoProgress, momentaryPath := None)
      case ModifyLater(path, time) =>
        s0.(moveTimeout := None, log := s0.log + [Lazily(Kind.Modify, path, time)])
  }

  /** The source has no more records: the loop throws. */
  function Ended(s: Snapshot): Snapshot {
    if s.phase == Listening then s.(phase := Failed) else s
  }

  /** Abort: the loop stops; the timers are left alone. */
  function Aborted(s: Snapshot): Snapshot {
    if s.phase == Listening then s.(phase := Closed) else s
  }

  ghost predicate Valid(s: Snapshot) {
    && 1 <= s.nextHandle
    && (forall h | h in s.timers :: 1 <= h < s.nextHandle)
    && (s.createTimeout.Some? ==> s.createTimeout.value in s.timers && s.timers[s.createTimeout.value].CreateLater?)
    && (s.moveTimeout.Some? ==> s.moveTimeout.value in s.timers && s.timers[s.moveTimeout.value].ModifyLater?)
    && (s.previousKind.Some? <==> s.previousTime.Some?)
    && (s.previousKind.Some? <==> s.previousPath.Some?)
    && (s.previousKind.Some? ==> s.previousKind.value !in {Any, Other})
  }

  /** The watcher class of the source, with its fields. */
  class Watcher {
    var phase: Phase
    var previousKind: Option<Kind>
    var previousTime: Option<int>
    var previousPath: Option<string>
    var momentaryProgress: Progress
    var momentaryPath: Option<string>
    var modifyHandle: Handling
    var createTimeout: Option<nat>
    var moveTimeout: Option<nat>
    var timers: map<nat, Callback>
    var nextHandle: nat
    var log: seq<Report>

    function Snap(): Snapshot
      reads this
    {
      Snapshot(phase, previousKind, previousTime, previousPath, momentaryProgress, momentaryPath,
               modifyHandle, createTimeout, moveTimeout, timers, nextHandle, log)
    }

    constructor ()
      ensures Snap() == Initial && Valid(Snap())
    {
      phase, previousKind, previousTime, previousPath := Listening, None, None, None;
      momentaryProgress, momentaryPath, modifyHandle := NoProgress, None, Pass;
      createTimeout, moveTimeout, timers, nextHandle, log := None, None, map[], 1, [];
    }

    method SetTimeout(callback: Callback) returns (handle: nat)
      modifies this`timers, this`nextHandle
      ensures handle == old(nextHandle) && nextHandle == old(nextHandle) + 1
      ensures timers == old(timers)[handle := callback]
    {
      handle := nextHandle;
      timers := timers[handle := callback];
      nextHandle := nextHandle + 1;
    }

    method ClearTimeout(handle: Option<nat>)
      modifies this`timers
      ensures timers == Cancel(old(timers), handle)
    {
      if handle.Some? {
        timers := timers - {handle.value};
      }
    }

    method DetectCreate(path: string, time: int)
      modifies this
      ensures Snap() == CreateDetected(old(Snap()), path, time)
    {
      momentaryProgress := CreateProgress;
      momentaryPath := Some(path);
      modifyHandle := IgnoreNext;
      var handle := SetTimeout(CreateLater(path, time));
      createTimeout := Some(handle);
    }

    method DetectModify(path: string, time: int) returns (d: Detection)
      modifies this
      ensures Returned(d, Snap()) == ModifyDetected(old(Snap()), path, time)
    {
      if momentaryProgress == ModifyProgress {
        momentaryProgress := NoProgress;
      }
      if momentaryProgress == CreateProgress && momentaryPath == Some(path) {
        momentaryProgress := ModifyProgress;
      }
      if modifyHandle == IgnoreNext && InThreshold(previousTime, time) {
        modifyHandle := Pass;
        return Ignore;
      }
      if previousKind == Some(Kind.Modify) {
        ClearTimeout(moveTimeout);
        moveTimeout := None;
        if previousPath == Some(path) {
          return Detection.Modify;
        } else {
          return Move;
        }
      }
      if momentaryProgress == NoProgress {
        var handle := SetTimeout(ModifyLater(path, time));
        moveTimeout := Some(handle);
      }
      return Ignore;
    }

    method DetectRemove(path: string, time: int) returns (d: Detection)
      modifies this
      ensures Returned(d, Snap()) == RemoveDetected(old(Snap()), path, time)
    {
      if momentaryProgress == ModifyProgress && momentaryPath == Some(path) && InThreshold(previousTime, time) {
        ClearTimeout(createTimeout);
        createTimeout := None;
        momentaryProgress := NoProgress;
        momentaryPath := None;
        return Momentary;
      }
      return Detection.Remove;
    }

    /** `detect`; `threw` says that it raised. */
    method Detect(kind: Kind, path: string, time: int) returns (threw: bool, d: Detection)
      modifies this
      ensures (if threw then Threw else Returned(d, Snap())) == DetectedBy(old(Snap()), kind, path, time)
      ensures threw ==> Snap() == old(Snap())
    {
      threw, d := false, Ignore;
      match kind {
        case Create => DetectCreate(path, time);
        case Modify => d := DetectModify(path, time);
        case Remove => d := DetectRemove(path, time);
        case Access =>
        case _ => threw := true;
      }
    }

    /** The loop's reset before `detect`, for a record out of the window. */
    method ResetWindow(time: int)
      modifies this
      ensures Snap() == WindowReset(old(Snap()), time)
    {
      if !InThreshold(previousTime, time) {
        momentaryProgress := NoProgress;
        modifyHandle := Pass;
      }
    }

    /** One pass of the record loop. */
    method Step(record: FsEvent, time: int)
      requires Valid(Snap())
      modifies this
      ensures Valid(Snap())
      ensures Snap() == Stepped(old(Snap()), record, time)
    {
      StepKeepsValid(Snap(), record, time);
      if phase != Listening || |record.paths| != 1 {
        return;
      }
      var kind := record.kind;
      var path := record.paths[0];
      ResetWindow(time);
      ghost var reset := Snap();
      var threw, detected := Detect(kind, path, time);
      if threw {
        phase := Failed;
        assert Snap() == reset.(phase := Failed);
        return;
      }
      ghost var after := Snap();
      assert DetectedBy(reset, kind, path, time) == Returned(detected, after);
      log := log + [Detected(detected, path, time)];
      previousKind := Some(kind);
      previousTime := Some(time);
      previousPath := Some(path);
      assert Snap() == after.(log := after.log + [Detected(detected, path, time)],
        previousKind := Some(kind), previousTime := Some(time), previousPath := Some(path));
    }

    /** A timer fires and runs its callback. */
    method Fire(handle: nat)
      requires Valid(Snap())
      modifies this
      ensures Valid(Snap())
      ensures Snap() == Fired(old(Snap()), handle)
    {
      FireKeepsValid(Snap(), handle);
      if phase == Failed || handle !in timers {
        return;
      }
      ghost var s0 := Snap().(timers := timers - {handle});
      var callback := timers[handle];
      timers := timers - {handle};
      match callback {
        case CreateLater(path, time) =>
          createTimeout := None;
          log := log + [Lazily(Kind.Create, path, time)];
          momentaryProgress := NoProgress;
          momentaryPath := None;
          assert Snap() == s0.(createTimeout := None, log := s0.log + [Lazily(Kind.Create, path, time)],
                               progress := NoProgress, momentaryPath := None);
        case ModifyLater(path, time) =>
          moveTimeout := None;
          log := log + [Lazily(Kind.Modify, path, time)];
          assert Snap() == s0.(moveTimeout := None, log := s0.log + [Lazily(Kind.Modify, path, time)]);
      }
    }

    /** The source ran out: the loop throws. */
    method End()
      modifies this
      ensures Snap() == Ended(old(Snap()))
    {
      if phase == Listening {
        phase := Failed;
      }
    }

    method Abort()
      modifies this
      ensures Snap() == Aborted(old(Snap()))
    {
      if phase == Listening {
        phase := Closed;
      }
    }
  }

  // ---------------------------------------------------------------------
  // The invariant is kept

  lemma DetectedKeepsValid(s: Snapshot, kind: Kind, path: string, time: int)
    requires Valid(s)
    ensures DetectedBy(s, kind, path, time).Returned? ==> Valid(DetectedBy(s, kind, path, time).after)
  {
  }

  lemma StepKeepsValid(s: Snapshot, record: FsEvent, time: int)
    requires Valid(s)
    ensures Valid(Stepped(s, record, time))
  {
    if s.phase == Listening && |record.paths| == 1 {
      DetectedKeepsValid(WindowReset(s, time), record.kind, record.paths[0], time);
    }
  }

  lemma FireKeepsValid(s: Snapshot, handle: nat)
    requires Valid(s)
    ensures Valid(Fired(s, handle))
  {
  }

  // ---------------------------------------------------------------------
  // Properties of `detect` and of the loop

  /** A create marks its path, arms the one-shot modify handle and a create
      timer, and is ignored; the create timer it replaces is not cancelled. */
  lemma CreateMarksAndArms(s: Snapshot, path: string, time: int)
    ensures var o := DetectedBy(s, Kind.Create, path, time);
      && o == Returned(Ignore, o.after)
      && o.after.progress == CreateProgress && o.after.momentaryPath == Some(path)
      && o.after.modifyHandle == IgnoreNext
      && o.after.createTimeout == Some(s.nextHandle)
      && o.after.timers == s.timers[s.nextHandle := CreateLater(path, time)]
  {
  }

  /** A modify in the window while the handle is armed is swallowed once. */
  lemma ArmedHandleSwallowsOneModify(s: Snapshot, path: string, time: int)
    requires s.modifyHandle == IgnoreNext && InThreshold(s.previousTime, time)
    ensures var o := DetectedBy(s, Kind.Modify, path, time);
      && o == Returned(Ignore, o.after)
      && o.after.modifyHandle == Pass && o.after.timers == s.timers
  {
  }

  /** Otherwise, a modify after a modify cancels the pending move timer and
      is `modify` for the same path and `move` for another. */
  lemma ModifyAfterModify(s: Snapshot, path: string, time: int)
    requires !(s.modifyHandle == IgnoreNext && InThreshold(s.previousTime, time))
    requires s.previousKind == Some(Kind.Modify)
    ensures var o := DetectedBy(s, Kind.Modify, path, time);
      && o.Returned?
      && (o.detection == Detection.Modify <==> s.previousPath == Some(path))
      && (o.detection == Move <==> s.previousPath != Some(path))
      && o.after.moveTimeout.None?
      && o.after.timers == Cancel(s.timers, s.moveTimeout)
  {
  }

  /** A remove is `momentary` exactly when the marker is a modify marker of
      its path and it is in the window; then the create timer is cancelled
      and the marker cleared. Otherwise it is `remove` and changes nothing. */
  lemma RemoveIsMomentaryOrRemove(s: Snapshot, path: string, time: int)
    ensures var o := DetectedBy(s, Kind.Remove, path, time);
      var momentary := s.progress == ModifyProgress && s.momentaryPath == Some(path) && InThreshold(s.previousTime, time);
      && o.Returned?
      && (o.detection == Momentary <==> momentary)
      && (momentary ==> o.after.progress == NoProgress && o.after.momentaryPath.None?
                        && o.after.createTimeout.None? && o.after.timers == Cancel(s.timers, s.createTimeout))
      && (!momentary ==> o == Returned(Detection.Remove, s))
  {
  }

  /** `detect` throws exactly on the kinds it does not list; access is
      ignored without any change. */
  lemma DetectThrowsOnUnlistedKinds(s: Snapshot, kind: Kind, path: string, time: int)
    ensures DetectedBy(s, kind, path, time).Threw? <==> kind in {Any, Other}
    ensures kind == Access ==> DetectedBy(s, kind, path, time) == Returned(Ignore, s)
  {
  }

  /** Records without exactly one path are skipped; a processed record
      becomes the previous record and adds one report, unless `detect`
      throws. */
  lemma StepRecordsPrevious(s: Snapshot, record: FsEvent, time: int)
    requires s.phase == Listening
    ensures |record.paths| != 1 ==> Stepped(s, record, time) == s
    ensures |record.paths| == 1 && record.kind in {Any, Other} ==> Stepped(s, record, time).phase == Failed
    ensures |record.paths| == 1 && record.kind !in {Any, Other} ==>
      var r := Stepped(s, record, time);
      && r.phase == Listening
      && r.previousKind == Some(record.kind) && r.previousTime == Some(time)
      && r.previousPath == Some(record.paths[0])
      && |r.log| == |s.log| + 1 && r.log[..|s.log|] == s.log
      && r.log[|s.log|].path == record.paths[0]
  {
  }

  /** Out of the window the marker and the handle are reset first: such a
      modify is never swallowed, and it arms a move timer unless it pairs
      with a previous modify. */
  lemma OutOfWindowModifyArmsTimer(s: Snapshot, path: string, time: int)
    requires s.phase == Listening && !InThreshold(s.previousTime, time)
    requires s.previousKind != Some(Kind.Modify)
    ensures var r := Stepped(s, FsEvent(Kind.Modify, [path], None), time);
      && r.log == s.log + [Detected(Ignore, path, time)]
      && r.modifyHandle == Pass && r.progress == NoProgress
      && r.moveTimeout == Some(s.nextHandle)
      && r.timers == s.timers[s.nextHandle := ModifyLater(path, time)]
  {
  }

  /** The window test compares the previous time with the current one the
      wrong way round: whenever the clock does not run backwards, every
      record after the first is in the window. */
  lemma WindowIgnoresElapsedTime(previousTime: int, currentTime: int)
    requires previousTime <= currentTime
    ensures InThreshold(Some(previousTime), currentTime)
  {
  }

  /** The end of the source throws; abort stops the loop but cancels no
      timer, so a pending timer still reports after it. */
  lemma EndFailsAbortKeepsTimers(s: Snapshot, handle: nat)
    requires s.phase == Listening && handle in s.timers
    ensures Ended(s).phase == Failed && Fired(Ended(s), handle) == Ended(s)
    ensures Aborted(s).phase == Closed && Aborted(s).timers == s.timers
    ensures |Fired(Aborted(s), handle).log| == |s.log| + 1
  {
  }

  /** Create, modify, remove of one path in quick succession is momentary,
      and leaves no timer behind. */
  lemma CreateModifyRemoveIsMomentary(p: string)
    ensures var s1 := Stepped(Initial, FsEvent(Kind.Create, [p], None), 0);
      var s2 := Stepped(s1, FsEvent(Kind.Modify, [p], None), 1);
      var s3 := Stepped(s2, FsEvent(Kind.Remove, [p], None), 2);
      && s3.log == [Detected(Ignore, p, 0), Detected(Ignore, p, 1), Detected(Momentary, p, 2)]
      && s3.timers == map[]
  {
    var s1 := Stepped(Initial, FsEvent(Kind.Create, [p], None), 0);
    assert s1.timers == map[1 := CreateLater(p, 0)] && s1.createTimeout == Some(1);
    var s2 := Stepped(s1, FsEvent(Kind.Modify, [p], None), 1);
    assert s2.progress == ModifyProgress && s2.createTimeout == Some(1) && s2.timers == s1.timers;
    var s3 := Stepped(s2, FsEvent(Kind.Remove, [p], None), 2);
    assert s3.timers == s2.timers - {1};
  }

  /** A create timer that a second create orphaned still fires, and it
      clears the marker the second create set: the second path's create,
      modify, remove is then not momentary. */
  lemma OrphanedCreateTimerClearsMarker(a: string, b: string)
    ensures var s1 := Stepped(Initial, FsEvent(Kind.Create, [a], None), 0);
      var s2 := Stepped(s1, FsEvent(Kind.Create, [b], None), 1);
      var s3 := Fired(s2, 1);
      var s4 := Stepped(s3, FsEvent(Kind.Modify, [b], None), 2);
      var s5 := Stepped(s4, FsEvent(Kind.Remove, [b], None), 3);
      && s2.timers.Keys == {1, 2}
      && s3.progress == NoProgress
      && s5.log[|s5.log| - 1] == Detected(Detection.Remove, b, 3)
  {
    var s1 := Stepped(Initial, FsEvent(Kind.Create, [a], None), 0);
    assert s1.timers == map[1 := CreateLater(a, 0)];
    var s2 := Stepped(s1, FsEvent(Kind.Create, [b], None), 1);
    assert s2.timers == map[1 := CreateLater(a, 0), 2 := CreateLater(b, 1)];
    var s3 := Fired(s2, 1);
    assert s3.progress == NoProgress && s3.modifyHandle == IgnoreNext;
    var s4 := Stepped(s3, FsEvent(Kind.Modify, [b], None), 2);
    assert s4.progress == NoProgress;
  }
}

/** The free `watch` function of the same file: it buffers the kinds, paths
    and times of records until the buffer matches a pattern, then
    dispatches a name and empties the buffer. */
module LegacyClassifier {
  import opened FsEvents

  /** The window of the classifier, in milliseconds. */
  const DELTA: int := 4

  /** The names `watch` dispatches. */
  datatype Dispatch = New | Momentary | Edit | Move | Remove

  /** `current`: three buffers that are pushed and emptied together. */
  datatype Buffer = Buffer(kinds: seq<Kind>, paths: seq<string>, times: seq<int>)

  const EmptyBuffer := Buffer([], [], [])

  predicate Aligned(b: Buffer) {
    |b.kinds| == |b.paths| == |b.times|
  }

  datatype Classifier = Classifier(
    current: Buffer,
    maybeIncomingModifyEvent: Option<int>,
    maybeMomentary: Option<int>,
    dispatched: seq<Dispatch>)

  const Fresh := Classifier(EmptyBuffer, None, None, [])

  /** A record together with the time it was read. */
  datatype Timed = Timed(record: FsEvent, time: int)

  /** `Array.prototype.equals`: different lengths are unequal; otherwise
      every index is compared. */
  method Equals<T(==)>(a: seq<T>, another: seq<T>) returns (equal: bool)
    ensures equal <==> a == another
  {
    if |a| != |another| {
      return false;
    }
    equal := true;
    for index := 0 to |a|
      invariant equal <==> a[..index] == another[..index]
    {
      assert a[..index + 1] == a[..index] + [a[index]];
      assert another[..index + 1] == another[..index] + [another[index]];
      equal := equal && a[index] == another[index];
    }
    assert a[..|a|] == a && another[..|a|] == another;
  }

  /** What one record does to the classifier. Records of kind access or
      without exactly one path are skipped. */
  function Classified(c: Classifier, r: Timed): (n: Classifier)
    requires Aligned(c.current)
    ensures Aligned(n.current)
    ensures n.current == c.current || n.current == EmptyBuffer || |n.current.kinds| == |c.current.kinds| + 1
  {
    if r.record.kind == Access || |r.record.paths| != 1 then c
    else
      var path := r.record.paths[0];
      var time := r.time;
      var b := Buffer(c.current.kinds + [r.record.kind], c.current.paths + [path], c.current.times + [time]);
      var mi := c.maybeIncomingModifyEvent;
      var mm := c.maybeMomentary;
      if b.kinds == [Kind.Create] then
        Classifier(EmptyBuffer, Some(time), Some(time), c.dispatched + [New])
      else if mi.Some? && b.kinds == [Kind.Modify] && mi.value - time <= DELTA then
        Classifier(EmptyBuffer, None, Some(time), c.dispatched)
      else if mm.Some? && b.kinds == [Kind.Remove] && mm.value - time <= DELTA then
        Classifier(EmptyBuffer, mi, None, c.dispatched + [Momentary])
      else
        var mi' := if mi.Some? && mi.value - time >= DELTA then None else mi;
        var mm' := if mm.Some? && mm.value - time >= DELTA then None else mm;
        if b.kinds == [Kind.Modify, Kind.Modify] then
          Classifier(EmptyBuffer, mi', mm', c.dispatched + [if b.paths[0] == b.paths[1] then Edit else Move])
        else if b.kinds == [Kind.Remove] then
          Classifier(EmptyBuffer, mi', mm', c.dispatched + [Dispatch.Remove])
        else
          Classifier(b, mi', mm', c.dispatched)
  }

  /** The records, in order. */
  function ClassifiedAll(c: Classifier, records: seq<Timed>): (n: Classifier)
    requires Aligned(c.current)
    ensures Aligned(n.current)
    ensures c.dispatched <= n.dispatched
    decreases |records|
  {
    if records == [] then c
    else Classified(ClassifiedAll(c, records[..|records| - 1]), records[|records| - 1])
  }

  /** The `watch` loop over a finite run of records; it returns what it
      dispatched. */
  method Watch(records: seq<Timed>) returns (dispatched: seq<Dispatch>)
    ensures dispatched == ClassifiedAll(Fresh, records).dispatched
  {
    var kinds: seq<Kind>, paths: seq<string>, times: seq<int> := [], [], [];
    var maybeIncomingModifyEvent: Option<int> := None;
    var maybeMomentary: Option<int> := None;
    dispatched := [];
    for i := 0 to |records|
      invariant Aligned(Buffer(kinds, paths, times))
      invariant Classifier(Buffer(kinds, paths, times), maybeIncomingModifyEvent, maybeMomentary, dispatched)
        == ClassifiedAll(Fresh, records[..i])
    {
      assert records[..i + 1][..i] == records[..i];
      var kind := records[i].record.kind;
      if kind == Access || |records[i].record.paths| != 1 {
        continue;
      }
      var path := records[i].record.paths[0];
      var time := records[i].time;
      kinds, paths, times := kinds + [kind], paths + [path], times + [time];

      var isCreate := Equals(kinds, [Kind.Create]);
      if isCreate {
        dispatched := dispatched + [New];
        maybeIncomingModifyEvent := Some(time);
        maybeMomentary := Some(time);
        kinds, paths, times := [], [], [];
        continue;
      }
      var isModify := Equals(kinds, [Kind.Modify]);
      if maybeIncomingModifyEvent.Some? && isModify && maybeIncomingModifyEvent.value - time <= DELTA {
        maybeIncomingModifyEvent := None;
        maybeMomentary := Some(time);
        kinds, paths, times := [], [], [];
        continue;
      }
      var isRemove := Equals(kinds, [Kind.Remove]);
      if maybeMomentary.Some? && isRemove && maybeMomentary.value - time <= DELTA {
        dispatched := dispatched + [Momentary];
        maybeMomentary := None;
        kinds, paths, times := [], [], [];
        continue;
      }
      if maybeIncomingModifyEvent.Some? && maybeIncomingModifyEvent.value - time >= DELTA {
        maybeIncomingModifyEvent := None;
      }
      if maybeMomentary.Some? && maybeMomentary.value - time >= DELTA {
        maybeMomentary := None;
      }
      var isPair := Equals(kinds, [Kind.Modify, Kind.Modify]);
      if isPair {
        if paths[0] == paths[1] {
          dispatched := dispatched + [Edit];
        } else {
          dispatched := dispatched + [Move];
        }
        kinds, paths, times := [], [], [];
        continue;
      }
      if isRemove {
        dispatched := dispatched + [Dispatch.Remove];
        kinds, paths, times := [], [], [];
        continue;
      }
    }
    assert records[..|records|] == records;
  }

  // ---------------------------------------------------------------------
  // Properties of the classification

  function Record(kind: Kind, path: string, time: int): Timed {
    Timed(FsEvent(kind, [path], None), time)
  }

  /** Every step that dispatches empties all three buffers. */
  lemma DispatchEmptiesBuffers(c: Classifier, r: Timed)
    requires Aligned(c.current)
    ensures Classified(c, r).dispatched != c.dispatched ==> Classified(c, r).current == EmptyBuffer
    ensures |Classified(c, r).dispatched| <= |c.dispatched| + 1
  {
  }

  /** On an empty buffer a create dispatches `new` and sets both markers. */
  lemma CreateIsNew(c: Classifier, path: string, time: int)
    requires c.current == EmptyBuffer
    ensures Classified(c, Record(Kind.Create, path, time))
      == Classifier(EmptyBuffer, Some(time), Some(time), c.dispatched + [New])
  {
    assert c.current.kinds + [Kind.Create] == [Kind.Create];
  }

  /** On an empty buffer a modify within DELTA of a `new` is swallowed and
      moves the momentary mark to its own time. */
  lemma ModifyAfterNewIsSwallowed(c: Classifier, path: string, time: int)
    requires c.current == EmptyBuffer
    requires c.maybeIncomingModifyEvent.Some? && c.maybeIncomingModifyEvent.value - time <= DELTA
    ensures Classified(c, Record(Kind.Modify, path, time))
      == Classifier(EmptyBuffer, None, Some(time), c.dispatched)
  {
    assert c.current.kinds + [Kind.Modify] == [Kind.Modify];
  }

  /** On an empty buffer a remove is `momentary` while the momentary mark is
      within DELTA, and `remove` otherwise; either way the buffer empties. */
  lemma RemoveIsMomentaryOrRemove(c: Classifier, path: string, time: int)
    requires c.current == EmptyBuffer
    ensures var n := Classified(c, Record(Kind.Remove, path, time));
      && n.current == EmptyBuffer
      && n.dispatched == c.dispatched +
        [if c.maybeMomentary.Some? && c.maybeMomentary.value - time <= DELTA then Momentary else Dispatch.Remove]
  {
    var kinds := c.current.kinds + [Kind.Remove];
    assert kinds == [Kind.Remove];
    assert kinds != [Kind.Create] && kinds != [Kind.Modify] && kinds != [Kind.Modify, Kind.Modify];
  }

  /** A modify on a buffer holding one modify dispatches `edit` for the
      same path and `move` for another. */
  lemma ModifyPairIsEditOrMove(c: Classifier, path: string, time: int)
    requires Aligned(c.current) && c.current.kinds == [Kind.Modify]
    ensures var n := Classified(c, Record(Kind.Modify, path, time));
      && n.current == EmptyBuffer
      && n.dispatched == c.dispatched + [if c.current.paths[0] == path then Edit else Move]
  {
  }

  /** Running two runs of records one after the other is running them
      joined. */
  lemma {:induction false} ClassifiedAllSplits(c: Classifier, xs: seq<Timed>, ys: seq<Timed>)
    requires Aligned(c.current)
    ensures ClassifiedAll(c, xs + ys) == ClassifiedAll(ClassifiedAll(c, xs), ys)
    decreases |ys|
  {
    if ys == [] {
      assert xs + ys == xs;
    } else {
      var zs := xs + ys;
      assert zs[..|zs| - 1] == xs + ys[..|ys| - 1];
      assert zs[|zs| - 1] == ys[|ys| - 1];
      ClassifiedAllSplits(c, xs, ys[..|ys| - 1]);
    }
  }

  /** Once the buffer holds two records, no pattern can match any more:
      nothing is ever dispatched again and the buffer only grows. */
  lemma {:induction false} WedgedBufferNeverDispatches(c: Classifier, records: seq<Timed>)
    requires Aligned(c.current) && |c.current.kinds| >= 2
    ensures ClassifiedAll(c, records).dispatched == c.dispatched
    ensures |ClassifiedAll(c, records).current.kinds| >= 2
    decreases |records|
  {
    if records != [] {
      WedgedBufferNeverDispatches(c, records[..|records| - 1]);
    }
  }

  /** A record of a kind no pattern names wedges the classifier for good:
      after an `other` record and a create, nothing is dispatched again. */
  lemma OtherKindWedges(p: string, records: seq<Timed>)
    ensures ClassifiedAll(Fresh, [Record(Other, p, 0), Record(Kind.Create, p, 1)] + records).dispatched == []
  {
    var start := [Record(Other, p, 0), Record(Kind.Create, p, 1)];
    ClassifiedAllSplits(Fresh, start, records);
    assert start[..1] == [Record(Other, p, 0)];
    assert [Record(Other, p, 0)][..0] == [];
    var c1 := Classified(Fresh, Record(Other, p, 0));
    assert [Other][0] != [Kind.Create][0] && [Other][0] != [Kind.Modify][0] && [Other][0] != [Kind.Remove][0];
    assert c1.current.kinds == [Other];
    var two := [Other, Kind.Create];
    assert two[0] != [Kind.Modify, Kind.Modify][0] && |two| != 1;
    assert ClassifiedAll(Fresh, start[..1]) == c1;
    var c := ClassifiedAll(Fresh, start);
    assert c == Classified(c1, Record(Kind.Create, p, 1));
    assert c.current.kinds == [Other, Kind.Create];
    WedgedBufferNeverDispatches(c, records);
  }
}
