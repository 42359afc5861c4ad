/** Whole-pipeline traces: raw records and timer firings fed to a fresh
    interpreter and its coalescing layer, with the public events that come
    out. Handles are numbered from 1 in each layer, in the order the timers
    are armed. Each interpreter step is pinned down by a lemma of its own;
    the traces then only follow the events through the coalescing layer. */
module Scenarios {
  import opened FsEvents
  import I = InternalWatch
  import opened PublicWatch

  function Record(kind: Kind, path: string): FsEvent {
    FsEvent(kind, [path], None)
  }

  function At(kind: Kind, time: int, path: string): Option<I.Status> {
    Some(I.Status(kind, time, path))
  }

  /** The interpreter after a create of P at time 0. */
  function AfterCreate(p: string): I.Snapshot {
    I.Snapshot(Listening, At(Kind.Create, 0, p), At(Kind.Create, 0, p),
      Some(I.MomentaryStatus(I.CreateProgress, p)), map[],
      map[p := I.TimeoutStatus(Some(1), None)], map[1 := I.ExpireCreate(p)], 2,
      [I.Ignore(I.InitialCreate)])
  }

  /** The interpreter after a create of P at 0 and a modify of P at 1. */
  function AfterCreateModify(p: string): I.Snapshot {
    I.Snapshot(Listening, At(Kind.Modify, 1, p), At(Kind.Modify, 1, p),
      Some(I.MomentaryStatus(I.ModifyProgress, p)), map[],
      map[p := I.TimeoutStatus(Some(1), None)], map[1 := I.ExpireCreate(p)], 2,
      [I.Ignore(I.InitialCreate), I.Ignore(I.MomentaryProgress), I.Ignore(I.WithCreate)])
  }

  /** The interpreter after a create of P at 0 whose timer has fired. */
  function AfterConfirmedCreate(p: string): I.Snapshot {
    AfterCreate(p).(momentary := None, timeout := map[p := I.NoTimeouts], timers := map[],
                    emitted := [I.Ignore(I.InitialCreate), I.Create(p)])
  }

  /** The interpreter after a confirmed create of P and a modify of P at 5. */
  function AfterConfirmedCreateModify(p: string): I.Snapshot {
    AfterConfirmedCreate(p).(current := At(Kind.Modify, 5, p), previous := At(Kind.Modify, 5, p),
      timeout := map[p := I.TimeoutStatus(None, Some(2))], timers := map[2 := I.ExpireModify(p)],
      nextHandle := 3, emitted := AfterConfirmedCreate(p).emitted + [I.Ignore(I.InitialModify)])
  }

  /** The interpreter after a modify of P at time 0. */
  function AfterModify(p: string): I.Snapshot {
    I.Snapshot(Listening, At(Kind.Modify, 0, p), At(Kind.Modify, 0, p), None, map[],
      map[p := I.TimeoutStatus(None, Some(1))], map[1 := I.ExpireModify(p)], 2,
      [I.Ignore(I.InitialModify)])
  }

  // ---------------------------------------------------------------------
  // Interpreter steps

  lemma CreateStep(p: string)
    ensures I.Stepped(I.Initial, Record(Kind.Create, p), 0) == AfterCreate(p)
  {
    assert I.Purged(map[]) == map[];
    assert I.PurgedHandles(map[], None, At(Kind.Create, 0, p)) == map[];
  }

  /** The modify advances the marker and is absorbed by the pending create. */
  lemma ModifyAfterCreateStep(p: string)
    ensures I.Stepped(AfterCreate(p), Record(Kind.Modify, p), 1) == AfterCreateModify(p)
  {
    var s := AfterCreate(p);
    assert I.Purged(s.timeout) == s.timeout;
    assert I.PurgedHandles(map[], s.previous, At(Kind.Modify, 1, p)) == map[];
  }

  /** The remove completes the momentary life cycle and cancels the create timer. */
  lemma RemoveAfterCreateModifyStep(p: string)
    ensures var r := I.Stepped(AfterCreateModify(p), Record(Kind.Remove, p), 2);
      && r.timers == map[]
      && r.emitted == AfterCreateModify(p).emitted + [I.Momentary(p)]
  {
    var s := AfterCreateModify(p);
    assert I.Purged(s.timeout) == s.timeout;
    assert I.PurgedHandles(map[], s.previous, At(Kind.Remove, 2, p)) == map[];
    assert s.timers - {1} == map[];
  }

  /** Without a modify between, the remove is a plain remove. */
  lemma RemoveAfterCreateStep(p: string)
    ensures I.Stepped(AfterCreate(p), Record(Kind.Remove, p), 1)
      == AfterCreate(p).(current := At(Kind.Remove, 1, p), previous := At(Kind.Remove, 1, p),
                         emitted := AfterCreate(p).emitted + [I.Remove(p)])
  {
    var s := AfterCreate(p);
    assert I.Purged(s.timeout) == s.timeout;
    assert I.PurgedHandles(map[], s.previous, At(Kind.Remove, 1, p)) == map[];
  }

  /** The create timer fires in any state that still holds it and P's entry. */
  lemma CreateTimerStep(s: I.Snapshot, p: string)
    requires s.phase != Failed && s.timers == map[1 := I.ExpireCreate(p)] && p in s.timeout
    ensures I.Fired(s, 1).emitted == s.emitted + [I.Create(p)]
    ensures I.Fired(s, 1).timers == map[]
    ensures I.Fired(s, 1).timeout == s.timeout[p := s.timeout[p].(createTimer := None)]
    ensures I.Fired(s, 1).momentary.None? && I.Fired(s, 1).phase == s.phase
  {
    I.CreateTimerFires(s, 1);
    assert s.timers - {1} == map[];
  }

  lemma ConfirmCreateStep(p: string)
    ensures I.Fired(AfterCreate(p), 1) == AfterConfirmedCreate(p)
  {
    CreateTimerStep(AfterCreate(p), p);
  }

  /** On a confirmed create the empty entry is purged and the modify arms
      its own timer. */
  lemma ModifyAfterConfirmedCreateStep(p: string)
    ensures I.Stepped(AfterConfirmedCreate(p), Record(Kind.Modify, p), 5) == AfterConfirmedCreateModify(p)
  {
    var s := AfterConfirmedCreate(p);
    assert I.Purged(s.timeout) == map[];
    assert I.PurgedHandles(map[], s.previous, At(Kind.Modify, 5, p)) == map[];
  }

  /** A second modify of P while its modify timer pends takes the pair
      branch: that timer is cancelled and `modify{P}` is emitted at once. */
  lemma SecondModifyAfterConfirmedCreateStep(p: string)
    ensures var r := I.Stepped(AfterConfirmedCreateModify(p), Record(Kind.Modify, p), 6);
      && r.timers == map[]
      && r.emitted == AfterConfirmedCreateModify(p).emitted + [I.Modify(p)]
  {
    var s := AfterConfirmedCreateModify(p);
    assert I.Purged(s.timeout) == s.timeout;
    assert I.PurgedHandles(map[], s.previous, At(Kind.Modify, 6, p)) == map[];
    assert s.timers - {2} == map[];
  }

  lemma ModifyStep(p: string)
    ensures I.Stepped(I.Initial, Record(Kind.Modify, p), 0) == AfterModify(p)
  {
    assert I.Purged(map[]) == map[];
    assert I.PurgedHandles(map[], None, At(Kind.Modify, 0, p)) == map[];
  }

  /** A second modify settles the first: `modify` for its path, `move` for
      another, and the first modify's timer is gone. */
  lemma SecondModifyStep(a: string, b: string)
    ensures var r := I.Stepped(AfterModify(a), Record(Kind.Modify, b), 1);
      && r.timers == map[]
      && r.emitted == AfterModify(a).emitted + [if a == b then I.Modify(a) else I.Move(a, b)]
  {
    var s := AfterModify(a);
    assert I.Purged(s.timeout) == s.timeout;
    assert I.PurgedHandles(map[], s.previous, At(Kind.Modify, 1, b)) == map[];
    assert s.timers - {1} == map[];
  }

  /** Delivering a one-event batch is handling that event. */
  lemma DeliveredSingle(t: Table, e: I.Event)
    ensures Delivered(t, [e]) == DeliveredOne(t, e)
  {
    assert [e][..0] == [];
  }

  // ---------------------------------------------------------------------
  // Steps through both layers

  /** The coalescing layer holding one touch timer for P, after `out`. */
  function Touching(p: string, out: seq<Event>): Table {
    Table(map[p := Some(1)], map[1 := p], 2, out)
  }

  lemma SystemCreateStep(p: string)
    ensures SystemStepped(Start, Record(Kind.Create, p), 0) == System(AfterCreate(p), Empty)
  {
    CreateStep(p);
    UnsubscribedAreSwallowed(Empty, AfterCreate(p).emitted);
  }

  /** Only ignore events come out of the modify, so nothing reaches the
      coalescing layer. */
  lemma SystemModifyAfterCreateStep(p: string)
    ensures SystemStepped(System(AfterCreate(p), Empty), Record(Kind.Modify, p), 1)
      == System(AfterCreateModify(p), Empty)
  {
    ModifyAfterCreateStep(p);
    UnsubscribedAreSwallowed(Empty, AfterCreateModify(p).emitted[1..]);
  }

  /** The interpreter's create timer fires: its `create` arms the touch timer. */
  lemma SystemCreateTimerStep(sys: System, p: string, out: seq<Event>)
    requires sys.inner.phase != Failed && sys.inner.timers == map[1 := I.ExpireCreate(p)] && p in sys.inner.timeout
    requires sys.outer == Empty.(emitted := out)
    ensures SystemFired(sys, 1).outer == Touching(p, out)
    ensures SystemFired(sys, 1).inner.phase == sys.inner.phase
  {
    CreateTimerStep(sys.inner, p);
    var inner := I.Fired(sys.inner, 1);
    assert inner.emitted[|sys.inner.emitted|..] == [I.Create(p)];
    DeliveredSingle(sys.outer, I.Create(p));
  }

  /** The touch timer fires: `touch` comes out. */
  lemma SystemTouchStep(sys: System, p: string, out: seq<Event>)
    requires sys.inner.phase != Failed && sys.outer == Touching(p, out)
    ensures SystemTouched(sys, 1).outer.emitted == out + [Touch(p)]
  {
  }

  lemma SystemConfirmCreateStep(p: string)
    ensures SystemFired(System(AfterCreate(p), Empty), 1) == System(AfterConfirmedCreate(p), Touching(p, []))
  {
    ConfirmCreateStep(p);
    SystemCreateTimerStep(System(AfterCreate(p), Empty), p, []);
  }

  /** After a confirmed create, a modify only arms its own timer: nothing
      reaches the coalescing layer yet. */
  lemma ModifyWhileTouching(p: string)
    ensures SystemStepped(System(AfterConfirmedCreate(p), Touching(p, [])), Record(Kind.Modify, p), 5)
      == System(AfterConfirmedCreateModify(p), Touching(p, []))
  {
    ModifyAfterConfirmedCreateStep(p);
    assert AfterConfirmedCreateModify(p).emitted[2..] == [I.Ignore(I.InitialModify)];
    DeliveredSingle(Touching(p, []), I.Ignore(I.InitialModify));
  }

  /** The second modify's `modify{P}` meets the pending touch timer: `new`,
      and both the touch timer and the interpreter's modify timer are gone. */
  lemma SecondModifyMeetsTouch(p: string)
    ensures var s := SystemStepped(System(AfterConfirmedCreateModify(p), Touching(p, [])), Record(Kind.Modify, p), 6);
      && s.outer.emitted == [New(p)]
      && s.outer.timers == map[]
      && s.inner.timers == map[]
  {
    SecondModifyAfterConfirmedCreateStep(p);
    var inner := I.Stepped(AfterConfirmedCreateModify(p), Record(Kind.Modify, p), 6);
    assert inner.emitted[3..] == [I.Modify(p)];
    DeliveredSingle(Touching(p, []), I.Modify(p));
    assert Touching(p, []).timers - {1} == map[];
  }

  /** The modify timer fires while the touch timer is pending: `new`. */
  lemma ModifyTimerMeetsTouch(sys: System, p: string)
    requires sys.outer == Touching(p, []) && sys.inner.phase == Listening
    requires sys.inner.timers == map[2 := I.ExpireModify(p)] && p in sys.inner.timeout
    ensures SystemFired(sys, 2).outer.emitted == [New(p)]
    ensures SystemFired(sys, 2).outer.timers == map[]
  {
    I.ModifyTimerFires(sys.inner, 2);
    var inner := I.Fired(sys.inner, 2);
    assert inner.emitted[|sys.inner.emitted|..] == [I.Modify(p)];
    DeliveredSingle(Touching(p, []), I.Modify(p));
    assert Touching(p, []).timers - {1} == map[];
  }

  /** The remove of a create, modify, remove cycle produces no public event. */
  lemma SystemRemoveAfterCreateModifyStep(p: string)
    ensures var s := SystemStepped(System(AfterCreateModify(p), Empty), Record(Kind.Remove, p), 2);
      && s.inner.emitted[|s.inner.emitted| - 1] == I.Momentary(p)
      && s.outer == Empty
      && s.inner.timers == map[]
  {
    RemoveAfterCreateModifyStep(p);
    var inner := I.Stepped(AfterCreateModify(p), Record(Kind.Remove, p), 2);
    assert inner.emitted[3..] == [I.Momentary(p)];
    DeliveredSingle(Empty, I.Momentary(p));
  }

  /** A remove right after a create passes through; the create timer stays. */
  lemma SystemRemoveAfterCreateStep(p: string)
    ensures var s := SystemStepped(System(AfterCreate(p), Empty), Record(Kind.Remove, p), 1);
      && s.outer == Empty.(emitted := [Event.Remove(p)])
      && s.inner.phase == Listening
      && s.inner.timers == map[1 := I.ExpireCreate(p)] && p in s.inner.timeout
  {
    RemoveAfterCreateStep(p);
    var inner := I.Stepped(AfterCreate(p), Record(Kind.Remove, p), 1);
    assert inner.emitted[1..] == [I.Remove(p)];
    DeliveredSingle(Empty, I.Remove(p));
  }

  lemma SystemModifyStep(p: string)
    ensures SystemStepped(Start, Record(Kind.Modify, p), 0) == System(AfterModify(p), Empty)
  {
    ModifyStep(p);
    DeliveredSingle(Empty, I.Ignore(I.InitialModify));
  }

  /** The second modify through both layers: the interpreter's `modify` or
      `move` passes straight through the coalescing layer. */
  lemma SecondModifyThroughBoth(a: string, b: string)
    ensures var s := SystemStepped(System(AfterModify(a), Empty), Record(Kind.Modify, b), 1);
      && s.inner.timers == map[]
      && s.outer == Empty.(emitted := [if a == b then Event.Modify(a) else Move(a, b)])
  {
    SecondModifyStep(a, b);
    var inner := I.Stepped(AfterModify(a), Record(Kind.Modify, b), 1);
    var e := if a == b then I.Modify(a) else I.Move(a, b);
    assert inner.emitted[1..] == [e];
    DeliveredSingle(Empty, e);
  }

  // ---------------------------------------------------------------------
  // Whole traces

  /** A single create followed by silence: the interpreter's create timer
      fires, then the touch timer; exactly one `touch` comes out, and only at
      the end. */
  lemma SingleCreateTouches(p: string)
    ensures var s1 := SystemStepped(Start, Record(Kind.Create, p), 0);
      var s2 := SystemFired(s1, 1);
      var s3 := SystemTouched(s2, 1);
      && s1.outer.emitted == [] && s2.outer.emitted == []
      && s3.outer.emitted == [Touch(p)]
  {
    SystemCreateStep(p);
    SystemConfirmCreateStep(p);
    SystemTouchStep(System(AfterConfirmedCreate(p), Touching(p, [])), p, []);
  }

  /** A create and a modify of the same path within the window: the modify
      is absorbed as `with-create`, so the outcome is `touch`, not `new`. */
  lemma CreateThenModifyTouches(p: string)
    ensures var s1 := SystemStepped(Start, Record(Kind.Create, p), 0);
      var s2 := SystemStepped(s1, Record(Kind.Modify, p), 1);
      var s3 := SystemFired(s2, 1);
      var s4 := SystemTouched(s3, 1);
      && s2.inner.emitted == [I.Ignore(I.InitialCreate), I.Ignore(I.MomentaryProgress), I.Ignore(I.WithCreate)]
      && s4.outer.emitted == [Touch(p)]
  {
    SystemCreateStep(p);
    SystemModifyAfterCreateStep(p);
    var s2 := System(AfterCreateModify(p), Empty);
    SystemCreateTimerStep(s2, p, []);
    SystemTouchStep(SystemFired(s2, 1), p, []);
  }

  /** A modify that arrives after the create has been confirmed, and whose
      own modify timer fires while the touch timer is pending, makes `new`.
      This order of firings is allowed by the model, which leaves the order
      of timers free, but not by the source's fixed delays: the touch timer
      is armed when the create timer fires, before the modify arrives, and
      both wait the same 4 ms, so the touch timer fires first. */
  lemma ModifyAfterConfirmedCreateIsNew(p: string)
    ensures var s1 := SystemStepped(Start, Record(Kind.Create, p), 0);
      var s2 := SystemFired(s1, 1);
      var s3 := SystemStepped(s2, Record(Kind.Modify, p), 5);
      var s4 := SystemFired(s3, 2);
      && s4.outer.emitted == [New(p)]
      && s4.outer.timers == map[]
  {
    SystemCreateStep(p);
    SystemConfirmCreateStep(p);
    var s2 := System(AfterConfirmedCreate(p), Touching(p, []));
    ModifyWhileTouching(p);
    ModifyTimerMeetsTouch(SystemStepped(s2, Record(Kind.Modify, p), 5), p);
  }

  /** The route to `new` that the fixed delays allow: after the create has
      been confirmed, two modifies of P in a row. The second one emits
      `modify{P}` at once, while the touch timer is still pending, so it
      becomes `new` and the touch timer is cancelled: no `touch` follows. */
  lemma ConfirmedCreateThenTwoModifiesIsNew(p: string)
    ensures var s1 := SystemStepped(Start, Record(Kind.Create, p), 0);
      var s2 := SystemFired(s1, 1);
      var s3 := SystemStepped(s2, Record(Kind.Modify, p), 5);
      var s4 := SystemStepped(s3, Record(Kind.Modify, p), 6);
      && s3.outer.emitted == []
      && s4.outer.emitted == [New(p)]
      && s4.outer.timers == map[]
      && s4.inner.timers == map[]
  {
    SystemCreateStep(p);
    SystemConfirmCreateStep(p);
    ModifyWhileTouching(p);
    SecondModifyMeetsTouch(p);
  }

  /** Two modifies of one path collapse into one `modify`, emitted at once,
      and the first modify's timer is cancelled. */
  lemma TwoModifiesAreOneModify(p: string)
    ensures var s1 := SystemStepped(Start, Record(Kind.Modify, p), 0);
      var s2 := SystemStepped(s1, Record(Kind.Modify, p), 1);
      && s1.outer.emitted == []
      && s2.outer.emitted == [Event.Modify(p)]
      && s2.inner.timers == map[]
  {
    SystemModifyStep(p);
    SecondModifyThroughBoth(p, p);
  }

  /** Two modifies of different paths make one `move` from the first to the
      second, and the first modify's timer is cancelled. */
  lemma TwoModifiesAreMove(a: string, b: string)
    requires a != b
    ensures var s1 := SystemStepped(Start, Record(Kind.Modify, a), 0);
      var s2 := SystemStepped(s1, Record(Kind.Modify, b), 1);
      && s2.outer.emitted == [Move(a, b)]
      && s2.inner.timers == map[]
  {
    SystemModifyStep(a);
    SecondModifyThroughBoth(a, b);
  }

  /** Create, modify, remove within the window is momentary: no public
      event, and no timer is left to fire. */
  lemma CreateModifyRemoveIsSilent(p: string)
    ensures var s1 := SystemStepped(Start, Record(Kind.Create, p), 0);
      var s2 := SystemStepped(s1, Record(Kind.Modify, p), 1);
      var s3 := SystemStepped(s2, Record(Kind.Remove, p), 2);
      && s3.inner.emitted[|s3.inner.emitted| - 1] == I.Momentary(p)
      && s3.outer == Empty
      && s3.inner.timers == map[]
  {
    SystemCreateStep(p);
    SystemModifyAfterCreateStep(p);
    SystemRemoveAfterCreateModifyStep(p);
  }

  /** A create followed by a remove, with no modify between, is not
      momentary: it yields `remove` at once, and the create timer, which the
      remove does not cancel, later yields `touch`. */
  lemma CreateThenRemoveIsNotSilent(p: string)
    ensures var s1 := SystemStepped(Start, Record(Kind.Create, p), 0);
      var s2 := SystemStepped(s1, Record(Kind.Remove, p), 1);
      var s3 := SystemFired(s2, 1);
      var s4 := SystemTouched(s3, 1);
      && s2.outer.emitted == [Event.Remove(p)]
      && s4.outer.emitted == [Event.Remove(p), Touch(p)]
  {
    SystemCreateStep(p);
    SystemRemoveAfterCreateStep(p);
    var s2 := SystemStepped(System(AfterCreate(p), Empty), Record(Kind.Remove, p), 1);
    SystemCreateTimerStep(s2, p, [Event.Remove(p)]);
    SystemTouchStep(SystemFired(s2, 1), p, [Event.Remove(p)]);
  }

  /** A remove with no earlier state is one `remove`. */
  lemma LoneRemove(p: string)
    ensures SystemStepped(Start, Record(Kind.Remove, p), 0).outer.emitted == [Event.Remove(p)]
  {
    var s1 := SystemStepped(Start, Record(Kind.Remove, p), 0);
    assert s1.inner.emitted == [I.Remove(p)];
    DeliveredSingle(Empty, I.Remove(p));
  }

  /** Abort ends the record loop but cancels no timer: a create's timers
      still fire after the abort and a `touch` still comes out. */
  lemma AbortLeavesTimersLive(p: string)
    ensures var s1 := SystemStepped(Start, Record(Kind.Create, p), 0);
      var s2 := SystemAborted(s1);
      var s3 := SystemFired(s2, 1);
      var s4 := SystemTouched(s3, 1);
      && s2.inner.phase == Closed
      && s4.outer.emitted == [Touch(p)]
  {
    SystemCreateStep(p);
    var s2 := SystemAborted(System(AfterCreate(p), Empty));
    assert s2 == System(AfterCreate(p).(phase := Closed), Empty);
    SystemCreateTimerStep(s2, p, []);
    SystemTouchStep(SystemFired(s2, 1), p, []);
  }

  /** After an abort no record has any effect, and a second abort changes
      nothing. */
  lemma AbortIsFinalAndIdempotent(sys: System, record: FsEvent, time: int)
    requires sys.inner.phase != Listening
    ensures SystemStepped(sys, record, time) == sys
    ensures SystemAborted(SystemAborted(sys)) == SystemAborted(sys)
  {
    assert sys.inner.emitted[|sys.inner.emitted|..] == [];
  }
}
