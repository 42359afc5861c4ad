/** The coalescing layer (layer 2): it listens to the interpreter's create,
    modify, move and remove events, delays a create by a "touch" timer per
    path, turns a modify that meets a pending touch timer into `new`, and
    passes the other events through. The watcher owns its interpreter and
    forwards every event the interpreter dispatches, synchronously, to its
    handler. */
module PublicWatch {
  import opened FsEvents
  import I = InternalWatch

  /** The public events. */
  datatype Event =
    | Touch(at: string)
    | New(at: string)
    | Move(from: string, to: string)
    | Modify(at: string)
    | Remove(at: string)

  /** The layer's own state: a touch-timer slot per path (a cleared slot
      holds None), the live touch timers (handle to path), the next handle,
      and what the layer has emitted. */
  datatype Table = Table(
    timeout: map<string, Option<nat>>,
    timers: map<nat, string>,
    nextHandle: nat,
    emitted: seq<Event>)

  const Empty := Table(map[], map[], 1, [])

  function Pending(t: Table, at: string): Option<nat> {
    if at in t.timeout then t.timeout[at] else None
  }

  /** The interpreter event types the watcher subscribes to. */
  predicate Subscribed(e: I.Event) {
    e.Create? || e.Modify? || e.Move? || e.Remove?
  }

  /** `handle` on a subscribed event. */
  function Handled(t: Table, e: I.Event): (r: Table)
    requires Subscribed(e)
    ensures t.emitted <= r.emitted && |r.emitted| <= |t.emitted| + 1
  {
    match e
    case Create(at) =>
      t.(timeout := t.timeout[at := Some(t.nextHandle)],
         timers := t.timers[t.nextHandle := at],
         nextHandle := t.nextHandle + 1)
    case Modify(at) =>
      if Pending(t, at).Some? then
        t.(timers := t.timers - {Pending(t, at).value},
           timeout := t.timeout[at := None],
           emitted := t.emitted + [New(at)])
      else
        t.(emitted := t.emitted + [Event.Modify(at)])
    case Move(from, to) =>
      t.(emitted := t.emitted + [Move(from, to)])
    case Remove(at) =>
      t.(emitted := t.emitted + [Event.Remove(at)])
  }

  /** One dispatched interpreter event: only a subscribed type reaches `handle`. */
  function DeliveredOne(t: Table, e: I.Event): Table {
    if Subscribed(e) then Handled(t, e) else t
  }

  /** A sequence of dispatched interpreter events, in order. */
  function Delivered(t: Table, events: seq<I.Event>): (r: Table)
    ensures t.emitted <= r.emitted && |r.emitted| <= |t.emitted| + |events|
    decreases |events|
  {
    if events == [] then t
    else DeliveredOne(Delivered(t, events[..|events| - 1]), events[|events| - 1])
  }

  /** A touch timer fires: it clears its path's slot and emits `touch`. */
  function Touched(t: Table, handle: nat): (r: Table)
    ensures t.emitted <= r.emitted && |r.emitted| <= |t.emitted| + 1
  {
    if handle !in t.timers then t
    else
      var at := t.timers[handle];
      t.(timers := t.timers - {handle},
         timeout := t.timeout[at := None],
         emitted := t.emitted + [Touch(at)])
  }

  /** A stored touch handle is live and its callback is for that path. */
  ghost predicate TableValid(t: Table) {
    && 1 <= t.nextHandle
    && (forall h | h in t.timers :: 1 <= h < t.nextHandle)
    && (forall p | p in t.timeout && t.timeout[p].Some? ::
          t.timeout[p].value in t.timers && t.timers[t.timeout[p].value] == p)
  }

  // ---------------------------------------------------------------------
  // The two layers together

  datatype System = System(inner: I.Snapshot, outer: Table)

  const Start := System(I.Initial, Empty)

  /** Whatever the interpreter emits on a record is delivered, in order. */
  function SystemStepped(sys: System, record: FsEvent, time: int): System {
    var inner := I.Stepped(sys.inner, record, time);
    System(inner, Delivered(sys.outer, inner.emitted[|sys.inner.emitted|..]))
  }

  function SystemFired(sys: System, handle: nat): System {
    var inner := I.Fired(sys.inner, handle);
    System(inner, Delivered(sys.outer, inner.emitted[|sys.inner.emitted|..]))
  }

  /** A touch timer fires, unless an exception has ended the process. */
  function SystemTouched(sys: System, handle: nat): System {
    if sys.inner.phase == Failed then sys else System(sys.inner, Touched(sys.outer, handle))
  }

  function SystemAborted(sys: System): System {
    System(I.Stopped(sys.inner), sys.outer)
  }

  ghost predicate SystemValid(sys: System) {
    I.Valid(sys.inner) && TableValid(sys.outer)
  }

  // ---------------------------------------------------------------------
  // The imperative watcher

  class Watcher {
    const internal: I.InternalWatcher
    var timeout: map<string, Option<nat>>
    var timers: map<nat, string>
    var nextHandle: nat
    var emitted: seq<Event>

    function Outer(): Table
      reads this
    {
      Table(timeout, timers, nextHandle, emitted)
    }

    function State(): System
      reads this, internal
    {
      System(internal.Snap(), Outer())
    }

    ghost predicate Valid()
      reads this, internal
    {
      SystemValid(State())
    }

    constructor ()
      ensures fresh(internal) && State() == Start && Valid()
    {
      internal := new I.InternalWatcher();
      timeout, timers, nextHandle, emitted := map[], map[], 1, [];
    }

    /** The listener. An event of a type it does not expect makes it throw
        (`ok` is false) and change nothing. */
    method Handle(e: I.Event) returns (ok: bool)
      modifies this
      ensures ok == Subscribed(e)
      ensures ok ==> Outer() == Handled(old(Outer()), e)
      ensures !ok ==> Outer() == old(Outer())
    {
      match e {
        case Create(at) =>
          var handle := nextHandle;
          timeout := timeout[at := Some(handle)];
          timers := timers[handle := at];
          nextHandle := nextHandle + 1;
        case Modify(at) =>
          if at in timeout && timeout[at].Some? {
            timers := timers - {timeout[at].value};
            timeout := timeout[at := None];
            emitted := emitted + [New(at)];
          } else {
            emitted := emitted + [Event.Modify(at)];
          }
        case Move(from, to) =>
          emitted := emitted + [Move(from, to)];
        case Remove(at) =>
          emitted := emitted + [Event.Remove(at)];
        case _ =>
          return false;
      }
      return true;
    }

    /** Dispatch of the interpreter's events to the subscribed listener. */
    method Deliver(events: seq<I.Event>)
      modifies this
      ensures Outer() == Delivered(old(Outer()), events)
    {
      var i := 0;
      while i < |events|
        invariant 0 <= i <= |events|
        invariant Outer() == Delivered(old(Outer()), events[..i])
      {
        if Subscribed(events[i]) {
          var _ := Handle(events[i]);
        }
        assert events[..i + 1][..i] == events[..i];
        i := i + 1;
      }
      assert events[..i] == events;
    }

    /** One record reaches the interpreter. */
    method Step(record: FsEvent, time: int)
      requires Valid()
      modifies this, internal
      ensures State() == SystemStepped(old(State()), record, time)
      ensures Valid()
    {
      var events := internal.Step(record, time);
      Deliver(events);
      DeliveredKeepsValid(old(Outer()), events);
    }

    /** One of the interpreter's timers fires. */
    method FireInternal(handle: nat)
      requires Valid()
      modifies this, internal
      ensures State() == SystemFired(old(State()), handle)
      ensures Valid()
    {
      var events := internal.Fire(handle);
      Deliver(events);
      DeliveredKeepsValid(old(Outer()), events);
    }

    /** One of the watcher's touch timers fires. */
    method FireTouch(handle: nat)
      requires Valid()
      modifies this
      ensures State() == SystemTouched(old(State()), handle)
      ensures Valid()
    {
      TouchedKeepsValid(Outer(), handle);
      if internal.phase == Failed || handle !in timers {
        return;
      }
      var at := timers[handle];
      timers := timers - {handle};
      timeout := timeout[at := None];
      emitted := emitted + [Touch(at)];
    }

    method Abort()
      modifies internal
      ensures State() == SystemAborted(old(State()))
    {
      internal.Abort();
    }
  }

  // ---------------------------------------------------------------------
  // The invariant is kept

  lemma HandledKeepsValid(t: Table, e: I.Event)
    requires TableValid(t) && Subscribed(e)
    ensures TableValid(Handled(t, e))
  {
    var r := Handled(t, e);
    if e.Modify? && Pending(t, e.at).Some? {
      forall p | p in r.timeout && r.timeout[p].Some?
        ensures r.timeout[p].value in r.timers && r.timers[r.timeout[p].value] == p
      {
        assert p != e.at && r.timeout[p] == t.timeout[p];
      }
    }
  }

  lemma {:induction false} DeliveredKeepsValid(t: Table, events: seq<I.Event>)
    requires TableValid(t)
    ensures TableValid(Delivered(t, events))
    decreases |events|
  {
    if events != [] {
      var before := Delivered(t, events[..|events| - 1]);
      DeliveredKeepsValid(t, events[..|events| - 1]);
      if Subscribed(events[|events| - 1]) {
        HandledKeepsValid(before, events[|events| - 1]);
      }
    }
  }

  lemma TouchedKeepsValid(t: Table, handle: nat)
    requires TableValid(t)
    ensures TableValid(Touched(t, handle))
  {
  }

  lemma SystemKeepsValid(sys: System, record: FsEvent, time: int, handle: nat)
    requires SystemValid(sys)
    ensures SystemValid(SystemStepped(sys, record, time))
    ensures SystemValid(SystemFired(sys, handle))
    ensures SystemValid(SystemTouched(sys, handle))
    ensures SystemValid(SystemAborted(sys))
  {
    I.StepKeepsValid(sys.inner, record, time);
    I.FireKeepsValid(sys.inner, handle);
    var stepped := I.Stepped(sys.inner, record, time);
    DeliveredKeepsValid(sys.outer, stepped.emitted[|sys.inner.emitted|..]);
    var fired := I.Fired(sys.inner, handle);
    DeliveredKeepsValid(sys.outer, fired.emitted[|sys.inner.emitted|..]);
    TouchedKeepsValid(sys.outer, handle);
  }

  // ---------------------------------------------------------------------
  // What one event does

  /** A create arms a touch timer for its path and emits nothing; an earlier
      touch timer of the same path is left live. */
  lemma CreateArmsTouchTimer(t: Table, at: string)
    requires TableValid(t)
    ensures var r := Handled(t, I.Create(at));
      && r.emitted == t.emitted
      && Pending(r, at) == Some(t.nextHandle)
      && r.timers == t.timers[t.nextHandle := at]
      && t.nextHandle !in t.timers
  {
  }

  /** A firing touch timer clears its path's slot and emits exactly
      `touch{P}`, even when the slot now holds a later timer of P. */
  lemma TouchTimerFires(t: Table, handle: nat)
    requires handle in t.timers
    ensures var at := t.timers[handle]; var r := Touched(t, handle);
      && r.emitted == t.emitted + [Touch(at)]
      && Pending(r, at) == None
      && r.timers == t.timers - {handle}
  {
  }

  /** A modify becomes `new` exactly when a touch timer is pending for its
      path, which it then cancels; otherwise it is a public `modify`. */
  lemma ModifyIsNewExactlyAfterCreate(t: Table, at: string)
    ensures var r := Handled(t, I.Modify(at));
      && (Pending(t, at).Some? ==>
            r.emitted == t.emitted + [New(at)] && Pending(r, at) == None
            && r.timers == t.timers - {Pending(t, at).value})
      && (Pending(t, at).None? ==> r == t.(emitted := t.emitted + [Event.Modify(at)]))
      && (r.emitted[|t.emitted|] == New(at) <==> Pending(t, at).Some?)
  {
  }

  /** Moves and removes pass through unchanged. */
  lemma MoveAndRemovePassThrough(t: Table, from: string, to: string, at: string)
    ensures Handled(t, I.Move(from, to)) == t.(emitted := t.emitted + [Move(from, to)])
    ensures Handled(t, I.Remove(at)) == t.(emitted := t.emitted + [Event.Remove(at)])
  {
  }

  /** The path an event concerns, if it concerns one path's timer slot. */
  function SlotPath(e: I.Event): Option<string> {
    if e.Create? || e.Modify? then Some(e.at) else None
  }

  /** Handling an event never touches another path's slot, and yields at most
      one public event. */
  lemma HandleIsLocal(t: Table, e: I.Event, q: string)
    requires Subscribed(e) && SlotPath(e) != Some(q)
    ensures Pending(Handled(t, e), q) == Pending(t, q)
    ensures |Handled(t, e).emitted| <= |t.emitted| + 1
  {
  }

  /** Ignore and momentary events never produce a public event, nor change
      any state of this layer. */
  lemma {:induction false} UnsubscribedAreSwallowed(t: Table, events: seq<I.Event>)
    requires forall i | 0 <= i < |events| :: events[i].Ignore? || events[i].Momentary?
    ensures Delivered(t, events) == t
    decreases |events|
  {
    if events != [] {
      UnsubscribedAreSwallowed(t, events[..|events| - 1]);
    }
  }
}
