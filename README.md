# semitia, modelled in Dafny

semitia watches a directory tree. It turns the noisy stream of raw change
records (create, modify, remove, access, other; one or more paths; an
optional platform flag) into a few public events: `touch` (created and left
alone), `new` (created, then written), `modify`, `move` and `remove`. A shell
command or a `deno task` is then run for each changed path.

This project models that pipeline and proves properties of it:

- **Raw-event interpreter** (`internal.ts`, module `InternalWatch`,
  `internal.dfy`). Class `InternalWatcher` keeps the current and previous
  record, one global momentary marker, a per-path table of pending create and
  modify timers, and a modify-handle table. For each record it emits
  classified events (`ignore{reason}`, `momentary`, `create`, `modify`,
  `move`, `remove`).
- **Coalescing layer** (`watcher.ts`, module `PublicWatch`, `watcher.dfy`).
  Class `Watcher` owns the interpreter and subscribes to four of its event
  types. It keeps a per-path touch-timer table and emits the public events.
  Module `Scenarios` (`scenarios.dfy`) runs whole traces through both layers.
- **Simple watcher** (`simple.ts`, module `SimpleWatch`, `simple.dfy`).
  Create and remove pass straight through. Modifies are debounced by a
  single-slot `WatcherState`.
- **Legacy variant** (`mod.ts`, `legacy.dfy`). Module `LegacyWatch` holds the
  older interpreter class with its loop. Module `LegacyClassifier` holds
  `Array.prototype.equals` and the free buffer-pattern `watch` classifier.
- **Command line** (`cli.ts`, module `Cli`, `cli.dfy`). It covers the
  configuration checks of `main` and the path filter of `handle`.
- Module `FsEvents` (`fsevents.dfy`) holds the shared record type and the
  watcher life cycle (`Listening`, `Closed`, `Failed`).

How the source's runtime is represented:

- **Timers** are a map from live handles to callbacks. A handle is a
  positive integer taken from a counter, so it is never falsy.
  `clearTimeout` removes the handle from the map. A timer firing is an
  explicit step (`Fire`, `Fired`) that the environment may take at any
  time. One serialized queue of records and timer callbacks is assumed.
- **Time** is an integer passed with each record.
- **Dispatched events** are appended to an output sequence.
- **Exceptions** set the phase to `Failed`. This covers a `throw`, and a
  `TypeError` when a callback reads a table entry that has been deleted.
  After that nothing runs any more.
- **Classes.** Each class keeps the source's fields and has a snapshot
  function (`Snap`, `Outer`, `State`). Each of its methods is proved equal
  to a pure transition function on the snapshot. The properties are lemmas
  about those functions, and invariant predicates (`Valid`) are proved to be
  preserved.

Behaviour of the code worth knowing (the model does what the code does):

- The debounce window is tested as written: `previous.time - current.time
  <= 4`. On a clock that never runs backwards, every record after the first
  is "in the window", however late it comes (`WindowIgnoresElapsedTime`, in
  both interpreters).
- The two modify-pair branches (internal.ts:171-194) check no window at all.
- A create followed at once by a modify of the same path gives `touch`
  (`Scenarios.CreateThenModifyTouches`), although the comment table at
  mod.ts:288-292 lists create then modify as `new`. The modify is absorbed
  as `with-create` (internal.ts:196-199).
- `new` comes out when a `modify{P}` reaches the coalescing layer while P's
  touch timer is pending. A lone modify of P after the create timer has
  fired cannot do that: its own timer waits 4 ms, like the touch timer, and
  was armed later. A second modify of P can: the pair branch
  (internal.ts:171-181) emits `modify{P}` at once, so the touch timer is
  cancelled and `new{P}` comes out instead of `touch`
  (`Scenarios.ConfirmedCreateThenTwoModifiesIsNew`). The model leaves the
  order of timer firings free. `Scenarios.ModifyAfterConfirmedCreateIsNew`
  fires the modify timer before the touch timer, an order the source's fixed
  delays rule out. It is the only scenario that relies on such an order.
- Create then remove, with no modify between them, is not momentary. It
  gives `remove` at once, and later `touch` from the create timer, which the
  remove does not cancel (`Scenarios.CreateThenRemoveIsNotSilent`). Only
  create, modify, remove is momentary.
- A create does not cancel the path's pending modify timer. It only drops
  the path's modify handle.
- Abort stops the record loop but cancels no timer, in the interpreter, the
  coalescing layer and the legacy watcher. Pending timers still fire and
  emit after abort (`Scenarios.AbortLeavesTimersLive`). This is also what
  watcher.test.ts relies on: it aborts right after the create and still
  waits for the `touch`. The simple watcher's cleanup does clear its pending
  modify timer, but not an orphaned one.
- When the raw source runs out, internal.ts leaves its loop quietly, as an
  abort does. Only the legacy loop in mod.ts throws.
- The modify-handle table of internal.ts is never written, so the
  `with-create` branch that reads it can never be taken
  (`ModifyHandleBranchUnreachable`). The reasons `undecidable-modify` and
  `unexpected` are never emitted.
- A create timer overwritten by a second create of the same path is not
  cancelled. When that orphan fires, it empties the slot that now belongs to
  the second timer. The next record then purges the entry, and the second
  timer's callback throws (`OrphanedCreateTimerFails`).
- In `cli.ts`, the variable named `hidden` is true when NO piece of the path
  starts with a dot. The filter built on it is still the intended one.

## Model

| member | source | states |
|---|---|---|
| InternalWatch.Detected | internal.ts:137-233 | classifying a record only appends to the output, at most two events; unlisted kinds fail |
| InternalWatch.CreateDetected | internal.ts:143-156 | a create appends exactly one event |
| InternalWatch.RemoveDetected | internal.ts:211-223 | a remove appends at most one event |
| InternalWatch.Advanced | internal.ts:159-163 | the marker step keeps the current record and appends at most `momentary-progress` |
| InternalWatch.ModifyChecks | internal.ts:165-209 | the exclusive modify checks append exactly one event |
| InternalWatch.Stepped | internal.ts:89-116 | one pass of the record loop never retracts output |
| InternalWatch.Fired | internal.ts:148-152 | a firing timer appends at most one event |
| InternalWatch.Stopped | internal.ts:89-119 | ending the loop keeps every timer live and the output unchanged; only a listening watcher becomes closed |
| InternalWatch.InternalWatcher.constructor | internal.ts:128-135 | a new interpreter has empty tables, no records and no marker, and is valid |
| InternalWatch.InternalWatcher.SetTimeout | internal.ts:148-152 | arming registers the callback under a fresh handle |
| InternalWatch.InternalWatcher.ClearTimeout | internal.ts:176-177 | cancelling drops a present handle and ignores an absent one |
| InternalWatch.InternalWatcher.PurgeTimeouts | internal.ts:101-105 | the purge loop deletes exactly the entries with both slots empty |
| InternalWatch.InternalWatcher.PurgeModifyHandles | internal.ts:107-111 | the purge loop deletes exactly the modify handles out of the window |
| InternalWatch.InternalWatcher.Detect | internal.ts:137-233 | `detect` on the fields equals `Detected` on the snapshot |
| InternalWatch.InternalWatcher.DetectCreate | internal.ts:143-156 | the create branch on the fields equals `CreateDetected` |
| InternalWatch.InternalWatcher.AdvanceMomentary | internal.ts:159-163 | the marker step on the fields equals `Advanced` |
| InternalWatch.InternalWatcher.CheckModify | internal.ts:165-209 | the modify checks on the fields equal `ModifyChecks` |
| InternalWatch.InternalWatcher.DetectRemove | internal.ts:211-223 | the remove branch on the fields equals `RemoveDetected` |
| InternalWatch.InternalWatcher.Step | internal.ts:89-116 | one loop pass equals `Stepped`, returns exactly the new events, keeps the invariant |
| InternalWatch.InternalWatcher.Fire | internal.ts:148-152 | a timer callback equals `Fired`, returns what it emitted, keeps the invariant |
| InternalWatch.InternalWatcher.Abort | internal.ts:84-86 | abort equals `Stopped` |
| InternalWatch.PurgeKeepsValid | internal.ts:101-111 | the purges keep the invariant (live slots, backed marker, empty modify handles) |
| InternalWatch.DetectKeepsValid | internal.ts:137-233 | classification keeps the invariant |
| InternalWatch.ModifyChecksKeepsValid | internal.ts:165-209 | the modify checks keep the invariant |
| InternalWatch.ClearModifyKeepsValid | internal.ts:176-177 | cancelling and emptying one modify slot keeps the invariant |
| InternalWatch.StepKeepsValid | internal.ts:89-116 | a loop pass keeps the invariant |
| InternalWatch.FireKeepsValid | internal.ts:148-152 | a timer callback keeps the invariant |
| InternalWatch.CreateMarksAndArms | internal.ts:143-156 | a create sets the marker {create, P}, drops P's modify handle, stores a fresh create handle, keeps every earlier timer live and other entries unchanged, emits exactly `initial-create` |
| InternalWatch.ModifyAdvancesMarker | internal.ts:159-163 | a modify emits `momentary-progress` iff the marker is {create, P} in the window, and the exclusive checks then run on the advanced marker |
| InternalWatch.ModifyHandleBranchUnreachable | internal.ts:165-169 | the modify-handle table stays empty, so its `with-create` branch is never taken |
| InternalWatch.SecondModifyConfirmsEdit | internal.ts:171-181 | a modify after a modify of the same path with an entry cancels its modify timer and emits `modify{P}`, arming nothing |
| InternalWatch.ModifyAfterOtherModifyIsMove | internal.ts:183-194 | a modify after a modify of Q with an entry cancels Q's modify timer and emits `move{Q, P}` |
| InternalWatch.UnpairedModify | internal.ts:196-209 | otherwise `with-create` if a create timer is pending, else a fresh modify timer and `initial-modify` |
| InternalWatch.RemoveIsMomentaryOrRemove | internal.ts:211-223 | a remove emits `momentary{P}` iff the marker is {modify, P} in the window (cancelling the create timer and clearing the marker), else `remove{P}`; it never throws under the invariant |
| InternalWatch.CreateTimerFires | internal.ts:148-152 | a create timer empties its slot, emits `create{P}`, clears the marker, or throws if the entry was purged |
| InternalWatch.ModifyTimerFires | internal.ts:202-205 | a modify timer empties its slot and emits `modify{P}`, or throws if the entry was purged |
| InternalWatch.MultiPathRecordsSkipped | internal.ts:93 | records without exactly one path change nothing |
| InternalWatch.PurgeKeepsPendingEntries | internal.ts:101-105 | the purge keeps exactly the entries with a pending slot, unchanged |
| InternalWatch.StepFailsExactlyOnUnknownKinds | internal.ts:225-231 | a record fails the watcher iff its kind is any or other; otherwise it becomes current and previous; access emits `linux-access` |
| InternalWatch.WindowIgnoresElapsedTime | internal.ts:245-250 | the window test holds iff the current time is at least previous minus 4, so always on a forward clock |
| InternalWatch.TwoCreates | internal.ts:143-156 | a second create of P overwrites its slot with the new handle while the first timer stays live, with the invariant holding |
| InternalWatch.OrphanedCreateTimerFails | internal.ts:147-152 | two creates of P, the orphan firing, then any record: the second create timer throws, with the invariant holding throughout |
| PublicWatch.Handled | watcher.ts:72-101 | handling an event appends at most one public event |
| PublicWatch.Delivered | watcher.ts:44-47 | delivering a batch appends at most one public event per event |
| PublicWatch.Touched | watcher.ts:74-77 | a touch timer appends at most one public event |
| PublicWatch.Watcher.constructor | watcher.ts:39-48 | a new watcher owns a fresh interpreter, has empty tables and is valid |
| PublicWatch.Watcher.Handle | watcher.ts:60-107 | the listener succeeds iff the event type is subscribed, then equals `Handled`; otherwise it throws and changes nothing |
| PublicWatch.Watcher.Deliver | watcher.ts:44-47 | the dispatch loop equals `Delivered` over the batch |
| PublicWatch.Watcher.Step | watcher.ts:50 | a record through both layers equals `SystemStepped` and keeps both invariants |
| PublicWatch.Watcher.FireInternal | watcher.ts:50 | an interpreter timer through both layers equals `SystemFired` and keeps both invariants |
| PublicWatch.Watcher.FireTouch | watcher.ts:74-77 | a touch timer equals `SystemTouched` and keeps both invariants |
| PublicWatch.Watcher.Abort | watcher.ts:51 | abort equals `SystemAborted` |
| PublicWatch.HandledKeepsValid | watcher.ts:72-101 | handling keeps every slot pointing at a live timer of its path |
| PublicWatch.DeliveredKeepsValid | watcher.ts:44-47 | delivering a batch keeps the table invariant |
| PublicWatch.TouchedKeepsValid | watcher.ts:74-77 | a touch timer keeps the table invariant |
| PublicWatch.SystemKeepsValid | watcher.ts:50-51 | every step of the whole pipeline keeps both invariants |
| PublicWatch.CreateArmsTouchTimer | watcher.ts:73-79 | `create{P}` arms a fresh touch timer in P's slot and emits nothing; an earlier touch timer stays live |
| PublicWatch.TouchTimerFires | watcher.ts:74-77 | a touch timer clears P's slot and emits exactly `touch{P}` |
| PublicWatch.ModifyIsNewExactlyAfterCreate | watcher.ts:81-91 | `modify{P}` becomes `new{P}` iff a touch timer is pending for P (which it cancels), else `modify{P}` |
| PublicWatch.MoveAndRemovePassThrough | watcher.ts:93-101 | `move` and `remove` pass through unchanged |
| PublicWatch.HandleIsLocal | watcher.ts:72-101 | handling an event never changes another path's slot |
| PublicWatch.UnsubscribedAreSwallowed | watcher.ts:44-47 | `ignore` and `momentary` events produce no public event and change nothing |
| Scenarios.DeliveredSingle | watcher.ts:44-47 | a one-event batch is that event handled |
| Scenarios.CreateStep | internal.ts:143-156 | a create of P on a fresh interpreter marks P, arms create timer 1 and emits `initial-create` |
| Scenarios.ModifyAfterCreateStep | internal.ts:158-199 | a modify of P right after its create advances the marker to modify, arms nothing and emits `momentary-progress`, `with-create` |
| Scenarios.RemoveAfterCreateModifyStep | internal.ts:211-218 | then a remove of P emits `momentary{P}` and cancels the last timer |
| Scenarios.RemoveAfterCreateStep | internal.ts:211-221 | a remove of P right after its create emits `remove{P}` and leaves the marker and the create timer alone |
| Scenarios.CreateTimerStep | internal.ts:148-152 | create timer 1 of P, fired while P has an entry, emits `create{P}`, empties the slot and clears the marker |
| Scenarios.ConfirmCreateStep | internal.ts:148-152 | the create timer fires on the fresh create of P |
| Scenarios.ModifyAfterConfirmedCreateStep | internal.ts:196-209 | after a confirmed create the emptied entry is purged, so a modify arms modify timer 2 and emits `initial-modify` |
| Scenarios.SecondModifyAfterConfirmedCreateStep | internal.ts:171-181 | a second modify of P while its modify timer pends cancels that timer and emits `modify{P}` at once |
| Scenarios.ModifyStep | internal.ts:196-209 | a modify of P on a fresh interpreter arms modify timer 1 and emits `initial-modify` |
| Scenarios.SecondModifyStep | internal.ts:171-194 | a second modify cancels that timer and emits `modify{A}` for the same path, `move{A, B}` for another |
| Scenarios.SystemCreateStep | watcher.ts:44-47 | a create through both layers reaches only the interpreter |
| Scenarios.SystemModifyAfterCreateStep | watcher.ts:44-47 | the absorbed modify reaches only the interpreter |
| Scenarios.SystemCreateTimerStep | watcher.ts:73-79 | the interpreter's `create{P}` arms touch timer 1 for P in the coalescing layer |
| Scenarios.SystemTouchStep | watcher.ts:74-77 | touch timer 1 appends `touch{P}` |
| Scenarios.SystemConfirmCreateStep | watcher.ts:73-79 | the confirmed create leaves one touch timer pending |
| Scenarios.ModifyWhileTouching | watcher.ts:81-86 | a modify after the confirmed create changes nothing in the coalescing layer and arms modify timer 2 |
| Scenarios.ModifyTimerMeetsTouch | watcher.ts:81-86 | that timer's `modify{P}` meets the pending touch timer: `new{P}`, and no touch timer is left |
| Scenarios.SecondModifyMeetsTouch | watcher.ts:81-86 | the second modify's `modify{P}` meets the pending touch timer: `new{P}`, and no touch or modify timer is left |
| Scenarios.SystemRemoveAfterCreateModifyStep | internal.ts:211-218 | the momentary remove produces no public event and leaves no timer |
| Scenarios.SystemRemoveAfterCreateStep | watcher.ts:97-101 | a remove right after a create comes out as `remove{P}`, with the create timer still live |
| Scenarios.SystemModifyStep | watcher.ts:44-47 | a first modify reaches only the interpreter |
| Scenarios.SecondModifyThroughBoth | watcher.ts:81-96 | the second modify's `modify` or `move` passes through the coalescing layer unchanged |
| Scenarios.SingleCreateTouches | watcher.test.ts:15-21 | create then silence yields exactly `touch{P}`, and only after both timers fire |
| Scenarios.CreateThenModifyTouches | internal.ts:158-199 | create then modify of P yields `initial-create`, `momentary-progress`, `with-create`, and in the end `touch{P}` |
| Scenarios.ModifyAfterConfirmedCreateIsNew | watcher.ts:81-86 | a modify whose timer fires while the touch timer is pending yields exactly `new{P}`; the source's equal 4 ms delays rule this firing order out |
| Scenarios.ConfirmedCreateThenTwoModifiesIsNew | watcher.ts:72-87 | create, create timer, modify, modify of P yields exactly `new{P}`, with the touch timer cancelled |
| Scenarios.TwoModifiesAreOneModify | internal.ts:171-181 | two modifies of P yield exactly `modify{P}` and leave no timer |
| Scenarios.TwoModifiesAreMove | internal.ts:183-194 | modifies of A then B yield exactly `move{A, B}` and leave no timer |
| Scenarios.CreateModifyRemoveIsSilent | internal.ts:211-218 | create, modify, remove yields `momentary{P}`, no public event, no live timer |
| Scenarios.CreateThenRemoveIsNotSilent | internal.ts:211-221 | create then remove yields `remove{P}` and later `touch{P}` |
| Scenarios.LoneRemove | internal.ts:221 | a lone remove yields exactly `remove{P}` |
| Scenarios.AbortLeavesTimersLive | watcher.test.ts:15-21 | after create and abort the timers still fire and `touch{P}` comes out |
| Scenarios.AbortIsFinalAndIdempotent | internal.ts:89-92 | after abort records change nothing, and a second abort changes nothing |
| SimpleWatch.WatcherState.constructor | simple.ts:114-119 | a new slot is idle |
| SimpleWatch.WatcherState.Set | simple.ts:145-148 | `set` arms a fresh timer and stores the path without cancelling the old handle |
| SimpleWatch.WatcherState.Clear | simple.ts:150-155 | `clear` cancels the pending handle, if any, and forgets the path |
| SimpleWatch.WatcherState.Invoke | simple.ts:157-162 | `invoke` throws iff the path or the handle is falsy, else calls back with the path and clears |
| SimpleWatch.WatcherState.Update | simple.ts:121-143 | `update` equals `Updated`, including its throw case |
| SimpleWatch.WatcherState.Fire | simple.ts:157-162 | a timer equals `SlotFired`: a dead handle does nothing, a live one is spent then runs `invoke` |
| SimpleWatch.WatcherState.Cleanup | simple.ts:164 | `cleanup` is `clear` |
| SimpleWatch.Watcher.constructor | simple.ts:101-103 | a new watcher listens with an idle slot and no output |
| SimpleWatch.Watcher.Process | simple.ts:88-99 | `process` equals `Handled` on a one-path record of kind create, modify or remove |
| SimpleWatch.Watcher.Handle | simple.ts:69-84 | `handle` equals `Handled` and keeps the invariant |
| SimpleWatch.Watcher.Fire | simple.ts:157-162 | a timer equals `Fired` and keeps the invariant |
| SimpleWatch.Watcher.Stop | simple.ts:59-65 | ending the loop equals `Stopped` and keeps the invariant |
| SimpleWatch.UpdatedKeepsValid | simple.ts:121-143 | on a valid slot `update` never throws and keeps the slot valid |
| SimpleWatch.HandledKeepsValid | simple.ts:69-99 | handling a record keeps the invariant |
| SimpleWatch.FiredKeepsValid | simple.ts:157-162 | a timer keeps the invariant |
| SimpleWatch.StoppedKeepsValid | simple.ts:59-65 | cleanup keeps the invariant |
| SimpleWatch.UpdateCallsBackOnPathChange | simple.ts:121-143 | `update(P)` calls back exactly when a different truthy path was pending, with that path; it leaves P pending on a fresh handle; a truthy old path's timer is cancelled, so no orphan is added; a pending `""` leaves its timer as an orphan |
| SimpleWatch.RepeatedModifyRestartsTimer | simple.ts:128-133 | a modify of the pending path cancels its timer, arms a fresh one and dispatches nothing |
| SimpleWatch.CreateAndRemovePassThrough | simple.ts:89-93 | create and remove are dispatched at once and leave the slot alone |
| SimpleWatch.DroppedRecordsChangeNothing | simple.ts:69-81 | records with a truthy flag, multi-path records, and any/access/other records change nothing |
| SimpleWatch.PendingTimerDispatches | simple.ts:157-162 | the pending timer dispatches `modify{P}` and empties the slot, or throws when P is "" |
| SimpleWatch.StopClearsSlot | simple.ts:59-65 | cleanup empties the slot, leaves only orphans live, and is idempotent |
| SimpleWatch.EmptyPathTimerThrows | simple.ts:157-158 | a modify of "" arms a timer whose callback throws |
| SimpleWatch.EmptyPathLeavesOrphan | simple.ts:121-126 | after "" a modify of P orphans the first timer, which then dispatches P early and cancels P's own timer |
| SimpleWatch.ModifyThenOtherModify | simple.ts:135-140 | modifies of A then B dispatch A at once and B when its timer fires, leaving the slot empty |
| LegacyWatch.Watcher.constructor | mod.ts:139-150 | a new watcher has no previous record, no marker, a passing handle, no timers |
| LegacyWatch.Watcher.SetTimeout | mod.ts:158-163 | arming registers the callback under a fresh handle |
| LegacyWatch.Watcher.ClearTimeout | mod.ts:179 | cancelling drops a present handle and ignores an absent one |
| LegacyWatch.Watcher.ResetWindow | mod.ts:93-96 | out of the window the marker and the modify handle are reset; in it nothing changes |
| LegacyWatch.Watcher.DetectCreate | mod.ts:154-164 | the create branch equals `CreateDetected` |
| LegacyWatch.Watcher.DetectModify | mod.ts:166-195 | the modify branch equals `ModifyDetected` |
| LegacyWatch.Watcher.DetectRemove | mod.ts:197-211 | the remove branch equals `RemoveDetected` |
| LegacyWatch.Watcher.Detect | mod.ts:152-219 | `detect` equals `DetectedBy`, and a throw changes nothing |
| LegacyWatch.Watcher.Step | mod.ts:86-131 | one loop pass equals `Stepped` and keeps the invariant |
| LegacyWatch.Watcher.Fire | mod.ts:158-163 | a timer callback equals `Fired` and keeps the invariant |
| LegacyWatch.Watcher.End | mod.ts:86 | the source running out fails the watcher |
| LegacyWatch.Watcher.Abort | mod.ts:83-85 | abort closes a listening watcher |
| LegacyWatch.DetectedKeepsValid | mod.ts:152-219 | `detect` keeps the timer slots live and the previous fields consistent |
| LegacyWatch.StepKeepsValid | mod.ts:86-131 | a loop pass keeps the invariant |
| LegacyWatch.FireKeepsValid | mod.ts:158-163 | a timer callback keeps the invariant |
| LegacyWatch.CreateMarksAndArms | mod.ts:154-164 | a create sets progress create, the path and the ignore handle, arms a create timer and returns `ignore` |
| LegacyWatch.ArmedHandleSwallowsOneModify | mod.ts:173-176 | an in-window modify with the handle armed resets it to pass and returns `ignore` |
| LegacyWatch.ModifyAfterModify | mod.ts:178-186 | otherwise after a modify it cancels the move timer and returns `modify` iff the path is the same, else `move` |
| LegacyWatch.RemoveIsMomentaryOrRemove | mod.ts:197-211 | a remove returns `momentary` iff progress is modify on the path in the window (cancelling the create timer and resetting the marker), else `remove` with no change |
| LegacyWatch.DetectThrowsOnUnlistedKinds | mod.ts:213-217 | `detect` throws iff the kind is any or other; access is ignored without change |
| LegacyWatch.StepRecordsPrevious | mod.ts:86-131 | multi-path records are skipped; a processed record becomes previous and adds one report; unlisted kinds fail |
| LegacyWatch.OutOfWindowModifyArmsTimer | mod.ts:93-96 | out of the window the marker and handle reset first, so an unpaired modify is not swallowed and arms a move timer |
| LegacyWatch.WindowIgnoresElapsedTime | mod.ts:221-223 | on a forward clock every record after the first is in the window |
| LegacyWatch.EndFailsAbortKeepsTimers | mod.ts:85-86 | the source's end fails the watcher; abort closes it with every timer still live and able to report |
| LegacyWatch.CreateModifyRemoveIsMomentary | mod.ts:152-211 | create, modify, remove of P reports ignore, ignore, momentary and leaves no timer |
| LegacyWatch.OrphanedCreateTimerClearsMarker | mod.ts:158-163 | an orphaned create timer clears a later create's marker, so that path's modify and remove is reported as `remove` |
| LegacyClassifier.Equals | mod.ts:22-33 | `equals` is true iff the lengths match and every index is equal |
| LegacyClassifier.Classified | mod.ts:251-367 | a step keeps the three buffers of equal length and either keeps, empties or grows them by one |
| LegacyClassifier.ClassifiedAll | mod.ts:251-368 | every run keeps the buffers aligned and only appends to what was dispatched |
| LegacyClassifier.Watch | mod.ts:235-369 | the buffered loop dispatches exactly what `ClassifiedAll` does |
| LegacyClassifier.DispatchEmptiesBuffers | mod.ts:294-367 | every dispatch empties all three buffers, and a step dispatches at most once |
| LegacyClassifier.CreateIsNew | mod.ts:294-302 | a create on an empty buffer dispatches `new` and sets both markers |
| LegacyClassifier.ModifyAfterNewIsSwallowed | mod.ts:304-314 | a modify within DELTA of `new` is swallowed and moves the momentary mark |
| LegacyClassifier.RemoveIsMomentaryOrRemove | mod.ts:316-367 | a remove dispatches `momentary` while the mark is within DELTA, else `remove` |
| LegacyClassifier.ModifyPairIsEditOrMove | mod.ts:348-357 | two modifies dispatch `edit` for one path and `move` for two |
| LegacyClassifier.ClassifiedAllSplits | mod.ts:251-368 | classifying two runs in turn is classifying them joined |
| LegacyClassifier.WedgedBufferNeverDispatches | mod.ts:294-367 | once two records are buffered nothing is ever dispatched again |
| LegacyClassifier.OtherKindWedges | mod.ts:252-263 | an `other` record buffered before a create wedges the classifier for good |
| Cli.Configure | cli.ts:30-45 | the paths are the directories (default `[""]`) then the literal args; the command is the shell list, else `deno task` and the tasks; a missing command is reported first, then a missing acceptance |
| Cli.Split | cli.ts:55 | `split` always yields at least one piece |
| Cli.JoinSplit | cli.ts:55 | joining the pieces with the separator gives the path back, and no piece contains the separator |
| Cli.SplitFirstPiece | cli.ts:55 | a first piece starting with a dot means the path does |
| Cli.SplitStartsLikeString | cli.ts:55 | a path starting with a dot has a first piece starting with it |
| Cli.SplitPieceAfterSeparator | cli.ts:55 | a later piece starting with a dot follows a separator directly followed by a dot |
| Cli.SplitBoundaryPiece | cli.ts:55 | a separator directly followed by a dot starts a later piece beginning with it |
| Cli.DotSegmentIsDotAfterBoundary | cli.ts:54-56 | the `find` finds a dot piece iff the path starts with a dot or has a separator followed by a dot |
| Cli.Handled | cli.ts:51-58 | a command that runs is the command prefix with the path appended |
| Cli.HandledRunsExactly | cli.ts:51-58 | a command runs iff `--all`, or the path neither ends in `~` nor has a dot piece; the path is its last argument |

## Left out

- `Deno.watchFs`, the async iterators and the race against the abort
  promise. Records and aborts are inputs to the model instead.
- The real `setTimeout`/`clearTimeout` scheduling. Timers are the live-handle
  map with explicit fire steps, in one serialized queue. Concurrency,
  ordering between timers, and the threshold delay, which the model never
  measures, are not modelled.
- Wall-clock time (`new Date().getTime()`): time is an input.
- `inoCache` in mod.ts. It does directory reads and `stat` calls, and nothing
  uses its result.
- All logging and colour output. The legacy watcher's reports are kept only
  as a log of detections and timer reports.
- `EventTarget`/`Event` dispatch and subscription. The coalescing layer's
  subscription is the `Subscribed` predicate, and public events are an
  output sequence.
- `Deno.run`: the model gives the command that would run, not a process.
- Option parsing with Cliffy, including its `conflicts` and `required`
  rules. The parsed options are an input.
- deps.ts, which only re-exports libraries.
- The listener wiring in cli.ts:47-49 and 61-73. It subscribes to `create`,
  which watcher.ts never emits, and reads `event.path`, which watcher.ts's
  events do not carry.
- The `IGNORE_TEMPORARY` branch of mod.ts's `watch`: a constant `false`
  switches it off.
- `Array.prototype.equals`' `for...in` loop also visits the enumerable
  `equals` property itself. The model leaves that out, since both arrays
  share the property and the comparison is true.
- `resolve` of the watched path, and the `target`/`recursive` fields, which
  only configure the raw source.
- Cli.Split: models `split` on a one-character separator only, which is what
  `Std.path.sep` is. The separator must not be `.` for the dot-piece lemmas.
