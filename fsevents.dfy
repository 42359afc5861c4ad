/** Types shared by every watcher variant: the raw change records the
    filesystem source delivers, and the life cycle of a watch loop. */
module FsEvents {

  datatype Option<+T> = None | Some(value: T)

  /** The kinds a raw change record can carry. */
  datatype Kind = Any | Access | Create | Modify | Remove | Other

  /** One raw change record: its kind, the paths it names, and an optional
      platform flag. */
  datatype FsEvent = FsEvent(kind: Kind, paths: seq<string>, flag: Option<string>)

  /** Where a watcher is in its life:
      Listening — the record loop runs and timers fire;
      Closed    — the record loop has ended (abort, or the source ran out),
                  but timers that are still live keep firing;
      Failed    — an exception escaped a record or a timer callback, which
                  ends the process: nothing runs any more. */
  datatype Phase = Listening | Closed | Failed
}
