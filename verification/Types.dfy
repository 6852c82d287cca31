/** Values shared by the snapshot modules. */
module Types {

  datatype Option<+T> = None | Some(value: T)

  /** An EPICS monitor event: the PV it belongs to and its opaque content. */
  datatype MonitorEvent = MonitorEvent(pv: string, payload: int)

  /** Which sections a submission carries: the three bits of the source's flag enumeration. */
  datatype Parts = Parts(header: bool, data: bool, tail: bool)

  /** The parts a TIMED_BUFFERED operation reports: a header once per window, a tail at its end or at a stop. */
  function TimedParts(headerSent: bool, hasEvents: bool, windowExpired: bool, running: bool): Parts {
    Parts(!headerSent, hasEvents, windowExpired || !running)
  }

  datatype SnapshotKind = Normal | TimedBuffered

  /** One batch handed by an operation to the scheduler thread; `iter` is 0 until the scheduler resolves it. */
  datatype Submission = Submission(parts: Parts, events: seq<MonitorEvent>, iter: nat, last: bool)
  {
    /** The test that guards both the data accounting and the data section of a task. */
    predicate HasData() {
      parts.data && events != []
    }
  }

  /** What reaches the snapshot's queue. `sub` names the submission a data message came from. */
  datatype Message =
    | HeaderMsg(iter: nat)
    | DataMsg(iter: nat, sub: nat, event: MonitorEvent)
    | TailMsg(iter: nat)
}
