/** What the schedulers share: the size of their tables, and the pids in them. */
module SchedCommons {
  const MAX_CONTROLLER_COUNT := 500
  const INVALID_PROCESS := 0

  /** Some slot holds `pid`. */
  predicate Known<Slot>(slots: seq<Slot>, pidOf: Slot -> int, pid: int) {
    exists i :: 0 <= i < |slots| && pidOf(slots[i]) == pid
  }

  /** Each live pid has at most one slot. */
  predicate PidsUnique<Slot>(slots: seq<Slot>, pidOf: Slot -> int) {
    forall i, j :: 0 <= i < j < |slots| && pidOf(slots[i]) == pidOf(slots[j]) ==> pidOf(slots[i]) == INVALID_PROCESS
  }
}
