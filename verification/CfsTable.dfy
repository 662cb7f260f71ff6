/** The arrays the older CFS scheduler keeps its processes in, and the loops over them. Each method does to
    the arrays what one step of CfsScheduler does to the slots. */
module CfsTable {
  import opened SchedCommons
  import opened CfsScheduler

  const NO_SLOT := Slot(INVALID_PROCESS, 0, 0, false)

  class ProcessTable {
    const list: array<Slot>
    var count: nat    // polling_thread_count

    ghost predicate Valid()
      reads this, list
    {
      && list.Length == MAX_CONTROLLER_COUNT && count <= MAX_CONTROLLER_COUNT
      && forall i :: count <= i < MAX_CONTROLLER_COUNT ==> list[i].pid == INVALID_PROCESS
    }

    ghost function Slots(): seq<Slot>
      requires Valid()
      reads this, list
    {
      list[..count]
    }

    constructor ()
      ensures Valid() && Slots() == [] && fresh(list)
    {
      list := new Slot[MAX_CONTROLLER_COUNT](_ => NO_SLOT);
      count := 0;
    }

    /** The whole array is searched, but no process is beyond the slots in use. */
    method AlreadyAddedTo(pid: nat) returns (found: bool)
      requires Valid() && pid != INVALID_PROCESS
      ensures found <==> Known(Slots(), PidOf, pid)
    {
      for i := 0 to MAX_CONTROLLER_COUNT
        invariant forall k :: 0 <= k < i ==> list[k].pid != pid
      {
        if list[i].pid == pid {
          assert PidOf(Slots()[i]) == pid;
          return true;
        }
      }
      found := false;
    }

    /** register_process. There is no bounds check; in a reachable state there is always room. */
    method RegisterProcess(pid: nat, signum: nat, share: nat, ghost s: State)
      requires Valid() && Inv(s) && s.slots == Slots()
      requires s.listener == Listener.Registering(pid, signum, share)
      modifies this`count, list
      ensures Valid() && Slots() == Next(s, Event.Register).slots == old(Slots()) + [Slot(pid, share, signum, true)]
    {
      SlotsBounded(s);
      list[count] := Slot(pid, share, signum, true);
      count := count + 1;
    }

    /** The listener's REM_Q branch. */
    method RemoveProcess(pid: nat, ghost s: State)
      requires Valid() && pid != INVALID_PROCESS && s.slots == Slots()
      requires Enabled(s, Listen) && s.fifo[0] == RemQ(pid)
      modifies list
      ensures Valid() && Slots() == Next(s, Listen).slots
      ensures |Slots()| == |old(Slots())|
      ensures forall i :: 0 <= i < |Slots()| ==>
                Slots()[i] ==
                var slot := old(Slots())[i];
                if slot.pid == pid && forall j :: 0 <= j < i ==> old(Slots())[j].pid != pid
                then Slot(0, slot.share, slot.signum, false) else slot
    {
      RemoveMeans(s, pid);
      for i := 0 to MAX_CONTROLLER_COUNT
        invariant Valid() && Slots() == s.slots
        invariant forall k :: 0 <= k < i ==> list[k].pid != pid
      {
        if pid == list[i].pid {
          assert i == FirstSlot(s.slots, pid, 0);
          list[i] := list[i].(pid := INVALID_PROCESS, valid := false);
          return;
        }
      }
      assert forall i :: 0 <= i < count ==> s.slots[i].pid != pid;
    }

    /** The control thread passes over a slot that is not valid. */
    method CheckSlot(thid: nat, ghost s: State) returns (valid: bool, next: nat)
      requires Valid() && s.slots == Slots() && s.thid == thid && Enabled(s, Check)
      ensures next == Next(s, Check).thid && (valid <==> Next(s, Check).controller == Checked)
      ensures valid <==> Slots()[thid].valid
      ensures next == if valid then thid else if thid + 1 == |Slots()| then 0 else thid + 1
    {
      valid, next := list[thid].valid, thid;
      if !valid {
        next := Following(thid);
      }
    }

    method Following(thid: nat) returns (next: nat)
      requires Valid() && thid < count
      ensures next == if thid + 1 == |Slots()| then 0 else thid + 1
    {
      next := thid + 1;
      if next > count - 1 {
        next := 0;
      }
    }
  }
}
