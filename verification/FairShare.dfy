/** The fair-share scheduler: the shared slot table, the listener and control threads that update it
    in place, and the step functions those updates refine. Runs of steps are studied in FairShareRuns. */
module FairShare {
  import opened TimeVals
  import opened SchedCommons

  const NUM_GPUS := 2
  const EPOCH_LENGTH := 100   // milliseconds

  type Gpu = g: nat | g < NUM_GPUS

  datatype ProcState = Active | Inactive | Paging | Waiting

  /** One index of the parallel arrays of Scheduler_Data. */
  datatype Slot = Slot(
    pid: int,
    share: nat,
    state: ProcState,
    penalty: int,
    gpu: int,
    allotted: Duration,
    ran: Duration)

  const EMPTY := Slot(INVALID_PROCESS, 0, Inactive, 0, 0, TimeVal(0, 0), TimeVal(0, 0))

  /** What the control thread learns while a slice runs: which signal ended it, and the time it took. */
  datatype Outcome = EndOfInterval(elapsed: Duration) | PagingBegan(elapsed: Duration)

  /** Where a control thread is in its loop: looking for a slot, about to wake the process of the slot under
      its head, waiting for the end of that process's slice, or past it because the slot was no longer
      active when the lock was taken. */
  datatype Turn = Idle | Picked(pid: int) | Running(pid: int) | Missed

  datatype State = State(slots: seq<Slot>, count: nat, heads: seq<nat>, turns: seq<Turn>) {
    predicate Valid() {
      && |slots| == MAX_CONTROLLER_COUNT
      && count < MAX_CONTROLLER_COUNT
      && |heads| == |turns| == NUM_GPUS
      && forall g :: 0 <= g < NUM_GPUS ==> heads[g] < MAX_CONTROLLER_COUNT
    }
  }

  // ---------- fs_calculate_timeslice ----------

  predicate Schedulable(s: Slot, gpu: int) {
    s.gpu == gpu && s.state == Active
  }

  function Quotient(n: nat, d: nat): (k: nat)
    requires d != 0
    ensures k * d <= n < (k + 1) * d
  {
    n / d
  }

  /** Whole allotments' worth of time the last slice took: the epochs to sit out. */
  function Overrun(s: Slot): (k: nat)
    requires Millis(s.allotted) != 0
  {
    Quotient(Millis(s.ran), Millis(s.allotted))
  }

  /** The three updates a recompute makes to one slot before it counts shares. */
  function Charge(s: Slot, gpu: int): Slot {
    var charged :=
      if Schedulable(s, gpu) && s.penalty == -1 && Millis(s.allotted) != 0
      then s.(penalty := Overrun(s)) else s;
    var woken :=
      if charged.gpu == gpu && charged.state == Waiting && charged.penalty == -1
      then charged.(state := Active) else charged;
    if Schedulable(woken, gpu) && woken.penalty == 0 then woken.(penalty := -1) else woken
  }

  function ChargeAll(slots: seq<Slot>, gpu: int): (r: seq<Slot>)
    ensures |r| == |slots|
    ensures forall i :: 0 <= i < |slots| ==> r[i] == Charge(slots[i], gpu)
  {
    seq(|slots|, i requires 0 <= i < |slots| => Charge(slots[i], gpu))
  }

  function TotalShares(slots: seq<Slot>, gpu: int): nat {
    if slots == [] then 0
    else
      var last := slots[|slots| - 1];
      TotalShares(slots[..|slots| - 1], gpu) + if Schedulable(last, gpu) then last.share else 0
  }

  /** EPOCH_LENGTH / total_shares milliseconds, in whole microseconds. */
  function Allotment(total: nat): (t: Duration)
    requires total > 0
  {
    AllotmentIsSmall(total);
    TimeVal(0, EPOCH_LENGTH * 1000 / total)
  }

  lemma AllotmentIsSmall(total: nat)
    requires total > 0
    ensures 0 <= EPOCH_LENGTH * 1000 / total <= EPOCH_LENGTH * 1000
  {
  }

  function Allot(s: Slot, gpu: int, total: nat): Slot
    requires total > 0
  {
    if Schedulable(s, gpu) then s.(allotted := Allotment(total)) else s
  }

  function Recompute(slots: seq<Slot>, gpu: int): (r: seq<Slot>)
    ensures |r| == |slots|
  {
    var charged := ChargeAll(slots, gpu);
    var total := TotalShares(charged, gpu);
    if total == 0 then charged
    else seq(|slots|, i requires 0 <= i < |slots| => Allot(charged[i], gpu, total))
  }

  // ---------- fs_control_thread ----------

  predicate Dispatches(s: Slot, gpu: int) {
    Schedulable(s, gpu) && s.penalty <= 0
  }

  /** What the scan does to a slot it passes over: one epoch of a penalty is served. */
  function Skip(s: Slot, gpu: int): Slot {
    if Schedulable(s, gpu) && s.penalty > 0 then s.(penalty := s.penalty - 1) else s
  }

  /** What the end of a slice does to the slot: the time is recorded, also when no wake was sent. */
  function Finish(s: Slot, woken: bool, o: Outcome): Slot {
    s.(ran := o.elapsed, state := if woken && o.PagingBegan? then Paging else s.state)
  }

  /** What one undisturbed visit of the ring scan does to the slot under the head. */
  function Visit(s: Slot, gpu: int, o: Outcome): Slot {
    if Dispatches(s, gpu) then Finish(s, true, o) else Skip(s, gpu)
  }

  /** The head moves on over a slot left as `visited`; where it wraps round, the GPU's epoch ends. */
  function Advance(s: State, g: Gpu, visited: Slot): (r: State)
    requires s.Valid()
    ensures r.Valid() && r.count == s.count
  {
    var head := s.heads[g];
    var slots, next := s.slots[head := visited], (head + 1) % MAX_CONTROLLER_COUNT;
    State(if next < head then Recompute(slots, g) else slots, s.count, s.heads[g := next], s.turns[g := Idle])
  }

  /** The tests at the top of the loop, up to reading the pid. */
  function ScanStep(s: State, g: Gpu): (r: State)
    requires s.Valid()
    ensures r.Valid() && r.count == s.count
  {
    var slot := s.slots[s.heads[g]];
    if s.count == 0 || s.turns[g] != Idle then s
    else if Dispatches(slot, g) then s.(turns := s.turns[g := Picked(slot.pid)])
    else Advance(s, g, Skip(slot, g))
  }

  /** Under the lock the slot's state is tested again, and SIGSCHED sent to the pid read before. */
  function WakeStep(s: State, g: Gpu): (r: State)
    requires s.Valid()
    ensures r.Valid() && r.count == s.count
  {
    if !s.turns[g].Picked? then s
    else
      s.(turns := s.turns[g := if s.slots[s.heads[g]].state == Active then Running(s.turns[g].pid) else Missed])
  }

  /** The end of the slice: time and paging are recorded in the slot and the head moves on. */
  function EndStep(s: State, g: Gpu, o: Outcome): (r: State)
    requires s.Valid()
    ensures r.Valid() && r.count == s.count
  {
    if !s.turns[g].Running? && !s.turns[g].Missed? then s
    else Advance(s, g, Finish(s.slots[s.heads[g]], s.turns[g].Running?, o))
  }

  /** A whole trip round the loop with nothing in between. */
  function ControlStep(s: State, g: Gpu, o: Outcome): (r: State)
    requires s.Valid()
    ensures r.Valid() && r.count == s.count
  {
    EndStep(WakeStep(ScanStep(s, g), g), g, o)
  }

  /** Undisturbed, the three steps are one visit to the slot under the head. */
  lemma ControlStepVisits(s: State, g: Gpu, o: Outcome)
    requires s.Valid() && s.count != 0 && s.turns[g] == Idle
    ensures ControlStep(s, g, o) == Advance(s, g, Visit(s.slots[s.heads[g]], g, o))
  {
    var slot := s.slots[s.heads[g]];
    if Dispatches(slot, g) {
      var picked := ScanStep(s, g);
      var woken := WakeStep(picked, g);
      assert woken.turns[g := Idle] == s.turns[g := Idle];
    }
  }

  // ---------- the listener and the pager ----------

  function PidOf(s: Slot): int { s.pid }

  /** One of the assignments of fs_register_process to the slot at the count. */
  datatype Field = Pid(pid: int) | Share(share: nat) | Activate | Forgive | Bind(gpu: int)

  function Assign(s: Slot, f: Field): Slot {
    match f
    case Pid(pid) => s.(pid := pid)
    case Share(share) => s.(share := share)
    case Activate => s.(state := Active)
    case Forgive => s.(penalty := 0)
    case Bind(gpu) => s.(gpu := gpu)
  }

  const REGISTRATION_FIELDS := 5

  /** The assignments in the order in which they are made. */
  function FieldAt(k: nat, pid: int, gpu: int, share: nat): Field
    requires k < REGISTRATION_FIELDS
  {
    if k == 0 then Pid(pid) else if k == 1 then Share(share) else if k == 2 then Activate
    else if k == 3 then Forgive else Bind(gpu)
  }

  /** Every assignment looks the count up anew. */
  function AssignStep(s: State, f: Field): (r: State)
    requires s.Valid()
    ensures r.Valid()
  {
    s.(slots := s.slots[s.count := Assign(s.slots[s.count], f)])
  }

  function CountStep(s: State, count: nat): (r: State)
    requires s.Valid()
    ensures r.Valid()
  {
    s.(count := count % MAX_CONTROLLER_COUNT)
  }

  /** A registration with no other in between. */
  function Register(s: State, pid: int, gpu: int, share: nat): (r: State)
    requires s.Valid()
    ensures r.Valid()
  {
    var previous := s.slots[s.count];
    s.(slots := s.slots[s.count := Slot(pid, share, Active, 0, gpu, previous.allotted, previous.ran)],
       count := (s.count + 1) % MAX_CONTROLLER_COUNT)
  }

  /** The first k assignments. */
  function Assigned(s: State, k: nat, pid: int, gpu: int, share: nat): (r: State)
    requires s.Valid() && k <= REGISTRATION_FIELDS
    ensures r.Valid() && r.count == s.count
  {
    if k == 0 then s else AssignStep(Assigned(s, k - 1, pid, gpu, share), FieldAt(k - 1, pid, gpu, share))
  }

  lemma {:induction false} AssignedOnlyAtCount(s: State, k: nat, pid: int, gpu: int, share: nat)
    requires s.Valid() && k <= REGISTRATION_FIELDS
    ensures var r := Assigned(s, k, pid, gpu, share);
            && r == s.(slots := s.slots[s.count := r.slots[s.count]])
            && r.slots[s.count].allotted == s.slots[s.count].allotted
            && r.slots[s.count].ran == s.slots[s.count].ran
            && (k > 0 ==> r.slots[s.count].pid == pid)
            && (k > 1 ==> r.slots[s.count].share == share)
            && (k > 2 ==> r.slots[s.count].state == Active)
            && (k > 3 ==> r.slots[s.count].penalty == 0)
            && (k > 4 ==> r.slots[s.count].gpu == gpu)
  {
    if k > 0 {
      AssignedOnlyAtCount(s, k - 1, pid, gpu, share);
    } else {
      assert s.slots[s.count := s.slots[s.count]] == s.slots;
    }
  }

  /** The assignments and the increment make up a registration. */
  lemma RegisterIsAssignments(s: State, pid: int, gpu: int, share: nat)
    requires s.Valid()
    ensures CountStep(Assigned(s, REGISTRATION_FIELDS, pid, gpu, share), s.count + 1) == Register(s, pid, gpu, share)
  {
    AssignedOnlyAtCount(s, REGISTRATION_FIELDS, pid, gpu, share);
  }

  /** ADD_Q with no other listener in between: a process already in the table, or one whose handler failed
      to install, is not registered. */
  function AddStep(s: State, pid: int, gpu: int, share: nat, err: int): (r: State)
    requires s.Valid()
    ensures r.Valid()
  {
    if Known(s.slots, PidOf, pid) || err != 0 then s else Register(s, pid, gpu, share)
  }

  /** The first index from `from` on that satisfies `p`, or the length. */
  function FirstIndex(slots: seq<Slot>, p: Slot -> bool, from: nat): (i: nat)
    requires from <= |slots|
    ensures from <= i <= |slots|
    ensures i < |slots| ==> p(slots[i])
    ensures forall j :: from <= j < i ==> !p(slots[j])
    decreases |slots| - from
  {
    if from == |slots| || p(slots[from]) then from else FirstIndex(slots, p, from + 1)
  }

  function Bound(pid: int, gpu: int): Slot -> bool {
    (s: Slot) => s.pid == pid && s.gpu == gpu
  }

  function ActiveAs(pid: int): Slot -> bool {
    (s: Slot) => s.state == Active && s.pid == pid
  }

  function RemoveStep(s: State, pid: int, gpu: int): (r: State)
    requires s.Valid()
    ensures r.Valid()
  {
    var i := FirstIndex(s.slots, Bound(pid, gpu), 0);
    if i == |s.slots| then s
    else s.(slots := s.slots[i := s.slots[i].(pid := INVALID_PROCESS, state := Inactive)])
  }

  /** The slot the pager marks: the victim's active slot, or slot 0 when it has none. */
  function VictimIndex(slots: seq<Slot>, pid: int): (i: nat)
    requires |slots| == MAX_CONTROLLER_COUNT
    ensures i < |slots|
  {
    var i := FirstIndex(slots, ActiveAs(pid), 0);
    if i == |slots| then 0 else i
  }

  function SetState(s: State, i: nat, state: ProcState): (r: State)
    requires s.Valid() && i < MAX_CONTROLLER_COUNT
    ensures r.Valid()
  {
    s.(slots := s.slots[i := s.slots[i].(state := state)])
  }

  // ---------- the slots the scan dispatches in one pass ----------

  function Eligible(slots: seq<Slot>, gpu: int): (r: seq<nat>)
    ensures forall k :: 0 <= k < |r| ==> r[k] < |slots| && Dispatches(slots[r[k]], gpu)
    ensures forall i :: 0 <= i < |slots| && Dispatches(slots[i], gpu) ==> i in r
    ensures forall j, k :: 0 <= j < k < |r| ==> r[j] < r[k]
  {
    if slots == [] then []
    else
      var n := |slots| - 1;
      var front := Eligible(slots[..n], gpu);
      if Dispatches(slots[n], gpu) then front + [n] else front
  }

  function EmptyTable(): (s: State)
    ensures s.Valid()
  {
    State(seq(MAX_CONTROLLER_COUNT, _ => EMPTY), 0, seq(NUM_GPUS, _ => 0), seq(NUM_GPUS, _ => Idle))
  }

  /** `turns` holds where each control thread is, with the pid it has read. */
  class Scheduler {
    const slots: array<Slot>
    const heads: array<nat>
    const turns: array<Turn>
    var count: nat

    ghost predicate Valid()
      reads this, slots, heads, turns
    {
      && slots.Length == MAX_CONTROLLER_COUNT && heads.Length == turns.Length == NUM_GPUS
      && Abs().Valid()
    }

    ghost function Abs(): State
      reads this, slots, heads, turns
    {
      State(slots[..], count, heads[..], turns[..])
    }

    constructor ()
      ensures Valid() && fresh(slots) && fresh(heads) && fresh(turns)
      ensures Abs() == EmptyTable()
    {
      slots := new Slot[MAX_CONTROLLER_COUNT](_ => EMPTY);
      heads := new nat[NUM_GPUS](_ => 0);
      turns := new Turn[NUM_GPUS](_ => Idle);
      count := 0;
      new;
      assert slots[..] == EmptyTable().slots;
      assert heads[..] == EmptyTable().heads;
      assert turns[..] == EmptyTable().turns;
    }

    /** The body of the first loop of fs_calculate_timeslice. */
    method ChargeSlot(i: nat, gpu: int)
      requires i < slots.Length
      modifies slots
      ensures slots[i] == Charge(old(slots[i]), gpu)
      ensures var s, k := old(slots[i]), if slots[i].penalty == -1 then 0 else slots[i].penalty;
              var allotted, ran := (Micros(s.allotted) + 500) / 1000, (Micros(s.ran) + 500) / 1000;
              s.gpu == gpu && s.state == Active && s.penalty == -1 && allotted > 0 ==>
                0 <= k && k * allotted <= ran < (k + 1) * allotted
      ensures forall k :: 0 <= k < slots.Length && k != i ==> slots[k] == old(slots[k])
    {
      MillisRounds(slots[i].allotted);
      MillisRounds(slots[i].ran);
      if slots[i].gpu == gpu && slots[i].state == Active && slots[i].penalty == -1 {
        if Millis(slots[i].allotted) != 0 {
          slots[i] := slots[i].(penalty := Overrun(slots[i]));
        }
      }
      if slots[i].gpu == gpu && slots[i].state == Waiting && slots[i].penalty == -1 {
        slots[i] := slots[i].(state := Active);
      }
      if slots[i].gpu == gpu && slots[i].state == Active && slots[i].penalty == 0 {
        slots[i] := slots[i].(penalty := -1);
      }
    }

    /** The first loop of fs_calculate_timeslice. */
    method ChargeSlots(gpu: int) returns (activeCount: nat, totalShares: nat)
      requires Valid()
      modifies slots
      ensures slots[..] == ChargeAll(old(slots[..]), gpu)
      ensures totalShares == TotalShares(slots[..], gpu) && (activeCount == 0 ==> totalShares == 0)
    {
      ghost var before, charged := slots[..], ChargeAll(slots[..], gpu);
      activeCount, totalShares := 0, 0;
      for i := 0 to MAX_CONTROLLER_COUNT
        invariant forall k :: 0 <= k < i ==> slots[k] == charged[k]
        invariant forall k :: i <= k < MAX_CONTROLLER_COUNT ==> slots[k] == before[k]
        invariant totalShares == TotalShares(charged[..i], gpu) && (activeCount == 0 ==> totalShares == 0)
      {
        ChargeSlot(i, gpu);
        assert charged[..i + 1][..i] == charged[..i];
        if slots[i].gpu == gpu && slots[i].state == Active {
          activeCount := activeCount + 1;
          totalShares := totalShares + slots[i].share;
        }
      }
      assert charged[..MAX_CONTROLLER_COUNT] == charged;
      assert slots[..] == charged;
    }

    method CalculateTimeslice(gpu: int)
      requires Valid()
      modifies slots
      ensures Valid() && Abs() == old(Abs()).(slots := Recompute(old(slots[..]), gpu))
    {
      ghost var before := slots[..];
      var activeCount, totalShares := ChargeSlots(gpu);
      if activeCount == 0 || totalShares == 0 {
        return;
      }
      AllotSlots(gpu, totalShares);
      assert slots[..] == Recompute(before, gpu);
    }

    /** The second loop of fs_calculate_timeslice. */
    method AllotSlots(gpu: int, totalShares: nat)
      requires Valid() && totalShares > 0
      modifies slots
      ensures forall k :: 0 <= k < slots.Length ==> slots[k] == Allot(old(slots[k]), gpu, totalShares)
    {
      for i := 0 to MAX_CONTROLLER_COUNT
        invariant forall k :: 0 <= k < i ==> slots[k] == Allot(old(slots[k]), gpu, totalShares)
        invariant forall k :: i <= k < MAX_CONTROLLER_COUNT ==> slots[k] == old(slots[k])
      {
        if slots[i].gpu == gpu && slots[i].state == Active {
          slots[i] := slots[i].(allotted := Allotment(totalShares));
        }
      }
    }

    /** The head moves on, and an epoch may end. */
    method MoveOn(g: Gpu, ghost s: State, ghost visited: Slot)
      requires Valid() && s.Valid() && count == s.count && heads[..] == s.heads && turns[..] == s.turns
      requires slots[..] == s.slots[s.heads[g] := visited]
      modifies slots, heads, turns
      ensures Valid() && Abs() == Advance(s, g, visited)
    {
      var prev, thid := heads[g], (heads[g] + 1) % MAX_CONTROLLER_COUNT;
      heads[g], turns[g] := thid, Idle;
      assert heads[..] == s.heads[g := thid] && turns[..] == s.turns[g := Idle];
      if thid < prev {
        CalculateTimeslice(g);
      }
    }

    /** The tests at the top of the control thread's loop. */
    method ScanSlot(g: Gpu)
      requires Valid()
      modifies slots, heads, turns
      ensures Valid() && Abs() == ScanStep(old(Abs()), g)
    {
      if count == 0 || turns[g] != Idle {
        return;
      }
      ghost var s := Abs();
      var thid := heads[g];
      if slots[thid].state != Active || slots[thid].gpu != g {
        assert slots[..] == s.slots[thid := s.slots[thid]];
        MoveOn(g, s, s.slots[thid]);
        return;
      }
      if slots[thid].penalty > 0 {
        slots[thid] := slots[thid].(penalty := slots[thid].penalty - 1);
        MoveOn(g, s, Skip(s.slots[thid], g));
        return;
      }
      turns[g] := Picked(slots[thid].pid);
    }

    /** Under the lock: the second test of the state, and the wake. */
    method WakeProcess(g: Gpu)
      requires Valid()
      modifies turns
      ensures Valid() && Abs() == WakeStep(old(Abs()), g)
    {
      if turns[g].Picked? {
        if slots[heads[g]].state == Active {
          turns[g] := Running(turns[g].pid);
        } else {
          turns[g] := Missed;
        }
      }
    }

    /** The signal that ends the slice has come; `o` is what sigwaitinfo and the clock report. */
    method EndSlice(g: Gpu, o: Outcome)
      requires Valid()
      modifies slots, heads, turns
      ensures Valid() && Abs() == EndStep(old(Abs()), g, o)
    {
      if turns[g].Idle? || turns[g].Picked? {
        return;
      }
      ghost var s := Abs();
      var thid := heads[g];
      if turns[g].Running? && o.PagingBegan? {
        slots[thid] := slots[thid].(state := Paging);
      }
      slots[thid] := slots[thid].(ran := o.elapsed);
      assert slots[..] == s.slots[thid := Finish(s.slots[thid], s.turns[g].Running?, o)];
      MoveOn(g, s, Finish(s.slots[thid], s.turns[g].Running?, o));
    }

    /** One trip round the control thread's endless loop, with nothing in between. */
    method ControlIteration(g: Gpu, o: Outcome) returns (dispatched: bool)
      requires Valid() && turns[g] == Idle
      modifies slots, heads, turns
      ensures Valid() && Abs() == ControlStep(old(Abs()), g, o) && turns[..] == old(turns[..])
      ensures dispatched <==> old(count) != 0 && Dispatches(old(slots[..])[old(heads[..])[g]], g)
    {
      ghost var s := Abs();
      ScanSlot(g);
      dispatched := turns[g].Picked?;
      WakeProcess(g);
      EndSlice(g, o);
      if s.count != 0 {
        ControlStepVisits(s, g, o);
      }
      assert s.turns[g := Idle] == s.turns;
    }

    /** What one pass makes of the slots before its recompute. */
    ghost function Visited(before: seq<Slot>, g: Gpu, outcomes: seq<Outcome>): (r: seq<Slot>)
      requires |before| == |outcomes|
      ensures |r| == |before| && forall i :: 0 <= i < |r| ==> r[i] == Visit(before[i], g, outcomes[i])
    {
      seq(|before|, i requires 0 <= i < |before| => Visit(before[i], g, outcomes[i]))
    }

    /** All slots of a pass but the last. */
    method ScanAllButLast(g: Gpu, outcomes: seq<Outcome>) returns (log: seq<nat>)
      requires Valid() && count != 0 && heads[g] == 0 && turns[g] == Idle && |outcomes| == MAX_CONTROLLER_COUNT
      modifies slots, heads, turns
      ensures Valid() && heads[..] == old(heads[..])[g := MAX_CONTROLLER_COUNT - 1] && turns[..] == old(turns[..])
      ensures var before, last := old(slots[..]), MAX_CONTROLLER_COUNT - 1;
              && slots[..last] == Visited(before, g, outcomes)[..last] && slots[last] == before[last]
              && log == Eligible(before[..last], g)
    {
      log := [];
      ghost var before, final := slots[..], Visited(slots[..], g, outcomes);
      for i := 0 to MAX_CONTROLLER_COUNT - 1
        invariant Valid() && heads[..] == old(heads[..])[g := i] && turns[..] == old(turns[..])
        invariant slots[..i] == final[..i] && slots[i..] == before[i..]
        invariant log == Eligible(before[..i], g)
      {
        var dispatched := ScanNext(g, outcomes, i, before, final);
        assert before[..i + 1][..i] == before[..i];
        log := if dispatched then log + [i] else log;
      }
    }

    /** One slot of a pass that is not the last. */
    method ScanNext(g: Gpu, outcomes: seq<Outcome>, i: nat, ghost before: seq<Slot>, ghost final: seq<Slot>)
      returns (dispatched: bool)
      requires Valid() && count != 0 && heads[g] == i < MAX_CONTROLLER_COUNT - 1 && turns[g] == Idle
      requires |before| == |outcomes| == MAX_CONTROLLER_COUNT && final == Visited(before, g, outcomes)
      requires slots[..i] == final[..i] && slots[i..] == before[i..]
      modifies slots, heads, turns
      ensures Valid() && heads[..] == old(heads[..])[g := i + 1] && turns[..] == old(turns[..])
      ensures slots[..i + 1] == final[..i + 1] && slots[i + 1..] == before[i + 1..]
      ensures dispatched <==> Dispatches(before[i], g)
    {
      ghost var s := Abs();
      assert s.slots[i] == before[i];
      ControlStepVisits(s, g, outcomes[i]);
      dispatched := ControlIteration(g, outcomes[i]);
      assert slots[..] == s.slots[i := final[i]];
    }

    /** One whole pass of the ring scan, undisturbed: the slots dispatched are exactly the eligible
        ones, each once and in slot order, and one recompute closes the pass. */
    method RunPass(g: Gpu, outcomes: seq<Outcome>) returns (log: seq<nat>)
      requires Valid() && count != 0 && heads[g] == 0 && turns[g] == Idle && |outcomes| == MAX_CONTROLLER_COUNT
      modifies slots, heads, turns
      ensures Valid() && log == Eligible(old(slots[..]), g)
      ensures Abs() == old(Abs()).(slots := Recompute(Visited(old(slots[..]), g, outcomes), g))
    {
      ghost var before := slots[..];
      log := ScanAllButLast(g, outcomes);
      var last := MAX_CONTROLLER_COUNT - 1;
      var dispatched := ScanLast(g, outcomes, before);
      assert before[..last + 1] == before && before[..last + 1][..last] == before[..last];
      log := if dispatched then log + [last] else log;
      assert heads[..] == old(heads[..]);
    }

    /** The last slot of a pass. */
    method ScanLast(g: Gpu, outcomes: seq<Outcome>, ghost before: seq<Slot>) returns (dispatched: bool)
      requires Valid() && count != 0 && heads[g] == MAX_CONTROLLER_COUNT - 1 && turns[g] == Idle
      requires |before| == |outcomes| == MAX_CONTROLLER_COUNT
      requires var last := MAX_CONTROLLER_COUNT - 1;
               slots[..last] == Visited(before, g, outcomes)[..last] && slots[last] == before[last]
      modifies slots, heads, turns
      ensures Valid() && heads[..] == old(heads[..])[g := 0] && turns[..] == old(turns[..])
      ensures slots[..] == Recompute(Visited(before, g, outcomes), g)
      ensures dispatched <==> Dispatches(before[MAX_CONTROLLER_COUNT - 1], g)
    {
      var last := MAX_CONTROLLER_COUNT - 1;
      ghost var s, final := Abs(), Visited(before, g, outcomes);
      assert s.slots[last := final[last]] == final;
      ControlStepVisits(s, g, outcomes[last]);
      dispatched := ControlIteration(g, outcomes[last]);
    }

    method AlreadyAdded(pid: int) returns (found: bool)
      requires Valid()
      ensures found <==> Known(slots[..], PidOf, pid)
    {
      for i := 0 to MAX_CONTROLLER_COUNT
        invariant forall k :: 0 <= k < i ==> slots[k].pid != pid
      {
        if slots[i].pid == pid {
          assert PidOf(slots[..][i]) == pid;
          return true;
        }
      }
      return false;
    }

    /** fs_register_process: every line looks the count up anew. */
    method RegisterProcess(pid: int, gpu: int, share: nat)
      requires Valid()
      modifies this`count, slots
      ensures Valid() && Abs() == Register(old(Abs()), pid, gpu, share)
    {
      slots[count] := slots[count].(pid := pid);
      slots[count] := slots[count].(share := share);
      slots[count] := slots[count].(state := Active);
      slots[count] := slots[count].(penalty := 0);
      slots[count] := slots[count].(gpu := gpu);
      count := (count + 1) % MAX_CONTROLLER_COUNT;
    }

    /** The listener's ADD_Q branch; `err` is what the client reports after installing its handlers. */
    method HandleAdd(pid: int, gpu: int, share: nat, err: int)
      requires Valid()
      modifies this`count, slots
      ensures Valid() && Abs() == AddStep(old(Abs()), pid, gpu, share, err)
    {
      var known := AlreadyAdded(pid);
      if !known && err == 0 {
        RegisterProcess(pid, gpu, share);
      }
    }

    /** The listener's REM_Q branch. */
    method HandleRemove(pid: int, gpu: int)
      requires Valid()
      modifies slots
      ensures Valid() && Abs() == RemoveStep(old(Abs()), pid, gpu)
    {
      for i := 0 to MAX_CONTROLLER_COUNT
        invariant forall k :: 0 <= k < i ==> !Bound(pid, gpu)(slots[k])
        invariant slots[..] == old(slots[..])
      {
        if pid == slots[i].pid && gpu == slots[i].gpu {
          slots[i] := slots[i].(pid := INVALID_PROCESS, state := Inactive);
          return;
        }
      }
    }

    /** The pager finds its victim's slot and marks it non-schedulable. */
    method MarkPaging(pid: int) returns (index: nat)
      requires Valid()
      modifies slots
      ensures Valid() && index == VictimIndex(old(slots[..]), pid)
      ensures Abs() == SetState(old(Abs()), index, Paging)
    {
      index := 0;
      for i := 0 to MAX_CONTROLLER_COUNT
        invariant index == 0 && slots[..] == old(slots[..])
        invariant forall k :: 0 <= k < i ==> !ActiveAs(pid)(slots[k])
      {
        if slots[i].state == Active && slots[i].pid == pid {
          index := i;
          break;
        }
      }
      slots[index] := slots[index].(state := Paging);
    }

    /** The pager makes a paged-out victim schedulable again. */
    method MarkActive(index: nat)
      requires Valid() && index < MAX_CONTROLLER_COUNT
      modifies slots
      ensures Valid() && Abs() == SetState(old(Abs()), index, Active)
    {
      slots[index] := slots[index].(state := Active);
    }
  }
}
