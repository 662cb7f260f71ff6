/** The least-attained-service scheduler: registration and accounting by the listener, and the epoch of
    the control thread that gives high priority to the least-served processes of its GPU. */
module LasScheduler {
  import opened TimeVals
  import opened SchedCommons

  const PRIORITY_NORMAL := 19
  const PRIORITY_HIGH := -20

  type NormalTime = t: TimeVal | Normal(t) witness TimeVal(0, 0)

  /** One index of the parallel arrays of Scheduler_Data. */
  datatype Slot = Slot(pid: int, gpu: int, valid: bool, priority: int, service: NormalTime)

  const EMPTY := Slot(INVALID_PROCESS, 0, false, 0, TimeVal(0, 0))

  datatype State = State(slots: seq<Slot>, count: nat) {
    predicate Valid() {
      |slots| == MAX_CONTROLLER_COUNT && count < MAX_CONTROLLER_COUNT
    }
  }

  predicate Live(s: Slot, gpu: int) {
    s.gpu == gpu && s.valid
  }

  // ---------- one epoch of the control thread ----------

  /** `m` is the least of `seed` and the service of the live slots among `slots`. */
  predicate IsLeast(m: TimeVal, seed: TimeVal, slots: seq<Slot>, gpu: int) {
    && (m == seed || exists i :: 0 <= i < |slots| && Live(slots[i], gpu) && slots[i].service == m)
    && Micros(m) <= Micros(seed)
    && forall i :: 0 <= i < |slots| && Live(slots[i], gpu) ==> Micros(m) <= Micros(slots[i].service)
  }

  predicate Lowers(s: Slot, m: TimeVal, gpu: int) {
    Live(s, gpu) && TimerLess(s.service, m)
  }

  lemma LowerService(s: Slot, m: NormalTime, gpu: int, r: NormalTime)
    requires r == if Lowers(s, m, gpu) then s.service else m
    ensures Micros(r) <= Micros(m) && (Live(s, gpu) ==> Micros(r) <= Micros(s.service))
  {
    MacrosAreMicros(s.service, m);
  }

  lemma LeastExtends(slots: seq<Slot>, seed: NormalTime, gpu: int, m: NormalTime, r: NormalTime)
    requires slots != [] && IsLeast(m, seed, slots[..|slots| - 1], gpu)
    requires r == if Lowers(slots[|slots| - 1], m, gpu) then slots[|slots| - 1].service else m
    ensures IsLeast(r, seed, slots, gpu)
  {
    var n := |slots| - 1;
    LowerService(slots[n], m, gpu, r);
    forall i | 0 <= i < |slots| && Live(slots[i], gpu) ensures Micros(r) <= Micros(slots[i].service) {
      if i < n {
        assert slots[..n][i] == slots[i];
      }
    }
    if r == m && m != seed {
      var i :| 0 <= i < n && Live(slots[..n][i], gpu) && slots[..n][i].service == m;
      assert slots[i] == slots[..n][i];
    }
  }

  /** The smaller of slot 0's service, live or not, and the least live service on the GPU. */
  function Threshold(slots: seq<Slot>, seed: NormalTime, gpu: int): (m: NormalTime)
    ensures IsLeast(m, seed, slots, gpu)
  {
    if slots == [] then seed
    else
      var last := slots[|slots| - 1];
      var m := Threshold(slots[..|slots| - 1], seed, gpu);
      var r := if Lowers(last, m, gpu) then last.service else m;
      LeastExtends(slots, seed, gpu, m, r);
      r
  }

  function Prioritise(s: Slot, gpu: int, m: TimeVal): Slot {
    if Live(s, gpu) then s.(priority := if TimerDiffers(s.service, m) then PRIORITY_NORMAL else PRIORITY_HIGH)
    else s
  }

  function Epoch(s: State, gpu: int): (r: State)
    requires s.Valid()
    ensures r.Valid() && r.count == s.count
  {
    if s.count == 0 then s
    else
      var m := Threshold(s.slots, s.slots[0].service, gpu);
      s.(slots := seq(MAX_CONTROLLER_COUNT, i requires 0 <= i < MAX_CONTROLLER_COUNT => Prioritise(s.slots[i], gpu, m)))
  }

  // ---------- the listener ----------

  function PidOf(s: Slot): int { s.pid }

  /** The first index from `from` on that holds `pid` on `gpu`, or the length. */
  function Find(slots: seq<Slot>, pid: int, gpu: int, from: nat): (i: nat)
    requires from <= |slots|
    ensures from <= i <= |slots|
    ensures i < |slots| ==> slots[i].pid == pid && slots[i].gpu == gpu
    ensures forall j :: from <= j < i ==> !(slots[j].pid == pid && slots[j].gpu == gpu)
    decreases |slots| - from
  {
    if from == |slots| || (slots[from].pid == pid && slots[from].gpu == gpu) then from
    else Find(slots, pid, gpu, from + 1)
  }

  /** ADD_Q. The slot keeps the service its last occupant attained. */
  function Add(s: State, pid: int, gpu: int): (r: State)
    requires s.Valid()
    ensures r.Valid()
  {
    if Known(s.slots, PidOf, pid) then s
    else State(s.slots[s.count := Slot(pid, gpu, true, 0, s.slots[s.count].service)],
               (s.count + 1) % MAX_CONTROLLER_COUNT)
  }

  function Remove(s: State, pid: int, gpu: int): (r: State)
    requires s.Valid()
    ensures r.Valid()
  {
    var i := Find(s.slots, pid, gpu, 0);
    if i == |s.slots| then s
    else s.(slots := s.slots[i := s.slots[i].(pid := INVALID_PROCESS, valid := false)])
  }

  function Served(old_service: NormalTime, t: NormalTime): (r: NormalTime)
    ensures Micros(r) == Micros(old_service) + Micros(t)
  {
    MacrosAreMicros(old_service, t);
    TimerAdd(old_service, t)
  }

  /** NOTIFY_SCHED */
  function Notify(s: State, pid: int, gpu: int, t: NormalTime): (r: State)
    requires s.Valid()
    ensures r.Valid()
  {
    var i := Find(s.slots, pid, gpu, 0);
    if i == |s.slots| then s
    else s.(slots := s.slots[i := s.slots[i].(service := Served(s.slots[i].service, t))])
  }

  class Scheduler {
    const slots: array<Slot>
    var count: nat

    ghost predicate Valid()
      reads this, slots
    {
      slots.Length == MAX_CONTROLLER_COUNT && count < MAX_CONTROLLER_COUNT
    }

    ghost function Abs(): State
      reads this, slots
    {
      State(slots[..], count)
    }

    constructor ()
      ensures Valid() && fresh(slots) && Abs() == State(seq(MAX_CONTROLLER_COUNT, _ => EMPTY), 0)
    {
      slots := new Slot[MAX_CONTROLLER_COUNT](_ => EMPTY);
      count := 0;
      new;
      assert slots[..] == seq(MAX_CONTROLLER_COUNT, _ => EMPTY);
    }

    /** One trip round the loop of las_control_thread. */
    method RunEpoch(gpu: int)
      requires Valid()
      modifies slots
      ensures Valid() && Abs() == Epoch(old(Abs()), gpu)
    {
      if count == 0 {
        return;
      }
      var minval := slots[0].service;
      for i := 0 to MAX_CONTROLLER_COUNT
        invariant slots[..] == old(slots[..])
        invariant minval == Threshold(slots[..][..i], slots[0].service, gpu)
      {
        assert slots[..][..i + 1][..i] == slots[..][..i];
        if slots[i].gpu == gpu && slots[i].valid {
          if TimerLess(slots[i].service, minval) {
            minval := slots[i].service;
          }
        }
      }
      assert slots[..][..MAX_CONTROLLER_COUNT] == slots[..];
      for i := 0 to MAX_CONTROLLER_COUNT
        invariant forall k :: 0 <= k < i ==> slots[k] == Prioritise(old(slots[k]), gpu, minval)
        invariant forall k :: i <= k < MAX_CONTROLLER_COUNT ==> slots[k] == old(slots[k])
      {
        if slots[i].gpu == gpu && slots[i].valid {
          if TimerDiffers(slots[i].service, minval) {
            slots[i] := slots[i].(priority := PRIORITY_NORMAL);
          } else {
            slots[i] := slots[i].(priority := PRIORITY_HIGH);
          }
        }
      }
      assert slots[..] == Epoch(old(Abs()), gpu).slots;
    }

    method AlreadyAdded(pid: int) returns (found: bool)
      requires Valid()
      ensures found <==> Known(slots[..], PidOf, pid)
    {
      for i := 0 to MAX_CONTROLLER_COUNT
        invariant forall k :: 0 <= k < i ==> slots[k].pid != pid
      {
        if slots[i].pid == pid {
          assert PidOf(slots[..][i]) == pid;
          return true;
        }
      }
      return false;
    }

    method HandleAdd(pid: int, gpu: int)
      requires Valid()
      modifies this`count, slots
      ensures Valid() && Abs() == Add(old(Abs()), pid, gpu)
    {
      var known := AlreadyAdded(pid);
      if !known {
        slots[count] := slots[count].(pid := pid, gpu := gpu, valid := true, priority := 0);
        count := (count + 1) % MAX_CONTROLLER_COUNT;
      }
    }

    method HandleRemove(pid: int, gpu: int)
      requires Valid()
      modifies slots
      ensures Valid() && Abs() == Remove(old(Abs()), pid, gpu)
    {
      for i := 0 to MAX_CONTROLLER_COUNT
        invariant forall k :: 0 <= k < i ==> !(slots[k].pid == pid && slots[k].gpu == gpu)
        invariant slots[..] == old(slots[..])
      {
        if pid == slots[i].pid && gpu == slots[i].gpu {
          slots[i] := slots[i].(pid := INVALID_PROCESS, valid := false);
          return;
        }
      }
    }

    method HandleNotify(pid: int, gpu: int, t: NormalTime)
      requires Valid()
      modifies slots
      ensures Valid() && Abs() == Notify(old(Abs()), pid, gpu, t)
    {
      for i := 0 to MAX_CONTROLLER_COUNT
        invariant forall k :: 0 <= k < i ==> !(slots[k].pid == pid && slots[k].gpu == gpu)
        invariant slots[..] == old(slots[..])
      {
        if slots[i].pid == pid && slots[i].gpu == gpu {
          slots[i] := slots[i].(service := Served(slots[i].service, t));
          return;
        }
      }
    }
  }

  // ---------- what each operation does to the table ----------

  /** An epoch gives each live slot of its GPU priority -20 or 19, and changes nothing else. */
  lemma EpochMeans(s: State, gpu: int, i: nat)
    requires s.Valid() && i < MAX_CONTROLLER_COUNT
    ensures var r, before := Epoch(s, gpu).slots[i], s.slots[i];
            && r == before.(priority := r.priority)
            && (s.count == 0 || before.gpu != gpu || !before.valid ==> r == before)
            && (s.count != 0 && before.gpu == gpu && before.valid ==> r.priority == 19 || r.priority == -20)
            && (s.count != 0 && before.gpu == gpu && before.valid ==> (r.priority == -20 <==> High(r, gpu)))
  {
  }

  /** Adding a pid that no slot has fills the slot at the count and moves the count on; the service stays. */
  lemma AddMeans(s: State, pid: int, gpu: int)
    requires s.Valid()
    ensures var r, n := Add(s, pid, gpu), s.count;
            && ((exists i :: 0 <= i < |s.slots| && s.slots[i].pid == pid) ==> r == s)
            && ((forall i :: 0 <= i < |s.slots| ==> s.slots[i].pid != pid) ==>
                  && r.count == (if n == 499 then 0 else n + 1)
                  && (forall i :: 0 <= i < 500 && i != n ==> r.slots[i] == s.slots[i])
                  && r.slots[n].pid == pid && r.slots[n].gpu == gpu && r.slots[n].valid
                  && r.slots[n].priority == 0 && r.slots[n].service == s.slots[n].service)
  {
    if exists i :: 0 <= i < |s.slots| && s.slots[i].pid == pid {
      var i :| 0 <= i < |s.slots| && s.slots[i].pid == pid;
      assert PidOf(s.slots[i]) == pid;
    }
  }

  /** Slot i is the first with that pid on that GPU. */
  predicate IsFirst(slots: seq<Slot>, pid: int, gpu: int, i: nat)
    requires i < |slots|
  {
    && slots[i].pid == pid && slots[i].gpu == gpu
    && forall j :: 0 <= j < i ==> !(slots[j].pid == pid && slots[j].gpu == gpu)
  }

  lemma FindMeans(slots: seq<Slot>, pid: int, gpu: int)
    ensures forall i :: 0 <= i < |slots| && IsFirst(slots, pid, gpu, i) ==> Find(slots, pid, gpu, 0) == i
    ensures (forall i :: 0 <= i < |slots| ==> !(slots[i].pid == pid && slots[i].gpu == gpu)) ==>
              Find(slots, pid, gpu, 0) == |slots|
  {
  }

  /** Removing empties the first slot with the pid on the GPU, if there is one, and touches nothing else. */
  lemma RemoveMeans(s: State, pid: int, gpu: int)
    requires s.Valid()
    ensures (forall i :: 0 <= i < |s.slots| ==> !(s.slots[i].pid == pid && s.slots[i].gpu == gpu)) ==>
              Remove(s, pid, gpu) == s
    ensures forall i :: 0 <= i < |s.slots| && IsFirst(s.slots, pid, gpu, i) ==>
              Remove(s, pid, gpu) == s.(slots := s.slots[i := s.slots[i].(pid := 0, valid := false)])
  {
    FindMeans(s.slots, pid, gpu);
  }

  /** A report adds its microseconds to the service of that slot, and touches nothing else. */
  lemma NotifyMeans(s: State, pid: int, gpu: int, t: NormalTime)
    requires s.Valid()
    ensures (forall i :: 0 <= i < |s.slots| ==> !(s.slots[i].pid == pid && s.slots[i].gpu == gpu)) ==>
              Notify(s, pid, gpu, t) == s
    ensures forall i :: 0 <= i < |s.slots| && IsFirst(s.slots, pid, gpu, i) ==>
              var r := Notify(s, pid, gpu, t);
              && r == s.(slots := s.slots[i := s.slots[i].(service := r.slots[i].service)])
              && Micros(r.slots[i].service) == Micros(s.slots[i].service) + Micros(t)
  {
    FindMeans(s.slots, pid, gpu);
  }

  // ---------- who gets high priority ----------

  predicate High(s: Slot, gpu: int) {
    Live(s, gpu) && s.priority == PRIORITY_HIGH
  }

  function Service(s: Slot): int {
    Micros(s.service)
  }

  predicate LeastServed(slots: seq<Slot>, gpu: int, i: nat)
    requires i < |slots|
  {
    Live(slots[i], gpu) && forall j :: 0 <= j < |slots| && Live(slots[j], gpu) ==> Service(slots[i]) <= Service(slots[j])
  }

  /** After an epoch a live slot has high priority iff it is least served and no more served than slot 0,
      which counts even when it is dead or on another GPU. */
  lemma HighIffLeastServed(s: State, gpu: int, i: nat)
    requires s.Valid() && s.count != 0 && i < MAX_CONTROLLER_COUNT && Live(s.slots[i], gpu)
    ensures var r := Epoch(s, gpu).slots;
            High(r[i], gpu) <==> LeastServed(r, gpu, i) && Service(r[i]) <= Service(r[0])
  {
    var m, r := Threshold(s.slots, s.slots[0].service, gpu), Epoch(s, gpu).slots;
    MacrosAreMicros(s.slots[i].service, m);
    forall j | 0 <= j < MAX_CONTROLLER_COUNT
      ensures Live(r[j], gpu) == Live(s.slots[j], gpu) && Service(r[j]) == Service(s.slots[j])
    {
    }
  }

  /** Nobody on the GPU gets high priority exactly when slot 0 is served less than every live slot. */
  lemma NobodyHighIff(s: State, gpu: int)
    requires s.Valid() && s.count != 0
    ensures var r := Epoch(s, gpu).slots;
            (forall i :: 0 <= i < |r| ==> !High(r[i], gpu)) <==>
            (forall i :: 0 <= i < |s.slots| && Live(s.slots[i], gpu) ==> Service(s.slots[0]) < Service(s.slots[i]))
  {
    var m, r := Threshold(s.slots, s.slots[0].service, gpu), Epoch(s, gpu).slots;
    forall i | 0 <= i < MAX_CONTROLLER_COUNT
      ensures High(r[i], gpu) <==> Live(s.slots[i], gpu) && Service(s.slots[i]) == Micros(m)
    {
      MacrosAreMicros(s.slots[i].service, m);
    }
    if m != s.slots[0].service {
      var i :| 0 <= i < |s.slots| && Live(s.slots[i], gpu) && s.slots[i].service == m;
      assert High(r[i], gpu);
    } else if i :| 0 <= i < |s.slots| && Live(s.slots[i], gpu) && Service(s.slots[i]) <= Service(s.slots[0]) {
      assert High(r[i], gpu);
    }
  }

  // ---------- the spread of attained service ----------

  /** No two live slots of the GPU are further apart than `d` microseconds. */
  predicate SpreadWithin(slots: seq<Slot>, gpu: int, d: int) {
    forall i, j :: 0 <= i < |slots| && 0 <= j < |slots| && Live(slots[i], gpu) && Live(slots[j], gpu) ==>
      Service(slots[i]) - Service(slots[j]) <= d
  }

  /** Until the next epoch, on this GPU: no slot comes alive, only those with high priority gain service,
      and none gains more than `q`. Slots on other GPUs may change in any way. */
  predicate ServesOnlyHigh(before: seq<Slot>, after: seq<Slot>, gpu: int, q: int) {
    && |before| == |after|
    && forall i :: 0 <= i < |after| && Live(after[i], gpu) ==>
         && Live(before[i], gpu)
         && Service(before[i]) <= Service(after[i])
         && Service(after[i]) - Service(before[i]) <= (if High(before[i], gpu) then q else 0)
  }

  lemma EpochKeepsSpread(s: State, after: seq<Slot>, gpu: int, d: int, q: int)
    requires s.Valid() && s.count != 0 && q <= d && 0 <= d
    requires SpreadWithin(s.slots, gpu, d) && ServesOnlyHigh(Epoch(s, gpu).slots, after, gpu, q)
    ensures SpreadWithin(after, gpu, d)
  {
    var r := Epoch(s, gpu).slots;
    forall i, j | 0 <= i < |after| && 0 <= j < |after| && Live(after[i], gpu) && Live(after[j], gpu)
      ensures Service(after[i]) - Service(after[j]) <= d
    {
      HighIffLeastServed(s, gpu, i);
      assert Live(r[j], gpu) && Service(r[j]) == Service(s.slots[j]) && Service(r[i]) == Service(s.slots[i]);
    }
  }

  /** A run of epochs: each starts from the table the last one left, as served since. */
  predicate EpochRun(states: seq<State>, gpu: int, q: int) {
    && states != []
    && (forall k :: 0 <= k < |states| ==> states[k].Valid() && states[k].count != 0)
    && forall k :: 0 <= k < |states| - 1 ==>
         ServesOnlyHigh(Epoch(states[k], gpu).slots, states[k + 1].slots, gpu, q)
  }

  /** The spread of attained service on a GPU never exceeds the larger of its initial value and `q`,
      over any number of epochs. */
  lemma {:induction false} SpreadBounded(states: seq<State>, gpu: int, d: int, q: int, k: nat)
    requires EpochRun(states, gpu, q) && 0 <= d && k < |states| && SpreadWithin(states[0].slots, gpu, d)
    ensures SpreadWithin(states[k].slots, gpu, if d < q then q else d)
  {
    if k > 0 {
      SpreadBounded(states, gpu, d, q, k - 1);
      EpochKeepsSpread(states[k - 1], states[k].slots, gpu, if d < q then q else d, q);
    }
  }

  // ---------- accounting over a run ----------

  datatype Event =
    | AddQ(pid: int, gpu: int)
    | RemQ(pid: int, gpu: int)
    | NotifySched(pid: int, gpu: int, t: NormalTime)
    | EpochOf(gpu: int)

  function Next(s: State, e: Event): (r: State)
    requires s.Valid()
    ensures r.Valid()
  {
    match e
    case AddQ(pid, gpu) => Add(s, pid, gpu)
    case RemQ(pid, gpu) => Remove(s, pid, gpu)
    case NotifySched(pid, gpu, t) => Notify(s, pid, gpu, t)
    case EpochOf(gpu) => Epoch(s, gpu)
  }

  function After(s: State, es: seq<Event>): (r: State)
    requires s.Valid()
    ensures r.Valid()
  {
    if es == [] then s else Next(After(s, es[..|es| - 1]), es[|es| - 1])
  }

  /** Total time that NOTIFY_SCHED messages report for `pid` on `gpu`. */
  function Reported(es: seq<Event>, pid: int, gpu: int): int {
    if es == [] then 0
    else
      var e := es[|es| - 1];
      Reported(es[..|es| - 1], pid, gpu) +
      if e.NotifySched? && e.pid == pid && e.gpu == gpu then Micros(e.t) else 0
  }

  /** `pid` keeps slot p: it is never removed, and the ring of registrations does not come round to it. */
  predicate Keeps(s: State, es: seq<Event>, p: nat, pid: int, gpu: int)
    requires s.Valid()
  {
    es != [] ==>
      && Keeps(s, es[..|es| - 1], p, pid, gpu)
      && var t, e := After(s, es[..|es| - 1]), es[|es| - 1];
         && e != RemQ(pid, gpu)
         && (e.AddQ? && !Known(t.slots, PidOf, e.pid) ==> t.count != p)
  }

  lemma StepAccounts(s: State, e: Event, p: nat, pid: int, gpu: int)
    requires s.Valid() && p < MAX_CONTROLLER_COUNT && pid != INVALID_PROCESS && PidsUnique(s.slots, PidOf)
    requires s.slots[p].pid == pid && Live(s.slots[p], gpu)
    requires e != RemQ(pid, gpu) && (e.AddQ? && !Known(s.slots, PidOf, e.pid) ==> s.count != p)
    ensures var r := Next(s, e).slots;
            && PidsUnique(r, PidOf) && r[p].pid == pid && Live(r[p], gpu)
            && Service(r[p]) == Service(s.slots[p]) +
                 if e.NotifySched? && e.pid == pid && e.gpu == gpu then Micros(e.t) else 0
  {
    if e.NotifySched? && e.pid == pid && e.gpu == gpu {
      var i := Find(s.slots, pid, gpu, 0);
      assert i == p;
    }
  }

  /** While a process keeps its slot, its attained service is what the slot held at registration plus
      all the time reported for it, always as a normalised timeval. */
  lemma {:induction false} ServiceAccounted(s: State, es: seq<Event>, p: nat, pid: int, gpu: int)
    requires s.Valid() && p < MAX_CONTROLLER_COUNT && pid != INVALID_PROCESS && PidsUnique(s.slots, PidOf)
    requires s.slots[p].pid == pid && Live(s.slots[p], gpu) && Keeps(s, es, p, pid, gpu)
    ensures var r := After(s, es).slots;
            && PidsUnique(r, PidOf) && r[p].pid == pid && Live(r[p], gpu)
            && Service(r[p]) == Service(s.slots[p]) + Reported(es, pid, gpu)
            && Normal(r[p].service)
  {
    if es != [] {
      var front := es[..|es| - 1];
      ServiceAccounted(s, front, p, pid, gpu);
      StepAccounts(After(s, front), es[|es| - 1], p, pid, gpu);
    }
  }

  // ---------- a least-served process without high priority ----------

  const NOTHING := State(seq(MAX_CONTROLLER_COUNT, _ => EMPTY), 0)

  lemma AfterNext(s: State, es: seq<Event>, e: Event)
    requires s.Valid()
    ensures After(s, es + [e]) == Next(After(s, es), e)
  {
    assert (es + [e])[..|es|] == es;
  }

  lemma TwoAdded(es: seq<Event>)
    requires es == [AddQ(1, 0), AddQ(2, 1)]
    ensures After(NOTHING, es).count == 2
    ensures After(NOTHING, es).slots == NOTHING.slots[0 := Slot(1, 0, true, 0, TimeVal(0, 0))]
                                                     [1 := Slot(2, 1, true, 0, TimeVal(0, 0))]
  {
    AfterNext(NOTHING, [], AddQ(1, 0));
    var a := [AddQ(1, 0)];
    assert [] + [AddQ(1, 0)] == a && a + [AddQ(2, 1)] == es;
    assert !Known(NOTHING.slots, PidOf, 1);
    AfterNext(NOTHING, a, AddQ(2, 1));
    assert !Known(After(NOTHING, a).slots, PidOf, 2);
  }

  /** From the empty table: the only process of GPU 1 has been served for a second and is not high, because
      slot 0 belongs to a process of GPU 0 that has not been served. */
  lemma OnlyProcessNotHigh()
    ensures var r := After(NOTHING, [AddQ(1, 0), AddQ(2, 1), NotifySched(2, 1, TimeVal(1, 0)), EpochOf(1)]).slots;
            && r[1].pid == 2 && Live(r[1], 1) && !High(r[1], 1)
            && forall i :: 0 <= i < MAX_CONTROLLER_COUNT && i != 1 ==> !Live(r[i], 1)
  {
    var t, a := TimeVal(1, 0), [AddQ(1, 0), AddQ(2, 1)];
    TwoAdded(a);
    AfterNext(NOTHING, a, NotifySched(2, 1, t));
    var b := [AddQ(1, 0), AddQ(2, 1), NotifySched(2, 1, t)];
    assert a + [NotifySched(2, 1, t)] == b;
    var s := After(NOTHING, b);
    assert Find(After(NOTHING, a).slots, 2, 1, 0) == 1;
    assert s.slots[1] == Slot(2, 1, true, 0, t) && s.slots[0].service == TimeVal(0, 0);
    AfterNext(NOTHING, b, EpochOf(1));
    assert b + [EpochOf(1)] == [AddQ(1, 0), AddQ(2, 1), NotifySched(2, 1, t), EpochOf(1)];
    HighIffLeastServed(s, 1, 1);
  }
}
