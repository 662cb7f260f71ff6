/** The older CFS scheduler: clients that add themselves under a semaphore, a listener that registers
    them, and a control thread that wakes one process per slice. One signal toggles a process between
    awake and asleep; listener, control thread, clients and signal delivery interleave freely. */
module CfsScheduler {
  import opened SchedCommons

  const SIGRTMIN := 34
  const SIGRTMAX := 64

  datatype Slot = Slot(pid: nat, share: nat, signum: nat, valid: bool)

  /** Where a client is in add_queue. `Added` holds the result its register_handler reported. */
  datatype Phase = Outside | Entered | Requested | Answered(signum: nat) | Installed(err: int) | Added(err: int)

  /** `sent` and `delivered` count the toggle signals of one process. */
  datatype Client = Client(phase: Phase, sent: nat, delivered: nat)

  datatype Request = AddQ(pid: nat, share: nat) | RemQ(pid: nat)

  datatype Listener =
    | Reading
    | Awaiting(pid: nat, signum: nat, share: nat)
    | Registering(pid: nat, signum: nat, share: nat)

  datatype Controller = Scanning | Checked | Loaded(pid: nat, signum: nat) | Slice(pid: nat, signum: nat)

  /** Clients are indexed by pid; pid 0 is nobody. */
  datatype State = State(
    slots: seq<Slot>,
    signalIndex: nat,
    thid: nat,
    listener: Listener,
    controller: Controller,
    clients: seq<Client>,
    holder: nat,
    fifo: seq<Request>)

  datatype Event =
    | Enter(pid: nat)
    | Write(pid: nat, share: nat)
    | ReadSignum(pid: nat)
    | Install(pid: nat, err: int)
    | Report(pid: nat)
    | Leave(pid: nat)
    | Listen
    | ReadErr
    | Register
    | Check
    | Load
    | Wake
    | EndSlice
    | Deliver(pid: nat)

  predicate Init(s: State) {
    && s.slots == [] && s.signalIndex == 0 && s.thid == 0
    && s.listener == Reading && s.controller == Scanning
    && |s.clients| > 0 && s.holder == INVALID_PROCESS && s.fifo == []
    && forall p :: 0 <= p < |s.clients| ==> s.clients[p] == Client(Outside, 0, 0)
  }

  predicate Exists(s: State, p: nat) {
    0 < p < |s.clients|
  }

  predicate Enabled(s: State, e: Event) {
    match e
    case Enter(p) => Exists(s, p) && s.clients[p].phase == Outside && s.holder == INVALID_PROCESS
    case Write(p, _) => Exists(s, p) && s.clients[p].phase == Entered
    case ReadSignum(p) =>
      Exists(s, p) && s.clients[p].phase == Requested && s.listener.Awaiting? && s.listener.pid == p
    // sigaction refuses a signal number beyond SIGRTMAX
    case Install(p, err) =>
      && Exists(s, p) && s.clients[p].phase.Answered?
      && (err == 0 ==> s.clients[p].phase.signum <= SIGRTMAX)
    case Report(p) => Exists(s, p) && s.clients[p].phase.Installed?
    case Leave(p) => Exists(s, p) && s.clients[p].phase.Added? && s.holder == INVALID_PROCESS
    case Listen => s.listener.Reading? && s.fifo != []
    case ReadErr => s.listener.Awaiting? && Exists(s, s.listener.pid) && s.clients[s.listener.pid].phase.Added?
    case Register => s.listener.Registering?
    case Check => s.controller.Scanning? && s.thid < |s.slots|
    case Load => s.controller.Checked? && s.thid < |s.slots|
    case Wake => s.controller.Loaded? && s.controller.pid < |s.clients|
    case EndSlice => s.controller.Slice? && s.controller.pid < |s.clients|
    case Deliver(p) => Exists(s, p) && s.clients[p].delivered < s.clients[p].sent
  }

  function Move(s: State, p: nat, phase: Phase): State
    requires p < |s.clients|
  {
    s.(clients := s.clients[p := s.clients[p].(phase := phase)])
  }

  function Send(s: State, p: nat): State
    requires p < |s.clients|
  {
    s.(clients := s.clients[p := s.clients[p].(sent := s.clients[p].sent + 1)])
  }

  function PidOf(s: Slot): int { s.pid }

  function FirstSlot(slots: seq<Slot>, pid: nat, from: nat): (i: nat)
    requires from <= |slots|
    ensures from <= i <= |slots| && (i < |slots| ==> slots[i].pid == pid)
    ensures forall j :: from <= j < i ==> slots[j].pid != pid
    decreases |slots| - from
  {
    if from == |slots| || slots[from].pid == pid then from else FirstSlot(slots, pid, from + 1)
  }

  function Advance(s: State): nat {
    if s.thid + 1 >= |s.slots| then 0 else s.thid + 1
  }

  function Next(s: State, e: Event): State
    requires Enabled(s, e)
  {
    match e
    case Enter(p) => Move(s, p, Entered).(holder := p)
    case Write(p, share) => Move(s, p, Requested).(fifo := s.fifo + [AddQ(p, share)])
    case ReadSignum(p) => Move(s, p, Answered(s.listener.signum))
    case Install(p, err) => Move(s, p, Installed(err))
    case Report(p) => Move(s, p, Added(s.clients[p].phase.err)).(holder := INVALID_PROCESS)
    case Leave(p) => s.(fifo := s.fifo + [RemQ(p)])
    case Listen =>
      var rest := s.(fifo := s.fifo[1..]);
      if s.fifo[0].AddQ? then
        if Known(s.slots, PidOf, s.fifo[0].pid) then rest
        else rest.(listener := Awaiting(s.fifo[0].pid, SIGRTMIN + s.signalIndex, s.fifo[0].share),
                   signalIndex := s.signalIndex + 1)
      else
        var i := FirstSlot(s.slots, s.fifo[0].pid, 0);
        if i == |s.slots| then rest
        else rest.(slots := s.slots[i := s.slots[i].(pid := INVALID_PROCESS, valid := false)])
    case ReadErr =>
      var l := s.listener;
      if s.clients[l.pid].phase.err != 0 then s.(listener := Reading)
      else Send(s, l.pid).(listener := Registering(l.pid, l.signum, l.share))
    case Register =>
      var l := s.listener;
      s.(slots := s.slots + [Slot(l.pid, l.share, l.signum, true)], listener := Reading)
    case Check => if s.slots[s.thid].valid then s.(controller := Checked) else s.(thid := Advance(s))
    case Load => s.(controller := Loaded(s.slots[s.thid].pid, s.slots[s.thid].signum))
    case Wake =>
      var c := s.controller;
      if c.pid == INVALID_PROCESS then s.(controller := Scanning, thid := Advance(s))
      else Send(s, c.pid).(controller := Slice(c.pid, c.signum), thid := Advance(s))
    case EndSlice => Send(s, s.controller.pid).(controller := Scanning)
    case Deliver(p) => s.(clients := s.clients[p := s.clients[p].(delivered := s.clients[p].delivered + 1)])
  }

  /** Removing a process empties the first slot that has its pid, and nothing else; a pid in no slot is ignored. */
  lemma RemoveMeans(s: State, pid: nat)
    requires Enabled(s, Listen) && s.fifo[0] == RemQ(pid)
    ensures var t := Next(s, Listen);
            && t == s.(fifo := s.fifo[1..], slots := t.slots) && |t.slots| == |s.slots|
            && forall i :: 0 <= i < |s.slots| ==>
                 t.slots[i] == if s.slots[i].pid == pid && (forall j :: 0 <= j < i ==> s.slots[j].pid != pid)
                               then Slot(0, s.slots[i].share, s.slots[i].signum, false) else s.slots[i]
  {
  }

  /** A process that asks to be added is given the next signal number and waited for, unless a slot has its pid. */
  lemma AddMeans(s: State, pid: nat, share: nat)
    requires Enabled(s, Listen) && s.fifo[0] == AddQ(pid, share)
    ensures var t := Next(s, Listen);
            if exists i :: 0 <= i < |s.slots| && s.slots[i].pid == pid then t == s.(fifo := s.fifo[1..])
            else t == s.(fifo := s.fifo[1..], signalIndex := s.signalIndex + 1,
                         listener := Awaiting(pid, 34 + s.signalIndex, share))
  {
    assert forall i :: 0 <= i < |s.slots| ==> PidOf(s.slots[i]) == s.slots[i].pid;
  }

  predicate IsRun(s: State, es: seq<Event>)
    decreases |es|
  {
    es != [] ==> Enabled(s, es[0]) && IsRun(Next(s, es[0]), es[1..])
  }

  function After(s: State, es: seq<Event>): State
    requires IsRun(s, es)
    decreases |es|
  {
    if es == [] then s else After(Next(s, es[0]), es[1..])
  }

  // ---------- the invariant ----------

  predicate Odd(n: nat) {
    n % 2 == 1
  }

  predicate InSlice(s: State, p: nat) {
    s.controller.Slice? && s.controller.pid == p
  }

  /** A registered process has been sent an odd number of signals, unless it is the one in the slice. */
  predicate SlotOk(s: State, i: nat)
    requires i < |s.slots|
  {
    var slot := s.slots[i];
    && (slot.valid <==> slot.pid != INVALID_PROCESS)
    && SIGRTMIN + i <= slot.signum <= SIGRTMAX
    && slot.signum < SIGRTMIN + s.signalIndex
    && slot.pid < |s.clients|
    && (slot.valid ==> Toggled(s, slot.pid))
  }

  predicate Toggled(s: State, p: nat)
    requires p < |s.clients|
  {
    && s.clients[p].phase == Added(0)
    && s.clients[p].sent > 0
    && (Odd(s.clients[p].sent) <==> !InSlice(s, p))
  }

  /** A process not yet handed to the scheduler has been sent nothing and has no slot. */
  predicate Unsent(s: State, p: nat)
    requires p < |s.clients|
  {
    s.clients[p].sent == 0 && !Known(s.slots, PidOf, p)
  }

  /** A client outside or inside add_queue. Its pid is in the fifo at most while it is in `Requested`. */
  predicate ClientOk(s: State, p: nat)
    requires p < |s.clients|
  {
    var c := s.clients[p];
    && c.delivered <= c.sent
    && (p == INVALID_PROCESS ==> c.phase.Outside?)
    && (c.sent > 0 ==> c.phase == Added(0))
    && (c.phase.Entered? || c.phase.Requested? || c.phase.Answered? || c.phase.Installed? ==> s.holder == p)
    && (c.phase.Answered? || c.phase.Installed? ==> s.listener.Awaiting? && s.listener.pid == p)
    && (c.phase.Answered? ==> c.phase.signum == s.listener.signum)
    && (c.phase.Installed? && c.phase.err == 0 ==> s.listener.signum <= SIGRTMAX)
    && (c.phase.Added? && c.phase.err == 0 && s.listener.Awaiting? && s.listener.pid == p ==>
          s.listener.signum <= SIGRTMAX)
  }

  predicate FifoOk(s: State) {
    && (forall k :: 0 <= k < |s.fifo| ==> Exists(s, s.fifo[k].pid))
    && (forall k :: 0 <= k < |s.fifo| && s.fifo[k].AddQ? ==>
          s.clients[s.fifo[k].pid].phase == Requested && Unsent(s, s.fifo[k].pid) && !Handling(s, s.fifo[k].pid))
    && (forall j, k :: 0 <= j < k < |s.fifo| && s.fifo[j].AddQ? && s.fifo[k].AddQ? ==>
          s.fifo[j].pid != s.fifo[k].pid)
  }

  predicate Handling(s: State, p: nat) {
    !s.listener.Reading? && s.listener.pid == p
  }

  predicate ListenerOk(s: State) {
    !s.listener.Reading? ==>
      && Exists(s, s.listener.pid)
      && !Known(s.slots, PidOf, s.listener.pid)
      && s.listener.signum == SIGRTMIN + s.signalIndex - 1
      && s.signalIndex > 0
      && (forall i :: 0 <= i < |s.slots| ==> s.slots[i].signum < s.listener.signum)
      && !(s.controller.Loaded? && s.controller.pid == s.listener.pid)
      && !InSlice(s, s.listener.pid)
      && (s.listener.Awaiting? ==>
            && s.clients[s.listener.pid].sent == 0
            && !s.clients[s.listener.pid].phase.Outside? && !s.clients[s.listener.pid].phase.Entered?)
      && (s.listener.Registering? ==>
            && s.clients[s.listener.pid].sent == 1
            && s.clients[s.listener.pid].phase == Added(0)
            && s.listener.signum <= SIGRTMAX)
  }

  predicate ControllerOk(s: State) {
    && (s.thid == 0 || s.thid < |s.slots|)
    && (s.controller.Checked? ==> s.thid < |s.slots|)
    && (s.controller.Loaded? && s.controller.pid != INVALID_PROCESS ==>
          s.controller.pid < |s.clients| && Toggled(s, s.controller.pid))
    && (s.controller.Loaded? ==> s.controller.pid < |s.clients|)
    && (s.controller.Slice? ==> Exists(s, s.controller.pid) && Toggled(s, s.controller.pid))
  }

  ghost predicate Inv(s: State) {
    && (forall i :: 0 <= i < |s.slots| ==> SlotOk(s, i))
    && PidsUnique(s.slots, PidOf)
    && (forall i, j :: 0 <= i < j < |s.slots| ==> s.slots[i].signum < s.slots[j].signum)
    && (forall p :: 0 <= p < |s.clients| ==> ClientOk(s, p))
    && FifoOk(s)
    && ListenerOk(s)
    && ControllerOk(s)
  }

  lemma InitHolds(s: State)
    requires Init(s)
    ensures Inv(s)
  {
  }

  lemma NewcomerHasNoSlot(s: State, p: nat)
    requires Inv(s) && Exists(s, p) && !s.clients[p].phase.Added?
    ensures !Known(s.slots, PidOf, p)
  {
    forall i | 0 <= i < |s.slots| ensures s.slots[i].pid != p {
      var ok := SlotOk(s, i);
    }
  }

  lemma EnterKeepsInv(s: State, e: Event)
    requires Inv(s) && Enabled(s, e) && (e.Enter? || e.Write?)
    ensures Inv(Next(s, e))
  {
    var t := Next(s, e);
    assert ClientOk(s, e.pid) && ClientOk(s, INVALID_PROCESS);
    if e.Write? {
      NewcomerHasNoSlot(s, e.pid);
    }
    forall i | 0 <= i < |t.slots| ensures SlotOk(t, i) {
      assert SlotOk(s, i);
    }
    forall p | 0 <= p < |t.clients| ensures ClientOk(t, p) {
      assert ClientOk(s, p);
    }
  }

  lemma AnswerKeepsInv(s: State, e: Event)
    requires Inv(s) && Enabled(s, e) && (e.ReadSignum? || e.Install? || e.Report?)
    ensures Inv(Next(s, e))
  {
    var t := Next(s, e);
    assert ClientOk(s, e.pid) && ClientOk(s, INVALID_PROCESS);
    forall i | 0 <= i < |t.slots| ensures SlotOk(t, i) {
      assert SlotOk(s, i);
    }
    forall p | 0 <= p < |t.clients| ensures ClientOk(t, p) {
      assert ClientOk(s, p);
    }
  }

  lemma OtherStepKeepsInv(s: State, e: Event)
    requires Inv(s) && Enabled(s, e) && (e.Leave? || e.Deliver?)
    ensures Inv(Next(s, e))
  {
    var t := Next(s, e);
    forall i | 0 <= i < |t.slots| ensures SlotOk(t, i) {
      assert SlotOk(s, i);
    }
    forall p | 0 <= p < |t.clients| ensures ClientOk(t, p) {
      assert ClientOk(s, p);
    }
  }

  lemma AddKeepsInv(s: State)
    requires Inv(s) && Enabled(s, Listen) && s.fifo[0].AddQ?
    ensures Inv(Next(s, Listen))
  {
    var t := Next(s, Listen);
    forall i | 0 <= i < |t.slots|
      ensures SlotOk(t, i) && t.slots[i].signum == s.slots[i].signum < SIGRTMIN + s.signalIndex
    {
      assert SlotOk(s, i);
    }
    forall p | 0 <= p < |t.clients| ensures ClientOk(t, p) {
      assert ClientOk(s, p);
    }
  }

  /** What removing a process leaves of the slots. */
  lemma SlotsAfterRemove(s: State)
    requires Inv(s) && Enabled(s, Listen) && s.fifo[0].RemQ?
    ensures var t := Next(s, Listen);
            && |t.slots| == |s.slots| && PidsUnique(t.slots, PidOf)
            && forall i :: 0 <= i < |t.slots| ==>
                 && t.slots[i].signum == s.slots[i].signum < SIGRTMIN + s.signalIndex
                 && (t.slots[i] == s.slots[i] || (t.slots[i].pid == INVALID_PROCESS && !t.slots[i].valid))
  {
    forall i | 0 <= i < |s.slots| ensures s.slots[i].signum < SIGRTMIN + s.signalIndex {
      assert SlotOk(s, i);
    }
  }

  lemma RemoveKeepsInv(s: State)
    requires Inv(s) && Enabled(s, Listen) && s.fifo[0].RemQ?
    ensures Inv(Next(s, Listen))
  {
    var t := Next(s, Listen);
    SlotsAfterRemove(s);
    forall i | 0 <= i < |t.slots| ensures SlotOk(t, i) {
      assert SlotOk(s, i);
    }
    forall p | 0 <= p < |t.clients| ensures ClientOk(t, p) {
      assert ClientOk(s, p);
    }
  }

  lemma ReadErrKeepsInv(s: State)
    requires Inv(s) && Enabled(s, ReadErr)
    ensures Inv(Next(s, ReadErr))
  {
    var t := Next(s, ReadErr);
    assert ClientOk(s, s.listener.pid);
    forall i | 0 <= i < |t.slots| ensures SlotOk(t, i) {
      assert SlotOk(s, i);
    }
    forall p | 0 <= p < |t.clients| ensures ClientOk(t, p) {
      assert ClientOk(s, p);
    }
  }

  lemma RegisterKeepsInv(s: State)
    requires Inv(s) && Enabled(s, Register)
    ensures Inv(Next(s, Register))
  {
    var t, n := Next(s, Register), |s.slots|;
    forall i | 0 <= i < |t.slots| ensures SlotOk(t, i) {
      if i < n {
        assert SlotOk(s, i);
      } else if n > 0 {
        assert SlotOk(s, n - 1);
      }
    }
    forall p | 0 <= p < |t.clients| ensures ClientOk(t, p) {
      assert ClientOk(s, p);
    }
  }

  lemma ScanKeepsInv(s: State, e: Event)
    requires Inv(s) && Enabled(s, e) && (e.Check? || e.Load?)
    ensures Inv(Next(s, e))
  {
    var t := Next(s, e);
    assert SlotOk(s, s.thid);
    forall i | 0 <= i < |t.slots| ensures SlotOk(t, i) {
      assert SlotOk(s, i);
    }
    forall p | 0 <= p < |t.clients| ensures ClientOk(t, p) {
      assert ClientOk(s, p);
    }
  }

  lemma WakeKeepsInv(s: State, e: Event)
    requires Inv(s) && Enabled(s, e) && (e.Wake?)
    ensures Inv(Next(s, e))
  {
    var t := Next(s, e);
    forall i | 0 <= i < |t.slots| ensures SlotOk(t, i) {
      assert SlotOk(s, i);
    }
    forall p | 0 <= p < |t.clients| ensures ClientOk(t, p) {
      assert ClientOk(s, p);
    }
  }

  lemma EndSliceKeepsInv(s: State, e: Event)
    requires Inv(s) && Enabled(s, e) && (e.EndSlice?)
    ensures Inv(Next(s, e))
  {
    var t := Next(s, e);
    forall i | 0 <= i < |t.slots| ensures SlotOk(t, i) {
      assert SlotOk(s, i);
    }
    forall p | 0 <= p < |t.clients| ensures ClientOk(t, p) {
      assert ClientOk(s, p);
    }
  }

  lemma StepKeepsInv(s: State, e: Event)
    requires Inv(s) && Enabled(s, e)
    ensures Inv(Next(s, e))
  {
    match e {
      case Listen => if s.fifo[0].AddQ? { AddKeepsInv(s); } else { RemoveKeepsInv(s); }
      case ReadErr => ReadErrKeepsInv(s);
      case Register => RegisterKeepsInv(s);
      case Leave(_) => OtherStepKeepsInv(s, e);
      case Deliver(_) => OtherStepKeepsInv(s, e);
      case Check => ScanKeepsInv(s, e);
      case Load => ScanKeepsInv(s, e);
      case Wake => WakeKeepsInv(s, e);
      case EndSlice => EndSliceKeepsInv(s, e);
      case Enter(_) => EnterKeepsInv(s, e);
      case Write(_, _) => EnterKeepsInv(s, e);
      case _ => AnswerKeepsInv(s, e);
    }
  }

  lemma {:induction false} RunKeepsInv(s: State, es: seq<Event>)
    requires Inv(s) && IsRun(s, es)
    ensures Inv(After(s, es))
    decreases |es|
  {
    if es != [] {
      StepKeepsInv(s, es[0]);
      RunKeepsInv(Next(s, es[0]), es[1..]);
    }
  }

  // ---------- what every run guarantees ----------

  predicate Registered(s: State, p: nat) {
    exists i :: 0 <= i < |s.slots| && s.slots[i].valid && s.slots[i].pid == p
  }

  /** Awake, with no signal on its way. */
  predicate SettledAwake(s: State, p: nat)
    requires Exists(s, p)
  {
    s.clients[p].delivered == s.clients[p].sent && !Odd(s.clients[p].delivered)
  }

  lemma RegisteredIsToggled(s: State, p: nat)
    requires Inv(s) && Registered(s, p)
    ensures Exists(s, p) && Toggled(s, p)
  {
    var i :| 0 <= i < |s.slots| && s.slots[i].valid && s.slots[i].pid == p;
    assert SlotOk(s, i);
  }

  /** In any interleaving, a registered process has been sent an odd number of signals unless it is in
      the current slice; so at most one registered process is awake with no signal on its way. */
  lemma {:induction false} MutualExclusion(s: State, es: seq<Event>, p: nat, q: nat)
    requires Init(s) && IsRun(s, es) && Registered(After(s, es), p) && Registered(After(s, es), q)
    ensures var t := After(s, es);
            && Exists(t, p) && Exists(t, q)
            && (Odd(t.clients[p].sent) <==> !InSlice(t, p))
            && (SettledAwake(t, p) && SettledAwake(t, q) ==> p == q && InSlice(t, p))
  {
    InitHolds(s);
    RunKeepsInv(s, es);
    RegisteredIsToggled(After(s, es), p);
    RegisteredIsToggled(After(s, es), q);
  }

  /** Every request uses up a signal number, so the slots never outnumber the real-time signals. */
  lemma SlotsBounded(s: State)
    requires Inv(s)
    ensures |s.slots| <= SIGRTMAX - SIGRTMIN + 1 < MAX_CONTROLLER_COUNT
  {
    if s.slots != [] {
      assert SlotOk(s, |s.slots| - 1);
    }
  }

  /** No signal is ever sent to a process before its handler is installed and success reported; a live
      pid occupies one slot; and the slots in use stay far inside the arrays. */
  lemma {:induction false} HandshakeSafety(s: State, es: seq<Event>, p: nat)
    requires Init(s) && IsRun(s, es) && p < |After(s, es).clients|
    ensures var t := After(s, es);
            && (t.clients[p].sent > 0 ==> t.clients[p].phase == Added(0))
            && PidsUnique(t.slots, PidOf)
            && |t.slots| <= SIGRTMAX - SIGRTMIN + 1 < MAX_CONTROLLER_COUNT
  {
    InitHolds(s);
    RunKeepsInv(s, es);
    var t := After(s, es);
    assert ClientOk(t, p);
    SlotsBounded(t);
  }
}
