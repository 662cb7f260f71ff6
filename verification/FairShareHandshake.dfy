/** How processes come into the fair-share scheduler's table: clients add themselves under a semaphore, one
    listener per GPU answers them, and all listeners write one table, while control threads and pager use
    it. Every step of a client, of a listener and of the other threads may fall between any two others. */
module FairShareHandshake {
  import opened SchedCommons
  import opened FairShare
  import opened FairShareRuns

  /** Where a client is in fs_add_queue, and for which GPU. */
  datatype Phase =
    | Outside
    | Entered(g: Gpu)
    | Requested(g: Gpu)
    | Answered(g: Gpu)
    | Unblocked(g: Gpu)
    | Installed(g: Gpu, err: int)

  /** How signals find a process: whether SIGALRM and SIGSCHED are blocked, whether SIGALRM is pending and how
      many SIGSCHED are queued, whether it sleeps in the handler of SIGALRM, whether its interval timer is
      set, and whether a SIGSCHED that found it awake has terminated it. */
  datatype Signals = Signals(masked: bool, alarm: bool, queued: nat, asleep: bool, armed: bool, dead: bool)

  /** What a process does on its own account. */
  datatype Own = Mask | Unmask | TakeAlarm | Rouse | Expire | Die

  /** `asked` are the GPUs the process has asked for; `offers` and `answers` are unread in its two FIFOs;
      `installed` and `reported` say that its handlers are installed and that it has reported so; `alarms`
      and `wakes` count the SIGALRM and SIGSCHED sent to it; `returned` its completed calls. */
  datatype Client = Client(
    phase: Phase,
    asked: set<Gpu>,
    offers: nat,
    answers: seq<int>,
    installed: bool,
    reported: bool,
    alarms: nat,
    wakes: nat,
    returned: nat,
    sig: Signals)

  const QUIET := Signals(false, false, 0, false, false, false)
  const NEWCOMER := Client(Outside, {}, 0, [], false, false, 0, 0, 0, QUIET)

  datatype Message = AddQ(pid: nat, share: nat) | RemQ(pid: nat)

  /** A registering listener has made `field` of its assignments; a counting one has read the count. */
  datatype Listener =
    | Reading
    | Awaiting(pid: nat, share: nat)
    | Registering(pid: nat, share: nat, field: nat)
    | Counting(pid: nat, seen: nat)

  /** Clients are indexed by pid, pid 0 is nobody. `used` are the GPUs ever asked for. */
  datatype World = World(
    table: FairShare.State,
    listeners: seq<Listener>,
    fifos: seq<seq<Message>>,
    clients: seq<Client>,
    holder: nat,
    used: set<Gpu>,
    registered: nat)

  datatype Event =
    | Enter(pid: nat, g: Gpu)
    | Request(pid: nat, share: nat)
    | ReadSignum(pid: nat)
    | Unblock(pid: nat)
    | Install(pid: nat, err: int)
    | Report(pid: nat)
    | Leave(pid: nat, g: Gpu)
    | Act(pid: nat, o: Own)
    | Listen(g: Gpu)
    | ReadErr(g: Gpu)
    | Assign(g: Gpu)
    | Load(g: Gpu)
    | Store(g: Gpu)
    | Other(e: TableEvent)

  predicate Shape(s: World) {
    && s.table.Valid() && |s.listeners| == |s.fifos| == NUM_GPUS
    && forall g :: 0 <= g < NUM_GPUS && s.listeners[g].Registering? ==> s.listeners[g].field <= REGISTRATION_FIELDS
  }

  ghost predicate Init(s: World) {
    && s.table == EmptyTable()
    && s.listeners == seq(NUM_GPUS, _ => Reading) && s.fifos == seq(NUM_GPUS, _ => [])
    && |s.clients| > 0 && (forall p :: 0 <= p < |s.clients| ==> s.clients[p] == NEWCOMER)
    && s.holder == INVALID_PROCESS && s.used == {} && s.registered == 0
  }

  predicate Exists(s: World, p: int) {
    0 < p < |s.clients|
  }

  /** The process gets on with its program: a signal that is pending and not blocked comes first. */
  predicate Runs(c: Signals) {
    !c.dead && !c.asleep && (c.masked || (!c.alarm && c.queued == 0))
  }

  predicate MayAct(c: Client, o: Own) {
    match o
    case Mask => c.phase.Outside? && Runs(c.sig)
    case Unmask => c.phase.Outside? && Runs(c.sig) && c.sig.masked
    case TakeAlarm => c.sig.alarm && c.sig.queued == 0 && !c.sig.masked && !c.sig.asleep && !c.sig.dead
    case Rouse => c.sig.asleep && c.sig.queued > 0
    case Expire => c.sig.armed && !c.sig.dead
    case Die => c.sig.queued > 0 && !c.sig.masked && !c.sig.asleep && !c.sig.dead
  }

  function Acted(c: Signals, o: Own): Signals {
    match o
    case Mask => c.(masked := true)
    case Unmask => c.(masked := false)
    case TakeAlarm => c.(alarm := false, asleep := true)
    case Rouse => c.(asleep := false, queued := if c.queued > 0 then c.queued - 1 else 0, armed := true)
    case Expire => c.(armed := false, alarm := true)
    case Die => c.(dead := true)
  }

  predicate Enabled(s: World, e: Event)
    requires Shape(s)
  {
    match e
    // the server blocks both signals before it executes a request, and before it takes its leave
    case Enter(p, _) =>
      && Exists(s, p) && s.clients[p].phase.Outside? && Runs(s.clients[p].sig) && s.clients[p].sig.masked
      && s.holder == INVALID_PROCESS
    case Request(p, _) => Exists(s, p) && s.clients[p].phase.Entered? && Runs(s.clients[p].sig)
    case ReadSignum(p) =>
      Exists(s, p) && s.clients[p].phase.Requested? && s.clients[p].offers > 0 && Runs(s.clients[p].sig)
    case Unblock(p) => Exists(s, p) && s.clients[p].phase.Answered? && Runs(s.clients[p].sig)
    case Install(p, _) => Exists(s, p) && s.clients[p].phase.Unblocked? && Runs(s.clients[p].sig)
    case Report(p) => Exists(s, p) && s.clients[p].phase.Installed? && Runs(s.clients[p].sig)
    case Leave(p, _) =>
      && Exists(s, p) && s.clients[p].phase.Outside? && Runs(s.clients[p].sig) && s.clients[p].sig.masked
      && s.holder == INVALID_PROCESS
    case Act(p, o) => Exists(s, p) && MayAct(s.clients[p], o)
    case Listen(g) => s.listeners[g].Reading? && s.fifos[g] != [] && Exists(s, s.fifos[g][0].pid)
    case ReadErr(g) =>
      && s.listeners[g].Awaiting? && Exists(s, s.listeners[g].pid)
      && s.clients[s.listeners[g].pid].answers != []
    case Assign(g) => s.listeners[g].Registering? && s.listeners[g].field < REGISTRATION_FIELDS
    case Load(g) => s.listeners[g].Registering? && s.listeners[g].field == REGISTRATION_FIELDS
    case Store(g) => s.listeners[g].Counting?
    case Other(t) => !t.Set? && !t.SetCount? && !t.Remove?
  }

  function WithClient(s: World, p: nat, c: Client): (r: World)
    requires Shape(s) && p < |s.clients|
    ensures Shape(r)
  {
    s.(clients := s.clients[p := c])
  }

  function Turned(s: World, g: Gpu, l: Listener): (r: World)
    requires Shape(s) && (l.Registering? ==> l.field <= REGISTRATION_FIELDS)
    ensures Shape(r)
  {
    s.(listeners := s.listeners[g := l])
  }

  /** The pid a step of the control threads sends SIGSCHED to, or nobody. */
  function Woken(t: FairShare.State, e: TableEvent): int
    requires t.Valid()
  {
    if e.Wake? && t.turns[e.g].Picked? && WakeStep(t, e.g).turns[e.g].Running? then t.turns[e.g].pid
    else INVALID_PROCESS
  }

  function ListenStep(s: World, g: Gpu): (r: World)
    requires Shape(s) && Enabled(s, Listen(g))
    ensures Shape(r)
  {
    var m := s.fifos[g][0];
    var rest := s.(fifos := s.fifos[g := s.fifos[g][1..]]);
    if m.RemQ? then rest.(table := RemoveStep(s.table, m.pid, g))
    else if Known(s.table.slots, PidOf, m.pid) then rest
    else
      var c := s.clients[m.pid];
      Turned(WithClient(rest, m.pid, c.(offers := c.offers + 1)), g, Awaiting(m.pid, m.share))
  }

  /** On success the listener puts the process to sleep, then registers it. */
  function ReadErrStep(s: World, g: Gpu): (r: World)
    requires Shape(s) && Enabled(s, ReadErr(g))
    ensures Shape(r)
  {
    var l := s.listeners[g];
    var c := s.clients[l.pid];
    var read := c.(answers := c.answers[1..]);
    if c.answers[0] != 0 then Turned(WithClient(s, l.pid, read), g, Reading)
    else
      var told := read.(alarms := c.alarms + 1, sig := c.sig.(alarm := true));
      Turned(WithClient(s, l.pid, told), g, Registering(l.pid, l.share, 0))
  }

  /** SIGSCHED is queued at the process. */
  function Told(c: Client): Client {
    c.(wakes := c.wakes + 1, sig := c.sig.(queued := c.sig.queued + 1))
  }

  function OtherStep(s: World, e: TableEvent): (r: World)
    requires Shape(s)
    ensures Shape(r)
  {
    var p := Woken(s.table, e);
    var sent := if Exists(s, p) then WithClient(s, p, Told(s.clients[p])) else s;
    sent.(table := TableStep(s.table, e))
  }

  function Next(s: World, e: Event): (r: World)
    requires Shape(s) && Enabled(s, e)
    ensures Shape(r)
  {
    match e
    case Enter(p, g) => WithClient(s, p, s.clients[p].(phase := Entered(g))).(holder := p)
    case Request(p, share) =>
      var c, g := s.clients[p], s.clients[p].phase.g;
      WithClient(s, p, c.(phase := Requested(g), asked := c.asked + {g})).(
        fifos := s.fifos[g := s.fifos[g] + [AddQ(p, share)]], used := s.used + {g})
    case ReadSignum(p) =>
      var c := s.clients[p];
      WithClient(s, p, c.(phase := Answered(c.phase.g), offers := c.offers - 1))
    // the call that unblocks both signals; a signal that is pending then comes before the next step
    case Unblock(p) =>
      var c := s.clients[p];
      WithClient(s, p, c.(phase := Unblocked(c.phase.g), sig := c.sig.(masked := false)))
    case Install(p, err) =>
      var c := s.clients[p];
      WithClient(s, p, c.(phase := Installed(c.phase.g, err), installed := c.installed || err == 0))
    // writing err and giving up the semaphore
    case Report(p) =>
      var c := s.clients[p];
      WithClient(s, p, c.(phase := Outside, answers := c.answers + [c.phase.err],
                    reported := c.reported || c.phase.err == 0, returned := c.returned + 1)).(
        holder := INVALID_PROCESS)
    case Leave(p, g) => s.(fifos := s.fifos[g := s.fifos[g] + [RemQ(p)]])
    case Act(p, o) => WithClient(s, p, s.clients[p].(sig := Acted(s.clients[p].sig, o)))
    case Listen(g) => ListenStep(s, g)
    case ReadErr(g) => ReadErrStep(s, g)
    case Assign(g) =>
      var l := s.listeners[g];
      Turned(s, g, l.(field := l.field + 1)).(
        table := AssignStep(s.table, FieldAt(l.field, l.pid, g, l.share)))
    case Load(g) => Turned(s, g, Counting(s.listeners[g].pid, s.table.count))
    case Store(g) =>
      Turned(s, g, Reading).(table := CountStep(s.table, s.listeners[g].seen + 1), registered := s.registered + 1)
    case Other(t) => OtherStep(s, t)
  }

  /** The state after a run; an event that is not enabled would change nothing. */
  function After(s: World, es: seq<Event>): (r: World)
    requires Shape(s)
    ensures Shape(r)
  {
    if es == [] then s
    else
      var t, e := After(s, es[..|es| - 1]), es[|es| - 1];
      if Enabled(t, e) then Next(t, e) else t
  }

  predicate IsRun(s: World, es: seq<Event>)
    requires Shape(s)
  {
    es == [] ||
    var front := es[..|es| - 1];
    IsRun(s, front) && Enabled(After(s, front), es[|es| - 1])
  }

  lemma Extend(s: World, es: seq<Event>, e: Event)
    requires Shape(s) && IsRun(s, es) && Enabled(After(s, es), e)
    ensures IsRun(s, es + [e]) && After(s, es + [e]) == Next(After(s, es), e)
  {
    assert (es + [e])[..|es|] == es;
  }

  lemma {:induction false} SameClients(s: World, es: seq<Event>)
    requires Shape(s) && IsRun(s, es)
    ensures |After(s, es).clients| == |s.clients|
  {
    if es != [] {
      SameClients(s, es[..|es| - 1]);
      StepKeepsClients(After(s, es[..|es| - 1]), es[|es| - 1]);
    }
  }

  lemma StepKeepsClients(s: World, e: Event)
    requires Shape(s) && Enabled(s, e)
    ensures |Next(s, e).clients| == |s.clients|
  {
  }

  lemma AtMostOne(gs: set<Gpu>)
    requires |gs| <= 1
    ensures forall g, h :: g in gs && h in gs ==> g == h
  {
    forall g, h | g in gs && h in gs ensures g == h {
      assert |gs - {g}| == |gs| - 1;
      assert h !in gs - {g};
    }
  }

  // ---------- what the other threads do to pids ----------

  /** The turn has no pid but one that was in a slot or in the turn before. */
  predicate TurnFrom(t: FairShare.State, g: Gpu, turn: Turn)
    requires t.Valid()
  {
    turn.Picked? || turn.Running? ==>
      || (exists i :: 0 <= i < |t.slots| && t.slots[i].pid == turn.pid)
      || ((t.turns[g].Picked? || t.turns[g].Running?) && t.turns[g].pid == turn.pid)
  }

  predicate SamePids(a: seq<Slot>, b: seq<Slot>) {
    |a| == |b| && forall i :: 0 <= i < |a| ==> a[i].pid == b[i].pid
  }

  lemma AdvanceKeepsPids(t: FairShare.State, g: Gpu, visited: Slot)
    requires t.Valid() && visited.pid == t.slots[t.heads[g]].pid
    ensures SamePids(Advance(t, g, visited).slots, t.slots) && Advance(t, g, visited).turns == t.turns[g := Idle]
  {
  }

  /** The other threads only move pids from slots to turns. */
  lemma OthersKeepPids(t: FairShare.State, e: TableEvent)
    requires t.Valid() && !e.Set? && !e.SetCount? && !e.Remove?
    ensures var r := TableStep(t, e);
            && r.count == t.count && SamePids(r.slots, t.slots)
            && forall g :: 0 <= g < NUM_GPUS ==> TurnFrom(t, g, r.turns[g])
  {
    match e {
      case Scan(g) => AdvanceKeepsPids(t, g, Skip(t.slots[t.heads[g]], g));
      case End(g, o) => AdvanceKeepsPids(t, g, Finish(t.slots[t.heads[g]], t.turns[g].Running?, o));
      case _ =>
    }
  }
}
