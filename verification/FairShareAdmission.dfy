/** How many slots the fair-share handshake gives a process. */
module FairShareAdmission {
  import opened SchedCommons
  import opened FairShare
  import opened FairShareHandshake
  import opened FairShareSafety
  import opened FairShareExchange

  // ---------- one slot for a process that asks for one GPU ----------

  predicate OneGpu(c: Client) {
    forall g, h :: g in c.asked && h in c.asked ==> g == h
  }

  predicate Handles(l: Listener, p: int) {
    !l.Reading? && l.pid == p
  }

  /** The listener has taken the request but not yet written the pid. */
  predicate Coming(l: Listener, p: int) {
    (l.Awaiting? || (l.Registering? && l.field == 0)) && l.pid == p
  }

  predicate OneSlot(s: World, p: int) {
    && (forall i, j :: 0 <= i < j < |s.table.slots| && s.table.slots[i].pid == p ==> s.table.slots[j].pid != p)
    && forall g :: 0 <= g < |s.listeners| && Coming(s.listeners[g], p) ==>
         forall i :: 0 <= i < |s.table.slots| ==> s.table.slots[i].pid != p
  }

  predicate AsksFor(s: World, p: int, g: Gpu) {
    Exists(s, p) && g in s.clients[p].asked
  }

  predicate FifoAsked(s: World, g: Gpu)
    requires Shape(s)
  {
    forall k :: 0 <= k < |s.fifos[g]| && s.fifos[g][k].AddQ? ==> AsksFor(s, s.fifos[g][k].pid, g)
  }

  predicate ListenerAsked(s: World, g: Gpu)
    requires Shape(s)
  {
    !s.listeners[g].Reading? ==> AsksFor(s, s.listeners[g].pid, g)
  }

  /** A listener deals only with processes that have asked for its GPU. */
  ghost predicate Asked(s: World) {
    Shape(s) && forall g: Gpu :: FifoAsked(s, g) && ListenerAsked(s, g)
  }

  ghost predicate Single(s: World) {
    && Asked(s)
    && forall p :: Exists(s, p) && OneGpu(s.clients[p]) ==> OneSlot(s, p)
  }

  /** Nobody asks for fewer GPUs later. */
  lemma AskedGrows(s: World, e: Event, p: nat)
    requires Shape(s) && Enabled(s, e) && p < |s.clients|
    ensures |Next(s, e).clients| == |s.clients| && s.clients[p].asked <= Next(s, e).clients[p].asked
  {
  }

  lemma StepKeepsFifo(s: World, e: Event, g: Gpu)
    requires Asked(s) && Enabled(s, e)
    ensures FifoAsked(Next(s, e), g)
  {
    var t := Next(s, e);
    assert FifoAsked(s, g);
    forall k | 0 <= k < |t.fifos[g]| && t.fifos[g][k].AddQ? ensures AsksFor(t, t.fifos[g][k].pid, g) {
      var m := t.fifos[g][k];
      if m in s.fifos[g] {
        var j :| 0 <= j < |s.fifos[g]| && s.fifos[g][j] == m;
        AskedGrows(s, e, m.pid);
      } else {
        assert e.Request? && e.pid == m.pid;
      }
    }
  }

  lemma StepKeepsListener(s: World, e: Event, g: Gpu)
    requires Asked(s) && Enabled(s, e)
    ensures ListenerAsked(Next(s, e), g)
  {
    var t := Next(s, e);
    assert FifoAsked(s, g) && ListenerAsked(s, g);
    if !t.listeners[g].Reading? {
      var p := t.listeners[g].pid;
      assert AsksFor(s, p, g);
      AskedGrows(s, e, p);
    }
  }

  lemma StepKeepsAsked(s: World, e: Event)
    requires Asked(s) && Enabled(s, e)
    ensures Asked(Next(s, e))
  {
    forall g: Gpu ensures FifoAsked(Next(s, e), g) && ListenerAsked(Next(s, e), g) {
      StepKeepsFifo(s, e, g);
      StepKeepsListener(s, e, g);
    }
  }

  /** Writing pid q at the count. */
  lemma PidWritten(s: World, g: Gpu, p: int)
    requires Asked(s) && Enabled(s, Assign(g)) && Exists(s, p) && OneGpu(s.clients[p]) && OneSlot(s, p)
    ensures OneSlot(Next(s, Assign(g)), p)
  {
    var t := Next(s, Assign(g));
    var l, slots := s.listeners[g], t.table.slots;
    assert ListenerAsked(s, g);
    forall i | 0 <= i < |slots| && i != s.table.count ensures slots[i].pid == s.table.slots[i].pid {
    }
    if l.field == 0 && l.pid == p {
      assert Coming(l, p);
      forall h: Gpu ensures !Coming(t.listeners[h], p) {
        assert ListenerAsked(s, h);
      }
    } else {
      assert slots[s.table.count].pid == p ==> s.table.slots[s.table.count].pid == p;
      forall h | 0 <= h < NUM_GPUS && Coming(t.listeners[h], p) ensures Coming(s.listeners[h], p) {
      }
    }
  }

  lemma ListenKeepsOneSlot(s: World, g: Gpu, p: int)
    requires Asked(s) && Enabled(s, Listen(g)) && Exists(s, p) && OneSlot(s, p)
    ensures OneSlot(Next(s, Listen(g)), p)
  {
    var t := Next(s, Listen(g));
    forall i | 0 <= i < |t.table.slots| && t.table.slots[i].pid == p ensures s.table.slots[i].pid == p {
    }
    forall h, i | 0 <= h < NUM_GPUS && Coming(t.listeners[h], p) && 0 <= i < |t.table.slots|
      ensures t.table.slots[i].pid != p
    {
      if t.listeners[h] != s.listeners[h] {
        assert !Known(s.table.slots, PidOf, p);
        assert PidOf(s.table.slots[i]) == s.table.slots[i].pid;
      } else {
        assert Coming(s.listeners[h], p);
      }
    }
  }

  lemma {:induction false} OtherKeepsOneSlot(s: World, e: Event, p: int)
    requires Asked(s) && Enabled(s, e) && !e.Listen? && !e.Assign? && Exists(s, p) && OneSlot(s, p)
    ensures OneSlot(Next(s, e), p)
  {
    var t := Next(s, e);
    if e.Other? {
      OthersKeepPids(s.table, e.e);
    }
    assert SamePids(t.table.slots, s.table.slots);
    forall h | 0 <= h < NUM_GPUS && Coming(t.listeners[h], p) ensures Coming(s.listeners[h], p) {
    }
  }

  lemma StepKeepsSingle(s: World, e: Event)
    requires Single(s) && Enabled(s, e)
    ensures Single(Next(s, e))
  {
    var t := Next(s, e);
    StepKeepsAsked(s, e);
    forall p | Exists(t, p) && OneGpu(t.clients[p]) ensures OneSlot(t, p) {
      AskedGrows(s, e, p);
      assert OneGpu(s.clients[p]);
      match e {
        case Listen(g) => ListenKeepsOneSlot(s, g, p);
        case Assign(g) => PidWritten(s, g, p);
        case _ => OtherKeepsOneSlot(s, e, p);
      }
    }
  }

  lemma InitIsSingle(s: World)
    requires Init(s)
    ensures Single(s)
  {
  }

  lemma {:induction false} RunIsSingle(s: World, es: seq<Event>)
    requires Single(s) && IsRun(s, es)
    ensures Single(After(s, es))
  {
    if es != [] {
      var front := es[..|es| - 1];
      RunIsSingle(s, front);
      StepKeepsSingle(After(s, front), es[|es| - 1]);
    }
  }

  /** In every interleaving, a process that has asked for one GPU only has at most one slot. */
  lemma {:induction false} LivePidHasOneSlot(s: World, es: seq<Event>, p: nat)
    requires Init(s) && IsRun(s, es) && Exists(s, p)
    ensures |After(s, es).clients| > p
    ensures OneGpu(After(s, es).clients[p]) ==> OneSlot(After(s, es), p)
  {
    InitIsSingle(s);
    RunIsSingle(s, es);
    SameClients(s, es);
  }

  // ---------- two slots ----------

  /** Process 1 asks for both GPUs before either listener has read its answer, so that no signal stops it. */
  lemma AsksTwice(s: World) returns (v: World)
    requires Init(s) && Exists(s, 1)
    ensures Reaches(s, v) && Shape(v) && v.table == EmptyTable()
    ensures v.listeners[0] == v.listeners[1] == Registering(1, 1, 0)
    ensures |v.clients| == |s.clients| && v.clients[1].asked == {0, 1}
    ensures forall p :: 0 <= p < |v.clients| && p != 1 ==> v.clients[p] == NEWCOMER
  {
    var u := TalksTwice(s);
    Hear(s, u, 1, 0);
    var w := Heard(u, 1, 0);
    Hear(s, w, 1, 1);
    v := Heard(w, 1, 1);
  }

  lemma TalksTwice(s: World) returns (u: World)
    requires Init(s) && Exists(s, 1)
    ensures Reaches(s, u) && Shape(u) && u.table == EmptyTable()
    ensures u.listeners[0] == u.listeners[1] == Awaiting(1, 1)
    ensures |u.clients| == |s.clients| && u.clients[1].asked == {0, 1} && u.clients[1].answers == [0, 0]
    ensures forall p :: 0 <= p < |u.clients| && p != 1 ==> u.clients[p] == NEWCOMER
  {
    Start(s);
    EmptyHasNobody(s, 1, 0);
    Talk(s, s, 1, 0);
    var t := Talked(s, 1, 0);
    Talk(s, t, 1, 1);
    u := Talked(t, 1, 1);
  }

  /** A process that asks for a second GPU before the first listener has written its pid gets two slots. */
  lemma TwoSlots(s: World) returns (t: World)
    requires Init(s) && Exists(s, 1)
    ensures Reaches(s, t) && |t.clients| == |s.clients|
    ensures t.clients[1].asked == {0, 1} && forall p :: 0 <= p < |t.clients| && p != 1 ==> t.clients[p] == NEWCOMER
    ensures t.table == Register(Register(EmptyTable(), 1, 0, 1), 1, 1, 1)
    ensures t.table.slots[0].pid == t.table.slots[1].pid == 1
  {
    var v := AsksTwice(s);
    t := BothRegister(s, v);
    TwoRegistrations(t.table);
  }

  lemma TwoRegistrations(table: FairShare.State)
    requires table == Register(Register(EmptyTable(), 1, 0, 1), 1, 1, 1)
    ensures table.slots[0].pid == table.slots[1].pid == 1
  {
  }

  lemma {:induction false} BothRegister(s: World, v: World) returns (t: World)
    requires Reaches(s, v) && Shape(v) && v.table == EmptyTable()
    requires v.listeners[0] == v.listeners[1] == Registering(1, 1, 0)
    ensures Reaches(s, t) && t.clients == v.clients
    ensures t.table == Register(Register(EmptyTable(), 1, 0, 1), 1, 1, 1)
  {
    RegisterNow(s, v, 0, 1);
    var w := RegisteredNow(v, 0, 1);
    RegisterNow(s, w, 1, 1);
    t := RegisteredNow(w, 1, 1);
  }

  /** No run in which every process asks for at most n GPUs gives a live pid two slots. */
  ghost predicate SingleSlot(n: nat) {
    forall s, t :: Init(s) && Reaches(s, t) && (forall p :: 0 <= p < |t.clients| ==> |t.clients[p].asked| <= n) ==>
      PidsUnique(t.table.slots, PidOf)
  }

  lemma UniqueIfSingle(t: World)
    requires Single(t) && Safe(t) && forall p :: 0 <= p < |t.clients| ==> |t.clients[p].asked| <= 1
    ensures PidsUnique(t.table.slots, PidOf)
  {
    var slots := t.table.slots;
    forall i, j | 0 <= i < j < |slots| && slots[i].pid == slots[j].pid ensures slots[i].pid == INVALID_PROCESS {
      var p := slots[i].pid;
      assert Reported(t, p);
      if p != INVALID_PROCESS {
        AtMostOne(t.clients[p].asked);
        var one := OneSlot(t, p);
      }
    }
  }

  lemma SingleSlotIff(n: nat)
    ensures SingleSlot(n) <==> n <= 1
  {
    if n <= 1 {
      forall s, t | Init(s) && Reaches(s, t) && (forall p :: 0 <= p < |t.clients| ==> |t.clients[p].asked| <= n)
        ensures PidsUnique(t.table.slots, PidOf)
      {
        var es :| IsRun(s, es) && After(s, es) == t;
        InitIsSingle(s);
        RunIsSingle(s, es);
        InitIsSafe(s);
        RunIsSafe(s, es);
        UniqueIfSingle(t);
      }
    } else {
      var t := TwoSlots(Fresh(1));
      assert PidOf(t.table.slots[0]) == PidOf(t.table.slots[1]) == 1;
    }
  }
}
