/** What the count of the fair-share table counts, and when it stops the control threads. */
module FairShareCounting {
  import opened SchedCommons
  import opened FairShare
  import opened FairShareHandshake
  import opened FairShareExchange

  /** At most one listener ever registers processes, and the count is the number of registrations round the
      ring. */
  ghost predicate Counted(s: World) {
    && Shape(s)
    && OneUsed(s)
    && (forall g: Gpu :: !s.listeners[g].Reading? ==> g in s.used)
    && (forall g: Gpu, k :: 0 <= k < |s.fifos[g]| && s.fifos[g][k].AddQ? ==> g in s.used)
    && s.table.count == s.registered % MAX_CONTROLLER_COUNT
    && forall g: Gpu :: s.listeners[g].Counting? ==> s.listeners[g].seen == s.table.count
  }

  lemma InitIsCounted(s: World)
    requires Init(s)
    ensures Counted(s)
  {
  }

  lemma UsedGrows(s: World, e: Event)
    requires Shape(s) && Enabled(s, e)
    ensures s.used <= Next(s, e).used
  {
  }

  lemma ClientKeepsCounted(s: World, e: Event)
    requires Counted(s) && Enabled(s, e) && OneUsed(Next(s, e))
    requires e.Enter? || e.Request? || e.ReadSignum? || e.Unblock? || e.Install? || e.Report? || e.Leave? || e.Act?
    ensures Counted(Next(s, e))
  {
  }

  lemma ListenerKeepsCounted(s: World, e: Event)
    requires Counted(s) && Enabled(s, e) && (e.Listen? || e.ReadErr? || e.Assign? || e.Load?)
    ensures Counted(Next(s, e))
  {
  }

  lemma StoreKeepsCounted(s: World, g: Gpu)
    requires Counted(s) && Enabled(s, Store(g))
    ensures Counted(Next(s, Store(g)))
  {
    OneMore(s.registered);
    forall h: Gpu | h != g ensures Next(s, Store(g)).listeners[h].Reading? {
      assert s.listeners[h].Reading?;
    }
  }

  lemma OneMore(n: nat)
    ensures (n % MAX_CONTROLLER_COUNT + 1) % MAX_CONTROLLER_COUNT == (n + 1) % MAX_CONTROLLER_COUNT
  {
  }

  lemma OtherKeepsCounted(s: World, e: Event)
    requires Counted(s) && Enabled(s, e) && e.Other?
    ensures Counted(Next(s, e))
  {
    OthersKeepPids(s.table, e.e);
  }

  predicate OneUsed(s: World) {
    forall g, h :: g in s.used && h in s.used ==> g == h
  }

  lemma StepKeepsCounted(s: World, e: Event)
    requires Counted(s) && Enabled(s, e) && OneUsed(Next(s, e))
    ensures Counted(Next(s, e))
  {
    match e {
      case Store(g) => StoreKeepsCounted(s, g);
      case Other(_) => OtherKeepsCounted(s, e);
      case Listen(_) => ListenerKeepsCounted(s, e);
      case ReadErr(_) => ListenerKeepsCounted(s, e);
      case Assign(_) => ListenerKeepsCounted(s, e);
      case Load(_) => ListenerKeepsCounted(s, e);
      case _ => ClientKeepsCounted(s, e);
    }
  }

  lemma {:induction false} RunIsCounted(s: World, es: seq<Event>)
    requires Counted(s) && IsRun(s, es) && OneUsed(After(s, es))
    ensures Counted(After(s, es))
  {
    if es != [] {
      var front, e := es[..|es| - 1], es[|es| - 1];
      UsedGrows(After(s, front), e);
      RunIsCounted(s, front);
      StepKeepsCounted(After(s, front), e);
    }
  }

  /** While processes ask for one GPU only, the count is the number of registrations modulo 500. */
  lemma CountIsRegistrations(s: World, es: seq<Event>)
    requires Init(s) && IsRun(s, es) && |After(s, es).used| <= 1
    ensures After(s, es).table.count == After(s, es).registered % MAX_CONTROLLER_COUNT
  {
    InitIsCounted(s);
    AtMostOne(After(s, es).used);
    RunIsCounted(s, es);
  }

  /** A control thread that is looking for a slot does nothing at all exactly when the number of
      registrations is a multiple of 500: none yet, or the ring has come round. */
  lemma StallsIff(s: World, es: seq<Event>, g: Gpu)
    requires Init(s) && IsRun(s, es) && |After(s, es).used| <= 1 && After(s, es).table.turns[g] == Idle
    ensures ScanStep(After(s, es).table, g) == After(s, es).table <==>
            After(s, es).registered % MAX_CONTROLLER_COUNT == 0
  {
    CountIsRegistrations(s, es);
    ScanDoesNothingIff(After(s, es).table, g);
  }

  lemma ScanDoesNothingIff(t: FairShare.State, g: Gpu)
    requires t.Valid() && t.turns[g] == Idle
    ensures ScanStep(t, g) == t <==> t.count == 0
  {
    if t.count != 0 {
      if Dispatches(t.slots[t.heads[g]], g) {
        assert ScanStep(t, g).turns[g].Picked?;
      } else {
        assert ScanStep(t, g).heads[g] != t.heads[g];
      }
    }
  }

  // ---------- two listeners at once ----------

  /** Two listeners write the same slot and count once: process 1 is asleep, has been told that it was
      added, and is in no slot. */
  lemma LostRegistration(s: World) returns (t: World)
    requires Init(s) && Exists(s, 2)
    ensures Reaches(s, t) && t.used == {0, 1} && |t.clients| == |s.clients|
    ensures t.registered == 2 && t.table.count == 1
    ensures t.clients[1].reported && t.clients[1].returned == 1 && t.clients[1].alarms == 1
    ensures !Known(t.table.slots, PidOf, 1)
  {
    Start(s);
    EmptyHasNobody(s, 1, 0);
    Talk(s, s, 1, 0);
    var u := Talked(s, 1, 0);
    Hear(s, u, 1, 0);
    var v := SecondProcess(s, Heard(u, 1, 0));
    t := BothAtOnce(s, v);
  }

  /** While listener 0 is about to write process 1, process 2 gets as far with listener 1. */
  lemma SecondProcess(s: World, t: World) returns (v: World)
    requires Reaches(s, t) && Ready(t, 2, 1) && t.clients[2].answers == [] && t.listeners[0] == Registering(1, 1, 0)
    ensures Reaches(s, v) && Shape(v) && v.table == t.table && v.registered == t.registered
    ensures v.used == t.used + {1} && |v.clients| == |t.clients| && v.holder == t.holder && v.fifos == t.fifos
    ensures v.clients[1] == t.clients[1]
    ensures v.listeners[0] == Registering(1, 1, 0) && v.listeners[1] == Registering(2, 1, 0)
  {
    Talk(s, t, 2, 1);
    var u := Talked(t, 2, 1);
    Hear(s, u, 2, 1);
    v := Heard(u, 2, 1);
  }

  /** Both listeners make their assignments, all to the same slot. */
  lemma BothWrite(s: World, v: World) returns (b: World)
    requires Reaches(s, v) && Shape(v) && v.table == EmptyTable() && v.registered == 0
    requires v.listeners[0] == Registering(1, 1, 0) && v.listeners[1] == Registering(2, 1, 0)
    ensures Reaches(s, b) && Shape(b) && b.table.count == 0 && b.registered == 0
    ensures b.clients == v.clients && b.used == v.used && b.holder == v.holder && b.fifos == v.fifos
    ensures b.listeners[0] == Registering(1, 1, REGISTRATION_FIELDS)
    ensures b.listeners[1] == Registering(2, 1, REGISTRATION_FIELDS)
    ensures b.table == Assigned(Assigned(EmptyTable(), REGISTRATION_FIELDS, 1, 0, 1), REGISTRATION_FIELDS, 2, 1, 1)
  {
    WriteAll(s, v, 0, 1);
    var a := Written(v, 0, 1, REGISTRATION_FIELDS);
    WriteAll(s, a, 1, 2);
    b := Written(a, 1, 2, REGISTRATION_FIELDS);
  }

  lemma SecondOverwrites(table: FairShare.State)
    requires table == Assigned(Assigned(EmptyTable(), REGISTRATION_FIELDS, 1, 0, 1), REGISTRATION_FIELDS, 2, 1, 1)
    ensures table.turns == EmptyTable().turns && !Known(table.slots, PidOf, 1)
  {
    var first := Assigned(EmptyTable(), REGISTRATION_FIELDS, 1, 0, 1);
    AssignedOnlyAtCount(EmptyTable(), REGISTRATION_FIELDS, 1, 0, 1);
    AssignedOnlyAtCount(first, REGISTRATION_FIELDS, 2, 1, 1);
    forall i | 0 <= i < |table.slots| ensures PidOf(table.slots[i]) != 1 {
      assert i > 0 ==> table.slots[i] == EMPTY;
    }
  }

  /** Listener 0 registers process 1 while listener 1 registers process 2. */
  lemma BothAtOnce(s: World, v: World) returns (t: World)
    requires Reaches(s, v) && Shape(v) && v.table == EmptyTable() && v.registered == 0
    requires v.listeners[0] == Registering(1, 1, 0) && v.listeners[1] == Registering(2, 1, 0)
    ensures Reaches(s, t) && t.clients == v.clients && t.used == v.used && t.holder == v.holder && t.fifos == v.fifos
    ensures Shape(t) && t.listeners[0].Reading? && t.listeners[1].Reading? && t.table.turns == v.table.turns
    ensures t.registered == 2 && t.table.count == 1
    ensures !Known(t.table.slots, PidOf, 1)
  {
    var b := BothWrite(s, v);
    SecondOverwrites(b.table);
    t := CountBoth(s, b);
  }

  lemma CountBoth(s: World, b: World) returns (t: World)
    requires Reaches(s, b) && Shape(b) && b.table.count == 0 && b.registered == 0
    requires b.listeners[0] == Registering(1, 1, REGISTRATION_FIELDS)
    requires b.listeners[1] == Registering(2, 1, REGISTRATION_FIELDS)
    ensures Reaches(s, t) && t.clients == b.clients && t.used == b.used && t.holder == b.holder && t.fifos == b.fifos
    ensures Shape(t) && t.listeners[0].Reading? && t.listeners[1].Reading?
    ensures t.table.slots == b.table.slots && t.table.turns == b.table.turns
    ensures t.registered == 2 && t.table.count == 1
  {
    Step(s, b, Load(0));
    var c := Next(b, Load(0));
    Step(s, c, Load(1));
    var d := Next(c, Load(1));
    Step(s, d, Store(0));
    var e := Next(d, Store(0));
    Step(s, e, Store(1));
    t := Next(e, Store(1));
  }

  /** No run in which processes ask for at most n GPUs makes the count differ from the number of
      registrations modulo 500. */
  ghost predicate CountExact(n: nat) {
    forall s, t :: Init(s) && Reaches(s, t) && |t.used| <= n ==>
      t.table.count == t.registered % MAX_CONTROLLER_COUNT
  }

  lemma CountExactIff(n: nat)
    ensures CountExact(n) <==> n <= 1
  {
    if n <= 1 {
      forall s, t | Init(s) && Reaches(s, t) && |t.used| <= n
        ensures t.table.count == t.registered % MAX_CONTROLLER_COUNT
      {
        var es :| IsRun(s, es) && After(s, es) == t;
        CountIsRegistrations(s, es);
      }
    } else {
      var t := LostRegistration(Fresh(2));
    }
  }
}
