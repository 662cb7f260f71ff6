/** When a process that adds itself to the fair-share scheduler gets an answer. */
module FairShareReturns {
  import opened SchedCommons
  import opened FairShare
  import opened FairShareRuns
  import opened FairShareHandshake
  import opened FairShareExchange
  import opened FairShareCounting

  /** A process is neither asleep nor dead while its signals are blocked, and up to the call that unblocks
      them they are. */
  predicate Masking(c: Client) {
    && (c.sig.masked ==> !c.sig.asleep && !c.sig.dead)
    && (c.phase.Entered? || c.phase.Requested? || c.phase.Answered? ==> c.sig.masked)
    && (c.phase.Unblocked? || c.phase.Installed? ==> !c.sig.masked)
  }

  /** Who is inside fs_add_queue holds the semaphore; its request is in one FIFO at most, and answered with
      one signal number at most. */
  ghost predicate Queued(s: World) {
    && Shape(s)
    && (forall p :: 0 <= p < |s.clients| ==> Masking(s.clients[p]))
    && (forall p :: 0 <= p < |s.clients| && !s.clients[p].phase.Outside? ==> s.holder == p && p != INVALID_PROCESS)
    && (forall p :: 0 <= p < |s.clients| && s.clients[p].offers > 0 ==>
          s.clients[p].phase.Requested? && s.clients[p].offers == 1)
    && (forall g, k :: 0 <= g < NUM_GPUS && 0 <= k < |s.fifos[g]| && s.fifos[g][k].AddQ? ==>
          Unanswered(s, s.fifos[g][k].pid, g))
    && (forall g, j, k :: 0 <= g < NUM_GPUS && 0 <= j < k < |s.fifos[g]| && s.fifos[g][j].AddQ? ==>
          !s.fifos[g][k].AddQ?)
  }

  predicate Unanswered(s: World, p: int, g: int) {
    Exists(s, p) && s.clients[p].phase.Requested? && s.clients[p].phase.g == g && s.clients[p].offers == 0
  }

  lemma InitIsQueued(s: World)
    requires Init(s)
    ensures Queued(s)
  {
  }

  lemma RequestKeepsQueued(s: World, e: Event)
    requires Queued(s) && Enabled(s, e) && (e.Enter? || e.Request? || e.Leave?)
    ensures Queued(Next(s, e))
  {
  }

  lemma AnswerKeepsQueued(s: World, e: Event)
    requires Queued(s) && Enabled(s, e) && (e.ReadSignum? || e.Unblock? || e.Install? || e.Report?)
    ensures Queued(Next(s, e))
  {
    assert s.holder == e.pid;
  }

  lemma ListenKeepsQueued(s: World, g: Gpu)
    requires Queued(s) && Enabled(s, Listen(g))
    ensures Queued(Next(s, Listen(g)))
  {
    var t, m := Next(s, Listen(g)), s.fifos[g][0];
    assert m.AddQ? ==> Unanswered(s, m.pid, g);
    forall h, k | 0 <= h < NUM_GPUS && 0 <= k < |t.fifos[h]| && t.fifos[h][k].AddQ?
      ensures Unanswered(t, t.fifos[h][k].pid, h)
    {
      assert t.fifos[h][k] == s.fifos[h][if h == g then k + 1 else k];
      assert Unanswered(s, t.fifos[h][k].pid, h);
    }
  }

  /** What Queued is about. */
  predicate SameCalls(s: World, t: World) {
    && t.fifos == s.fifos && t.holder == s.holder && |t.clients| == |s.clients|
    && forall p :: 0 <= p < |t.clients| ==>
         t.clients[p].phase == s.clients[p].phase && t.clients[p].offers == s.clients[p].offers
  }

  lemma SameCallsQueued(s: World, t: World)
    requires Queued(s) && Shape(t) && SameCalls(s, t)
    requires forall p :: 0 <= p < |t.clients| ==> Masking(t.clients[p])
    ensures Queued(t)
  {
    forall g, k | 0 <= g < NUM_GPUS && 0 <= k < |t.fifos[g]| && t.fifos[g][k].AddQ?
      ensures Unanswered(t, t.fifos[g][k].pid, g)
    {
      assert Unanswered(s, t.fifos[g][k].pid, g);
    }
  }

  lemma ActKeepsCalls(s: World, p: nat, o: Own)
    requires Queued(s) && Enabled(s, Act(p, o))
    ensures SameCalls(s, Next(s, Act(p, o)))
    ensures forall q :: 0 <= q < |s.clients| ==> Masking(Next(s, Act(p, o)).clients[q])
  {
  }

  lemma OtherKeepsCalls(s: World, e: Event)
    requires Queued(s) && Enabled(s, e) && (e.ReadErr? || e.Assign? || e.Load? || e.Store? || e.Other?)
    ensures SameCalls(s, Next(s, e))
    ensures forall p :: 0 <= p < |s.clients| ==> Masking(Next(s, e).clients[p])
  {
  }

  lemma OtherKeepsQueued(s: World, e: Event)
    requires Queued(s) && Enabled(s, e) && (e.ReadErr? || e.Assign? || e.Load? || e.Store? || e.Other? || e.Act?)
    ensures Queued(Next(s, e))
  {
    match e {
      case Act(p, o) => ActKeepsCalls(s, p, o);
      case _ => OtherKeepsCalls(s, e);
    }
    SameCallsQueued(s, Next(s, e));
  }

  lemma {:induction false} StepKeepsQueued(s: World, e: Event)
    requires Queued(s) && Enabled(s, e)
    ensures Queued(Next(s, e))
  {
    match e {
      case Enter(_, _) => RequestKeepsQueued(s, e);
      case Request(_, _) => RequestKeepsQueued(s, e);
      case Leave(_, _) => RequestKeepsQueued(s, e);
      case ReadSignum(_) => AnswerKeepsQueued(s, e);
      case Unblock(_) => AnswerKeepsQueued(s, e);
      case Install(_, _) => AnswerKeepsQueued(s, e);
      case Report(_) => AnswerKeepsQueued(s, e);
      case Listen(g) => ListenKeepsQueued(s, g);
      case _ => OtherKeepsQueued(s, e);
    }
  }

  lemma {:induction false} RunIsQueued(s: World, es: seq<Event>)
    requires Queued(s) && IsRun(s, es)
    ensures Queued(After(s, es))
  {
    if es != [] {
      RunIsQueued(s, es[..|es| - 1]);
      StepKeepsQueued(After(s, es[..|es| - 1]), es[|es| - 1]);
    }
  }

  /** The process waits for a signal number that nobody will send. */
  ghost predicate Stuck(s: World, p: nat) {
    && Shape(s) && Exists(s, p) && s.holder == p && s.clients[p].phase.Requested? && s.clients[p].offers == 0
    && forall g, k :: 0 <= g < NUM_GPUS && 0 <= k < |s.fifos[g]| && s.fifos[g][k].AddQ? ==> s.fifos[g][k].pid != p
  }

  lemma StepKeepsStuck(s: World, e: Event, p: nat)
    requires Queued(s) && Stuck(s, p) && Enabled(s, e)
    ensures Stuck(Next(s, e), p) && Next(s, e).clients[p].returned == s.clients[p].returned
  {
    var t := Next(s, e);
    StepKeepsClients(s, e);
    forall g, k | 0 <= g < NUM_GPUS && 0 <= k < |t.fifos[g]| && t.fifos[g][k].AddQ? ensures t.fifos[g][k].pid != p {
      if t.fifos[g][k] in s.fifos[g] {
        var j :| 0 <= j < |s.fifos[g]| && s.fifos[g][j] == t.fifos[g][k];
      }
    }
  }

  /** It waits for ever, and with the semaphore, so that nobody else gets in either. */
  lemma {:induction false} StuckForEver(s: World, es: seq<Event>, p: nat)
    requires Queued(s) && Stuck(s, p) && IsRun(s, es)
    ensures Stuck(After(s, es), p) && After(s, es).clients[p].returned == s.clients[p].returned
  {
    if es != [] {
      var front := es[..|es| - 1];
      StuckForEver(s, front, p);
      RunIsQueued(s, front);
      StepKeepsStuck(After(s, front), es[|es| - 1], p);
    }
  }

  /** Some continuation completes a call of fs_add_queue. */
  ghost predicate MayReturn(s: World, p: nat)
    requires Shape(s) && Exists(s, p)
  {
    exists es :: IsRun(s, es) && Exists(After(s, es), p) && After(s, es).clients[p].returned > s.clients[p].returned
  }

  lemma OfferIsTaken(s: World, p: nat)
    requires Shape(s) && Exists(s, p) && s.clients[p].phase.Requested? && s.clients[p].offers > 0
    requires Masking(s.clients[p]) && !s.clients[p].sig.alarm && s.clients[p].sig.queued == 0
    ensures MayReturn(s, p)
  {
    Extend(s, [], ReadSignum(p));
    Extend(s, [] + [ReadSignum(p)], Unblock(p));
    Extend(s, [] + [ReadSignum(p)] + [Unblock(p)], Install(p, 0));
    Extend(s, [] + [ReadSignum(p)] + [Unblock(p)] + [Install(p, 0)], Report(p));
  }

  // ---------- signals that come first ----------

  /** In fs_add_queue, before its handlers are installed. */
  predicate Installing(s: World, p: nat)
    requires Exists(s, p)
  {
    var c := s.clients[p];
    (c.phase.Requested? || c.phase.Answered? || c.phase.Unblocked?) && Masking(c)
  }

  /** A SIGSCHED has been queued while it was blocked: it will terminate the process. */
  predicate Shot(s: World, p: nat) {
    Exists(s, p) && Installing(s, p) && s.clients[p].sig.queued > 0 && !s.clients[p].sig.asleep
  }

  lemma StepKeepsShot(s: World, e: Event, p: nat)
    requires Shape(s) && Shot(s, p) && Enabled(s, e)
    ensures Shot(Next(s, e), p) && Next(s, e).clients[p].returned == s.clients[p].returned
  {
    StepKeepsClients(s, e);
  }

  lemma {:induction false} ShotForEver(s: World, es: seq<Event>, p: nat)
    requires Shape(s) && Shot(s, p) && IsRun(s, es)
    ensures Shot(After(s, es), p) && After(s, es).clients[p].returned == s.clients[p].returned
  {
    if es != [] {
      ShotForEver(s, es[..|es| - 1], p);
      StepKeepsShot(After(s, es[..|es| - 1]), es[|es| - 1], p);
    }
  }

  predicate Holds(t: Turn, p: nat) {
    (t.Picked? || t.Running?) && t.pid == p
  }

  predicate Registers(l: Listener, p: nat) {
    (l.Registering? || l.Counting?) && l.pid == p
  }

  /** Nobody is going to wake the process: it is in no slot and no control thread has read its pid; no
      listener is registering it, nor will one before it answers. */
  ghost predicate Unclaimed(s: World, p: nat)
    requires Shape(s) && Exists(s, p)
  {
    && s.clients[p].answers == []
    && (forall i :: 0 <= i < |s.table.slots| ==> s.table.slots[i].pid != p)
    && (forall g: Gpu :: !Holds(s.table.turns[g], p) && !Registers(s.listeners[g], p))
  }

  /** A SIGALRM is pending that will put the process to sleep as soon as it is unblocked, or it sleeps. */
  ghost predicate Forgotten(s: World, p: nat) {
    && Shape(s) && Exists(s, p) && Installing(s, p) && Unclaimed(s, p)
    && s.clients[p].sig.queued == 0 && (s.clients[p].sig.alarm || s.clients[p].sig.asleep || s.clients[p].sig.dead)
  }

  lemma ListenKeepsForgotten(s: World, g: Gpu, p: nat)
    requires Forgotten(s, p) && Enabled(s, Listen(g))
    ensures Forgotten(Next(s, Listen(g)), p) && Next(s, Listen(g)).clients[p].returned == s.clients[p].returned
  {
    StepKeepsClients(s, Listen(g));
  }

  lemma ReadErrKeepsForgotten(s: World, g: Gpu, p: nat)
    requires Forgotten(s, p) && Enabled(s, ReadErr(g))
    ensures Forgotten(Next(s, ReadErr(g)), p) && Next(s, ReadErr(g)).clients[p].returned == s.clients[p].returned
  {
    StepKeepsClients(s, ReadErr(g));
    assert s.listeners[g].pid != p;
  }

  lemma WriteKeepsForgotten(s: World, e: Event, p: nat)
    requires Forgotten(s, p) && Enabled(s, e) && (e.Assign? || e.Load? || e.Store?)
    ensures Forgotten(Next(s, e), p) && Next(s, e).clients[p].returned == s.clients[p].returned
  {
    assert !Registers(s.listeners[e.g], p);
  }

  lemma OtherKeepsForgotten(s: World, e: TableEvent, p: nat)
    requires Forgotten(s, p) && Enabled(s, Other(e))
    ensures Forgotten(Next(s, Other(e)), p) && Next(s, Other(e)).clients[p].returned == s.clients[p].returned
  {
    var t := Next(s, Other(e));
    StepKeepsClients(s, Other(e));
    OthersKeepPids(s.table, e);
    assert Woken(s.table, e) != p by {
      if e.Wake? {
        assert !Holds(s.table.turns[e.g], p);
      }
    }
    forall g: Gpu ensures !Holds(t.table.turns[g], p) {
      assert TurnFrom(s.table, g, t.table.turns[g]) && !Holds(s.table.turns[g], p);
    }
  }

  lemma ClientKeepsForgotten(s: World, e: Event, p: nat)
    requires Forgotten(s, p) && Enabled(s, e)
    requires !e.Listen? && !e.ReadErr? && !e.Assign? && !e.Load? && !e.Store? && !e.Other?
    ensures Forgotten(Next(s, e), p) && Next(s, e).clients[p].returned == s.clients[p].returned
  {
    StepKeepsClients(s, e);
  }

  lemma StepKeepsForgotten(s: World, e: Event, p: nat)
    requires Forgotten(s, p) && Enabled(s, e)
    ensures Forgotten(Next(s, e), p) && Next(s, e).clients[p].returned == s.clients[p].returned
  {
    match e {
      case Other(t) => OtherKeepsForgotten(s, t, p);
      case Listen(g) => ListenKeepsForgotten(s, g, p);
      case ReadErr(g) => ReadErrKeepsForgotten(s, g, p);
      case Assign(_) => WriteKeepsForgotten(s, e, p);
      case Load(_) => WriteKeepsForgotten(s, e, p);
      case Store(_) => WriteKeepsForgotten(s, e, p);
      case _ => ClientKeepsForgotten(s, e, p);
    }
  }

  lemma {:induction false} ForgottenForEver(s: World, es: seq<Event>, p: nat)
    requires Forgotten(s, p) && IsRun(s, es)
    ensures Forgotten(After(s, es), p) && After(s, es).clients[p].returned == s.clients[p].returned
  {
    if es != [] {
      ForgottenForEver(s, es[..|es| - 1], p);
      StepKeepsForgotten(After(s, es[..|es| - 1]), es[|es| - 1], p);
    }
  }

  // ---------- the three cases ----------

  /** Once its request is taken, a process whose pid is in a slot never returns; one whose pid is in no slot
      and which no signal is waiting for may; and one that nobody is still registering may only then. */
  lemma ReturnsIff(s: World, g: Gpu, p: nat)
    requires Queued(s) && Enabled(s, Listen(g)) && s.fifos[g][0].AddQ? && s.fifos[g][0].pid == p
    ensures Exists(s, p) && Exists(Next(s, Listen(g)), p)
    ensures Known(s.table.slots, PidOf, p) || s.clients[p].sig.queued > 0 ==> !MayReturn(Next(s, Listen(g)), p)
    ensures !Known(s.table.slots, PidOf, p) && !s.clients[p].sig.alarm && s.clients[p].sig.queued == 0 ==>
              MayReturn(Next(s, Listen(g)), p)
    ensures Unclaimed(s, p) ==>
              (MayReturn(Next(s, Listen(g)), p) <==> !s.clients[p].sig.alarm && s.clients[p].sig.queued == 0)
  {
    assert Unanswered(s, p, g);
    ListenKeepsQueued(s, g);
    if Known(s.table.slots, PidOf, p) {
      KnownNeverReturns(s, g, p);
    } else if s.clients[p].sig.queued > 0 {
      ShotNeverReturns(s, g, p);
    } else if !s.clients[p].sig.alarm {
      OfferIsTaken(Next(s, Listen(g)), p);
    } else if Unclaimed(s, p) {
      ForgottenNeverReturns(s, g, p);
    }
    if Unclaimed(s, p) {
      NobodyKnows(s, p);
    }
  }

  lemma NobodyKnows(s: World, p: nat)
    requires Shape(s) && Exists(s, p) && Unclaimed(s, p)
    ensures !Known(s.table.slots, PidOf, p)
  {
  }

  lemma KnownNeverReturns(s: World, g: Gpu, p: nat)
    requires Queued(s) && Enabled(s, Listen(g)) && s.fifos[g][0].AddQ? && s.fifos[g][0].pid == p
    requires Known(s.table.slots, PidOf, p)
    ensures Exists(Next(s, Listen(g)), p) && !MayReturn(Next(s, Listen(g)), p)
  {
    var t := Next(s, Listen(g));
    ListenKeepsQueued(s, g);
    NoOtherRequest(s, g);
    forall es | IsRun(t, es)
      ensures Exists(After(t, es), p) && After(t, es).clients[p].returned == t.clients[p].returned
    {
      StuckForEver(t, es, p);
    }
  }

  lemma ShotNeverReturns(s: World, g: Gpu, p: nat)
    requires Queued(s) && Enabled(s, Listen(g)) && s.fifos[g][0].AddQ? && s.fifos[g][0].pid == p
    requires !Known(s.table.slots, PidOf, p) && s.clients[p].sig.queued > 0
    ensures Exists(Next(s, Listen(g)), p) && !MayReturn(Next(s, Listen(g)), p)
  {
    var t := Next(s, Listen(g));
    assert Unanswered(s, p, g) && Masking(s.clients[p]);
    forall es | IsRun(t, es)
      ensures Exists(After(t, es), p) && After(t, es).clients[p].returned == t.clients[p].returned
    {
      ShotForEver(t, es, p);
    }
  }

  lemma ForgottenNeverReturns(s: World, g: Gpu, p: nat)
    requires Queued(s) && Enabled(s, Listen(g)) && s.fifos[g][0].AddQ? && s.fifos[g][0].pid == p
    requires Unclaimed(s, p) && s.clients[p].sig.alarm && s.clients[p].sig.queued == 0
    ensures Exists(Next(s, Listen(g)), p) && !MayReturn(Next(s, Listen(g)), p)
  {
    var t := Next(s, Listen(g));
    assert Unanswered(s, p, g) && Masking(s.clients[p]);
    NobodyKnows(s, p);
    assert Forgotten(t, p);
    forall es | IsRun(t, es)
      ensures Exists(After(t, es), p) && After(t, es).clients[p].returned == t.clients[p].returned
    {
      ForgottenForEver(t, es, p);
    }
  }

  lemma NoOtherRequest(s: World, g: Gpu)
    requires Queued(s) && Enabled(s, Listen(g)) && s.fifos[g][0].AddQ?
    requires Known(s.table.slots, PidOf, s.fifos[g][0].pid)
    ensures Stuck(Next(s, Listen(g)), s.fifos[g][0].pid)
  {
    var t, p := Next(s, Listen(g)), s.fifos[g][0].pid;
    assert Unanswered(s, p, g) && s.holder == p;
    forall h, k | 0 <= h < NUM_GPUS && 0 <= k < |t.fifos[h]| && t.fifos[h][k].AddQ? ensures t.fifos[h][k].pid != p {
      assert t.fifos[h][k] == s.fifos[h][if h == g then k + 1 else k];
      assert h != g ==> t.fifos[h][k].pid == p ==> Unanswered(s, p, h);
    }
  }

  // ---------- a process in no slot that never returns ----------

  /** Process 1 is told that it was added, its signals are blocked while it executes another request, and its
      registration is lost. Then it asks again. */
  lemma LostNeverReturns(s: World) returns (t: World)
    requires Init(s) && Exists(s, 2)
    ensures Reaches(s, t) && Shape(t) && Enabled(t, Listen(0)) && t.fifos[0][0] == AddQ(1, 1)
    ensures Exists(t, 1) && !Known(t.table.slots, PidOf, 1)
    ensures Exists(Next(t, Listen(0)), 1) && !MayReturn(Next(t, Listen(0)), 1)
  {
    var u := LostWhileMasked(s);
    t := AsksAgain(s, u);
    QueuedHere(s, t);
    NobodyKnows(t, 1);
    ForgottenNeverReturns(t, 0, 1);
  }

  lemma QueuedHere(s: World, t: World)
    requires Init(s) && Reaches(s, t)
    ensures Queued(t)
  {
    var es :| IsRun(s, es) && After(s, es) == t;
    InitIsQueued(s);
    RunIsQueued(s, es);
  }

  lemma AsksAgain(s: World, u: World) returns (t: World)
    requires Reaches(s, u) && Shape(u) && Exists(u, 1) && Unclaimed(u, 1) && u.holder == INVALID_PROCESS
    requires u.clients[1].phase.Outside? && u.clients[1].sig == QUIET.(masked := true, alarm := true)
    requires u.listeners[0].Reading? && u.fifos[0] == []
    ensures Reaches(s, t) && Shape(t) && Enabled(t, Listen(0)) && t.fifos[0][0] == AddQ(1, 1)
    ensures Exists(t, 1) && Unclaimed(t, 1) && t.clients[1].sig == u.clients[1].sig
  {
    Step(s, u, Enter(1, 0));
    var v := Next(u, Enter(1, 0));
    Step(s, v, Request(1, 1));
    t := Next(v, Request(1, 1));
    assert [] + [AddQ(1, 1)] == [AddQ(1, 1)];
  }

  lemma LostWhileMasked(s: World) returns (u: World)
    requires Init(s) && Exists(s, 2)
    ensures Reaches(s, u) && Shape(u) && Exists(u, 1) && Unclaimed(u, 1) && u.holder == INVALID_PROCESS
    ensures u.clients[1].phase.Outside? && u.clients[1].sig == QUIET.(masked := true, alarm := true)
    ensures u.listeners[0].Reading? && u.fifos[0] == []
  {
    var b := AlarmWhileMasked(s);
    var v := SecondProcess(s, b);
    u := BothAtOnce(s, v);
    NobodyHasIt(u, 1);
  }

  lemma NobodyHasIt(u: World, p: nat)
    requires Shape(u) && Exists(u, p) && !Known(u.table.slots, PidOf, p) && u.clients[p].answers == []
    requires u.table.turns == EmptyTable().turns && u.listeners[0].Reading? && u.listeners[1].Reading?
    ensures Unclaimed(u, p)
  {
    forall i | 0 <= i < |u.table.slots| ensures u.table.slots[i].pid != p {
      assert PidOf(u.table.slots[i]) == u.table.slots[i].pid;
    }
  }

  lemma AlarmWhileMasked(s: World) returns (b: World)
    requires Init(s) && Exists(s, 2)
    ensures Reaches(s, b) && Ready(b, 2, 1) && b.clients[2].answers == [] && |b.clients| == |s.clients|
    ensures b.table == EmptyTable() && b.registered == 0 && b.listeners[0] == Registering(1, 1, 0) && b.fifos[0] == []
    ensures b.clients[1].phase.Outside? && b.clients[1].sig == QUIET.(masked := true, alarm := true)
    ensures b.clients[1].answers == []
  {
    Start(s);
    EmptyHasNobody(s, 1, 0);
    EmptyHasNobody(s, 2, 1);
    Talk(s, s, 1, 0);
    var t := Talked(s, 1, 0);
    Step(s, t, Act(1, Mask));
    var a := Next(t, Act(1, Mask));
    Hear(s, a, 1, 0);
    b := Heard(a, 1, 0);
  }
}
