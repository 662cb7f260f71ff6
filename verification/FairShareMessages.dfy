/** The handshake of FairShareHandshake by what each step does to each FIFO, process, listener and slot, and
    what has become of the answers of a process in every run. */
module FairShareMessages {
  import opened SchedCommons
  import opened FairShare
  import opened FairShareRuns
  import opened FairShareHandshake

  /** The listener of GPU g takes an answer of process p. */
  predicate Takes(s: World, e: Event, p: nat)
    requires Shape(s)
  {
    e.ReadErr? && s.listeners[e.g].Awaiting? && s.listeners[e.g].pid == p
  }

  predicate Offers(s: World, e: Event, p: nat)
    requires Shape(s)
  {
    && e.Listen? && s.fifos[e.g] != [] && s.fifos[e.g][0].AddQ? && s.fifos[e.g][0].pid == p
    && forall i :: 0 <= i < |s.table.slots| ==> s.table.slots[i].pid != p
  }

  lemma PidsAre(slots: seq<Slot>, p: int)
    ensures Known(slots, PidOf, p) <==> exists i :: 0 <= i < |slots| && slots[i].pid == p
  {
    assert forall i :: 0 <= i < |slots| ==> PidOf(slots[i]) == slots[i].pid;
  }

  /** The FIFO that a process writes err into is read by the listener that waits for it. */
  lemma AnswersChange(s: World, e: Event, p: nat)
    requires Shape(s) && Enabled(s, e) && p < |s.clients|
    ensures p < |Next(s, e).clients|
    ensures Next(s, e).clients[p].answers ==
            if e == Report(p) then s.clients[p].answers + [s.clients[p].phase.err]
            else if Takes(s, e, p) then s.clients[p].answers[1..]
            else s.clients[p].answers
  {
  }

  /** The one it reads is written by a listener whose table does not have it. */
  lemma OffersChange(s: World, e: Event, p: nat)
    requires Shape(s) && Enabled(s, e) && p < |s.clients|
    ensures p < |Next(s, e).clients|
    ensures Next(s, e).clients[p].offers ==
            if e == ReadSignum(p) then s.clients[p].offers - 1
            else if Offers(s, e, p) then s.clients[p].offers + 1
            else s.clients[p].offers
  {
    PidsAre(s.table.slots, p);
  }

  /** SIGALRM is sent to a process when the listener reads its success, SIGSCHED when the control thread that has
      picked it finds its slot active. */
  lemma SignalsSent(s: World, e: Event, p: nat)
    requires Shape(s) && Enabled(s, e) && 0 < p < |s.clients|
    ensures p < |Next(s, e).clients|
    ensures Next(s, e).clients[p].alarms == s.clients[p].alarms +
            if Takes(s, e, p) && s.clients[p].answers[0] == 0 then 1 else 0
    ensures Next(s, e).clients[p].wakes == s.clients[p].wakes +
            if e.Other? && e.e.Wake? && s.table.turns[e.e.g] == Picked(p) &&
               s.table.slots[s.table.heads[e.e.g]].state == Active then 1 else 0
    ensures Next(s, e).clients[p].wakes > s.clients[p].wakes ==>
              Next(s, e).clients[p].sig == s.clients[p].sig.(queued := s.clients[p].sig.queued + 1)
    ensures Next(s, e).clients[p].alarms > s.clients[p].alarms ==>
              Next(s, e).clients[p].sig == s.clients[p].sig.(alarm := true)
  {
  }

  /** A process goes through its call by its own steps alone. */
  lemma PhaseChanges(s: World, e: Event, p: nat)
    requires Shape(s) && Enabled(s, e) && p < |s.clients|
    ensures p < |Next(s, e).clients|
    ensures var c := s.clients[p];
            Next(s, e).clients[p].phase ==
            match e {
              case Enter(q, g) => if q == p then Entered(g) else c.phase
              case Request(q, _) => if q == p then Requested(c.phase.g) else c.phase
              case ReadSignum(q) => if q == p then Answered(c.phase.g) else c.phase
              case Unblock(q) => if q == p then Unblocked(c.phase.g) else c.phase
              case Install(q, err) => if q == p then Installed(c.phase.g, err) else c.phase
              case Report(q) => if q == p then Outside else c.phase
              case _ => c.phase
            }
    ensures Next(s, e).clients[p].returned == s.clients[p].returned + if e == Report(p) then 1 else 0
  {
  }

  /** What a process has asked for and whether it is ready. */
  lemma ReadinessChanges(s: World, e: Event, p: nat)
    requires Shape(s) && Enabled(s, e) && p < |s.clients|
    ensures p < |Next(s, e).clients|
    ensures var c, d := s.clients[p], Next(s, e).clients[p];
            && d.asked == c.asked + (if e.Request? && e.pid == p then {c.phase.g} else {})
            && (d.installed <==> c.installed || e == Install(p, 0))
            && (d.reported <==> c.reported || (e == Report(p) && c.phase.err == 0))
  {
  }

  /** What the handlers, the timer and the masks do to the signals of a process. */
  lemma OwnSteps(s: World, p: nat, o: Own)
    requires Shape(s) && Enabled(s, Act(p, o))
    ensures p < |Next(s, Act(p, o)).clients|
    ensures var c := s.clients[p].sig;
            Next(s, Act(p, o)).clients[p].sig ==
            match o {
              case Mask => Signals(true, c.alarm, c.queued, c.asleep, c.armed, c.dead)
              case Unmask => Signals(false, c.alarm, c.queued, c.asleep, c.armed, c.dead)
              case TakeAlarm => Signals(c.masked, false, c.queued, true, c.armed, c.dead)
              case Rouse => Signals(c.masked, c.alarm, c.queued - 1, false, true, c.dead)
              case Expire => Signals(c.masked, true, c.queued, c.asleep, false, c.dead)
              case Die => Signals(c.masked, c.alarm, c.queued, c.asleep, c.armed, true)
            }
  {
  }

  /** The FIFO of a GPU: requests go in at the end and are read from the front. */
  lemma FifoChanges(s: World, e: Event, g: Gpu)
    requires Shape(s) && Enabled(s, e)
    ensures Next(s, e).fifos[g] ==
            match e {
              case Request(p, share) =>
                if s.clients[p].phase.g == g then s.fifos[g] + [AddQ(p, share)] else s.fifos[g]
              case Leave(p, h) => if h == g then s.fifos[g] + [RemQ(p)] else s.fifos[g]
              case Listen(h) => if h == g then s.fifos[g][1..] else s.fifos[g]
              case _ => s.fifos[g]
            }
  {
  }

  /** The listener of a GPU moves by its own steps alone. */
  lemma ListenerChanges(s: World, e: Event, g: Gpu)
    requires Shape(s) && Enabled(s, e)
    ensures Next(s, e).listeners[g] ==
            match e {
              case Listen(h) =>
                var m := s.fifos[h][0];
                if h == g && m.AddQ? && (forall i :: 0 <= i < |s.table.slots| ==> s.table.slots[i].pid != m.pid)
                then Awaiting(m.pid, m.share) else s.listeners[g]
              case ReadErr(h) =>
                var l := s.listeners[g];
                if h != g then l
                else if s.clients[l.pid].answers[0] == 0 then Registering(l.pid, l.share, 0) else Reading
              case Assign(h) =>
                if h == g then Registering(s.listeners[g].pid, s.listeners[g].share, s.listeners[g].field + 1)
                else s.listeners[g]
              case Load(h) => if h == g then Counting(s.listeners[g].pid, s.table.count) else s.listeners[g]
              case Store(h) => if h == g then Reading else s.listeners[g]
              case _ => s.listeners[g]
            }
  {
    if e.Listen? {
      PidsAre(s.table.slots, s.fifos[e.g][0].pid);
    }
  }

  /** The table is written by registrations, assignment by assignment, by removals and by the other threads. */
  lemma TableChanges(s: World, e: Event)
    requires Shape(s) && Enabled(s, e)
    ensures Next(s, e).table ==
            match e {
              case Listen(g) =>
                if s.fifos[g][0].RemQ? then RemoveStep(s.table, s.fifos[g][0].pid, g) else s.table
              case Assign(g) =>
                var l := s.listeners[g];
                AssignStep(s.table,
                           if l.field == 0 then Pid(l.pid) else if l.field == 1 then Share(l.share)
                           else if l.field == 2 then Activate else if l.field == 3 then Forgive else Bind(g))
              case Store(g) => CountStep(s.table, s.listeners[g].seen + 1)
              case Other(t) => TableStep(s.table, t)
              case _ => s.table
            }
  {
  }

  /** What each assignment writes, into the slot that the count points to and nowhere else. */
  lemma AssignMeans(t: FairShare.State, f: Field)
    requires t.Valid()
    ensures var r, x := AssignStep(t, f), t.slots[t.count];
            && r == t.(slots := r.slots) && (forall i :: 0 <= i < |t.slots| && i != t.count ==> r.slots[i] == t.slots[i])
            && r.slots[t.count] ==
               match f {
                 case Pid(pid) => x.(pid := pid)
                 case Share(share) => x.(share := share)
                 case Activate => x.(state := Active)
                 case Forgive => x.(penalty := 0)
                 case Bind(gpu) => x.(gpu := gpu)
               }
  {
  }

  /** The semaphore is taken by Enter and given up by Report. */
  lemma HolderChanges(s: World, e: Event)
    requires Shape(s) && Enabled(s, e)
    ensures Next(s, e).holder ==
            match e {
              case Enter(p, _) => p
              case Report(_) => 0
              case _ => s.holder
            }
    ensures e.Enter? ==> s.holder == 0
  {
  }

  /** What a step adds to the answers of process p, and what it takes of them. */
  function Given(s: World, e: Event, p: nat): seq<int>
    requires Shape(s) && Enabled(s, e)
  {
    if e == Report(p) then [s.clients[p].phase.err] else []
  }

  function Got(s: World, e: Event, p: nat): seq<int>
    requires Shape(s) && Enabled(s, e)
  {
    if Takes(s, e, p) then [s.clients[p].answers[0]] else []
  }

  function Reported(s: World, es: seq<Event>, p: nat): seq<int>
    requires Shape(s) && IsRun(s, es)
  {
    if es == [] then []
    else
      var front := es[..|es| - 1];
      Reported(s, front, p) + Given(After(s, front), es[|es| - 1], p)
  }

  function Taken(s: World, es: seq<Event>, p: nat): seq<int>
    requires Shape(s) && IsRun(s, es)
  {
    if es == [] then []
    else
      var front := es[..|es| - 1];
      Taken(s, front, p) + Got(After(s, front), es[|es| - 1], p)
  }

  lemma AnswerStep(s: World, e: Event, p: nat)
    requires Shape(s) && Enabled(s, e) && p < |s.clients| == |Next(s, e).clients|
    ensures s.clients[p].answers + Given(s, e, p) == Got(s, e, p) + Next(s, e).clients[p].answers
  {
    AnswersChange(s, e, p);
  }

  /** Every answer is read at most once, none is lost, and they are read in the order in which the process gave
      them, whichever listeners read. */
  lemma {:induction false} AnswersConserved(s: World, es: seq<Event>, p: nat)
    requires Shape(s) && IsRun(s, es) && p < |s.clients|
    ensures p < |After(s, es).clients|
    ensures s.clients[p].answers + Reported(s, es, p) == Taken(s, es, p) + After(s, es).clients[p].answers
  {
    SameClients(s, es);
    if es != [] {
      var front, e := es[..|es| - 1], es[|es| - 1];
      SameClients(s, front);
      AnswersConserved(s, front, p);
      var t := After(s, front);
      AnswerStep(t, e, p);
      QueueStep(s.clients[p].answers, Reported(s, front, p), Taken(s, front, p), t.clients[p].answers,
                Given(t, e, p), Got(t, e, p), Next(t, e).clients[p].answers);
    }
  }

  lemma QueueStep(first: seq<int>, put: seq<int>, got: seq<int>, queue: seq<int>,
                  more: seq<int>, read: seq<int>, next: seq<int>)
    requires first + put == got + queue && queue + more == read + next
    ensures first + (put + more) == got + read + next
  {
    assert first + (put + more) == first + put + more;
    assert got + queue + more == got + (queue + more);
    assert got + (read + next) == got + read + next;
  }
}
