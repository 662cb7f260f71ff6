/** Runs in which processes add themselves one by one, to build counterexamples from. */
module FairShareExchange {
  import opened SchedCommons
  import opened FairShare
  import opened FairShareHandshake

  ghost predicate Reaches(s: World, t: World) {
    Shape(s) && exists es :: IsRun(s, es) && After(s, es) == t
  }

  lemma Start(s: World)
    requires Shape(s)
    ensures Reaches(s, s)
  {
    assert IsRun(s, []) && After(s, []) == s;
  }

  lemma Step(s: World, t: World, e: Event)
    requires Reaches(s, t) && Shape(t) && Enabled(t, e)
    ensures Reaches(s, Next(t, e))
  {
    var es :| IsRun(s, es) && After(s, es) == t;
    Extend(s, es, e);
  }

  /** Process p, which no signal has reached, may go through fs_add_queue for GPU g right now, and its pid is
      in no slot. */
  predicate Ready(t: World, p: nat, g: Gpu) {
    && Shape(t) && Exists(t, p) && t.holder == INVALID_PROCESS
    && t.clients[p].phase.Outside? && t.clients[p].offers == 0 && t.clients[p].sig == QUIET
    && t.listeners[g].Reading? && t.fifos[g] == []
    && !Known(t.table.slots, PidOf, p)
  }

  function AskingClient(c: Client, g: Gpu, offers: nat): Client {
    c.(phase := Requested(g), asked := c.asked + {g}, offers := offers, sig := QUIET.(masked := true))
  }

  /** The process has executed a request of its client up to writing its own to the listener. */
  function Requesting(t: World, p: nat, g: Gpu): (u: World)
    requires Ready(t, p, g)
    ensures Shape(u)
  {
    t.(clients := t.clients[p := AskingClient(t.clients[p], g, 0)], fifos := t.fifos[g := [AddQ(p, 1)]],
       holder := p, used := t.used + {g})
  }

  lemma RequestingIs(t: World, p: nat, g: Gpu)
    requires Ready(t, p, g)
    ensures Enabled(t, Act(p, Mask)) && Enabled(Next(t, Act(p, Mask)), Enter(p, g))
    ensures Enabled(Next(Next(t, Act(p, Mask)), Enter(p, g)), Request(p, 1))
    ensures Next(Next(Next(t, Act(p, Mask)), Enter(p, g)), Request(p, 1)) == Requesting(t, p, g)
  {
    var u := Next(t, Act(p, Mask));
    assert u.clients == t.clients[p := u.clients[p]];
    var v := Next(u, Enter(p, g));
    assert v.clients == t.clients[p := v.clients[p]];
    var w := Next(v, Request(p, 1));
    assert w.clients == t.clients[p := w.clients[p]];
    assert w.clients[p] == AskingClient(t.clients[p], g, 0);
    assert [] + [AddQ(p, 1)] == [AddQ(p, 1)];
  }

  /** The listener has taken the request. */
  function Asking(t: World, p: nat, g: Gpu): (u: World)
    requires Ready(t, p, g)
    ensures Shape(u)
  {
    t.(listeners := t.listeners[g := Awaiting(p, 1)], clients := t.clients[p := AskingClient(t.clients[p], g, 1)],
       holder := p, used := t.used + {g})
  }

  lemma AskingIs(t: World, p: nat, g: Gpu)
    requires Ready(t, p, g)
    ensures Enabled(Requesting(t, p, g), Listen(g))
    ensures Next(Requesting(t, p, g), Listen(g)) == Asking(t, p, g)
  {
    var u, c := Requesting(t, p, g), t.clients[p];
    assert u.fifos[g] == [AddQ(p, 1)] && u.fifos[g][1..] == t.fifos[g];
    assert u.fifos[g := u.fifos[g][1..]] == t.fifos;
    assert u.clients[p := Asking(t, p, g).clients[p]] == Asking(t, p, g).clients;
  }

  function TalkedClient(c: Client, g: Gpu): Client {
    c.(asked := c.asked + {g}, installed := true, reported := true, returned := c.returned + 1,
       answers := c.answers + [0], sig := QUIET)
  }

  /** The call has returned; the listener has yet to read the answer. */
  function Talked(t: World, p: nat, g: Gpu): (u: World)
    requires Ready(t, p, g)
    ensures Shape(u)
  {
    t.(listeners := t.listeners[g := Awaiting(p, 1)], clients := t.clients[p := TalkedClient(t.clients[p], g)],
       used := t.used + {g})
  }

  /** The client's steps from reading the signal number on. */
  function Answered4(u: World, p: nat): World
    requires Shape(u) && Enabled(u, ReadSignum(p))
    requires Enabled(Next(u, ReadSignum(p)), Unblock(p))
    requires Enabled(Next(Next(u, ReadSignum(p)), Unblock(p)), Install(p, 0))
    requires Enabled(Next(Next(Next(u, ReadSignum(p)), Unblock(p)), Install(p, 0)), Report(p))
  {
    Next(Next(Next(Next(u, ReadSignum(p)), Unblock(p)), Install(p, 0)), Report(p))
  }

  lemma AnswersEnabled(u: World, p: nat)
    requires Shape(u) && Exists(u, p) && u.clients[p].phase.Requested? && u.clients[p].offers > 0
    requires u.clients[p].sig == QUIET.(masked := true)
    ensures Enabled(u, ReadSignum(p))
    ensures Enabled(Next(u, ReadSignum(p)), Unblock(p))
    ensures Enabled(Next(Next(u, ReadSignum(p)), Unblock(p)), Install(p, 0))
    ensures Enabled(Next(Next(Next(u, ReadSignum(p)), Unblock(p)), Install(p, 0)), Report(p))
  {
  }

  lemma TalkedIs(t: World, p: nat, g: Gpu)
    requires Ready(t, p, g)
    ensures Exists(Asking(t, p, g), p) && Asking(t, p, g).clients[p] == AskingClient(t.clients[p], g, 1)
    ensures Enabled(Asking(t, p, g), ReadSignum(p))
    ensures Enabled(Next(Asking(t, p, g), ReadSignum(p)), Unblock(p))
    ensures Enabled(Next(Next(Asking(t, p, g), ReadSignum(p)), Unblock(p)), Install(p, 0))
    ensures Enabled(Next(Next(Next(Asking(t, p, g), ReadSignum(p)), Unblock(p)), Install(p, 0)), Report(p))
    ensures Answered4(Asking(t, p, g), p) == Talked(t, p, g)
  {
    var u := Asking(t, p, g);
    AnswersEnabled(u, p);
    var v := Next(u, ReadSignum(p));
    assert v.clients == t.clients[p := v.clients[p]];
    var w := Next(v, Unblock(p));
    assert w.clients == t.clients[p := w.clients[p]];
    var x := Next(w, Install(p, 0));
    assert x.clients == t.clients[p := x.clients[p]];
    var y := Next(x, Report(p));
    assert y.clients == t.clients[p := y.clients[p]];
    assert y.clients[p] == TalkedClient(t.clients[p], g);
  }

  lemma Request3(s: World, t: World, p: nat, g: Gpu)
    requires Reaches(s, t) && Ready(t, p, g)
    ensures Reaches(s, Asking(t, p, g))
  {
    RequestingIs(t, p, g);
    Step(s, t, Act(p, Mask));
    Step(s, Next(t, Act(p, Mask)), Enter(p, g));
    Step(s, Next(Next(t, Act(p, Mask)), Enter(p, g)), Request(p, 1));
    AskingIs(t, p, g);
    Step(s, Requesting(t, p, g), Listen(g));
  }

  /** A whole call of fs_add_queue that returns. */
  lemma Talk(s: World, t: World, p: nat, g: Gpu)
    requires Reaches(s, t) && Ready(t, p, g)
    ensures Reaches(s, Talked(t, p, g))
  {
    Request3(s, t, p, g);
    TalkedIs(t, p, g);
    var u := Asking(t, p, g);
    Step(s, u, ReadSignum(p));
    var v := Next(u, ReadSignum(p));
    Step(s, v, Unblock(p));
    var w := Next(v, Unblock(p));
    Step(s, w, Install(p, 0));
    Step(s, Next(w, Install(p, 0)), Report(p));
  }

  /** The listener reads the answer, sends SIGALRM, and is about to write the pid. */
  function Heard(t: World, p: nat, g: Gpu): (u: World)
    requires Shape(t) && Exists(t, p) && t.listeners[g] == Awaiting(p, 1) && t.clients[p].answers != []
    ensures Shape(u)
  {
    var c := t.clients[p];
    var d := c.(answers := c.answers[1..], alarms := c.alarms + 1, sig := c.sig.(alarm := true));
    t.(listeners := t.listeners[g := Registering(p, 1, 0)], clients := t.clients[p := d])
  }

  lemma HeardIs(t: World, p: nat, g: Gpu)
    requires Shape(t) && Exists(t, p) && t.listeners[g] == Awaiting(p, 1)
    requires t.clients[p].answers != [] && t.clients[p].answers[0] == 0
    ensures Enabled(t, ReadErr(g)) && Next(t, ReadErr(g)) == Heard(t, p, g)
  {
  }

  lemma Hear(s: World, t: World, p: nat, g: Gpu)
    requires Reaches(s, t) && Shape(t) && Exists(t, p) && t.listeners[g] == Awaiting(p, 1)
    requires t.clients[p].answers != [] && t.clients[p].answers[0] == 0
    ensures Reaches(s, Heard(t, p, g))
  {
    HeardIs(t, p, g);
    Step(s, t, ReadErr(g));
  }

  /** The listener has made its first k assignments. */
  function Written(t: World, g: Gpu, p: nat, k: nat): (u: World)
    requires Shape(t) && t.listeners[g] == Registering(p, 1, 0) && k <= REGISTRATION_FIELDS
    ensures Shape(u)
  {
    t.(listeners := t.listeners[g := Registering(p, 1, k)], table := Assigned(t.table, k, p, g, 1))
  }

  lemma WrittenNext(t: World, g: Gpu, p: nat, k: nat)
    requires Shape(t) && t.listeners[g] == Registering(p, 1, 0) && 0 < k <= REGISTRATION_FIELDS
    ensures Enabled(Written(t, g, p, k - 1), Assign(g))
    ensures Next(Written(t, g, p, k - 1), Assign(g)) == Written(t, g, p, k)
  {
    var u := Next(Written(t, g, p, k - 1), Assign(g));
    assert u.listeners == t.listeners[g := Registering(p, 1, k)];
    assert u.table == Assigned(t.table, k, p, g, 1);
  }

  lemma WrittenNone(t: World, g: Gpu, p: nat)
    requires Shape(t) && t.listeners[g] == Registering(p, 1, 0)
    ensures Written(t, g, p, 0) == t
  {
    assert t.listeners[g := Registering(p, 1, 0)] == t.listeners;
  }

  lemma WriteOne(s: World, t: World, g: Gpu, p: nat, j: nat, k: nat, u: World)
    requires Shape(t) && t.listeners[g] == Registering(p, 1, 0) && j + 1 == k <= REGISTRATION_FIELDS
    requires u == Written(t, g, p, j) && Reaches(s, u)
    ensures Reaches(s, Written(t, g, p, k))
  {
    WrittenNext(t, g, p, k);
    Step(s, u, Assign(g));
  }

  lemma WriteAll(s: World, t: World, g: Gpu, p: nat)
    requires Reaches(s, t) && Shape(t) && t.listeners[g] == Registering(p, 1, 0)
    ensures Reaches(s, Written(t, g, p, REGISTRATION_FIELDS))
  {
    WrittenNone(t, g, p);
    WriteOne(s, t, g, p, 0, 1, t);
    WriteOne(s, t, g, p, 1, 2, Written(t, g, p, 1));
    WriteOne(s, t, g, p, 2, 3, Written(t, g, p, 2));
    WriteOne(s, t, g, p, 3, 4, Written(t, g, p, 3));
    WriteOne(s, t, g, p, 4, 5, Written(t, g, p, 4));
  }

  /** The listener registers the process with no other listener in between. */
  function RegisteredNow(t: World, g: Gpu, p: nat): (u: World)
    requires Shape(t)
    ensures Shape(u)
  {
    t.(listeners := t.listeners[g := Reading], table := Register(t.table, p, g, 1), registered := t.registered + 1)
  }

  lemma RegisteredNowIs(t: World, g: Gpu, p: nat)
    requires Shape(t) && t.listeners[g] == Registering(p, 1, 0)
    ensures var u := Written(t, g, p, REGISTRATION_FIELDS);
            && Enabled(u, Load(g)) && Enabled(Next(u, Load(g)), Store(g))
            && Next(Next(u, Load(g)), Store(g)) == RegisteredNow(t, g, p)
  {
    var u := Written(t, g, p, REGISTRATION_FIELDS);
    AssignedOnlyAtCount(t.table, REGISTRATION_FIELDS, p, g, 1);
    RegisterIsAssignments(t.table, p, g, 1);
    var v := Next(Next(u, Load(g)), Store(g));
    assert v.listeners == t.listeners[g := Reading];
    assert v.table == Register(t.table, p, g, 1);
  }

  lemma RegisterNow(s: World, t: World, g: Gpu, p: nat)
    requires Reaches(s, t) && Shape(t) && t.listeners[g] == Registering(p, 1, 0)
    ensures Reaches(s, RegisteredNow(t, g, p))
  {
    WriteAll(s, t, g, p);
    RegisteredNowIs(t, g, p);
    var u := Written(t, g, p, REGISTRATION_FIELDS);
    Step(s, u, Load(g));
    Step(s, Next(u, Load(g)), Store(g));
  }

  /** The scheduler just started, with n processes yet to come. */
  function Fresh(n: nat): World {
    World(EmptyTable(), seq(NUM_GPUS, _ => Reading), seq(NUM_GPUS, _ => []), seq(n + 1, _ => NEWCOMER),
           INVALID_PROCESS, {}, 0)
  }

  lemma EmptyHasNobody(s: World, p: nat, g: Gpu)
    requires Init(s) && Exists(s, p)
    ensures Ready(s, p, g)
  {
    assert s.clients[p] == NEWCOMER;
  }
}
