/** What each step of CfsScheduler changes, and round-robin service by its control thread: while the listener does
    not step, whatever the clients do meanwhile, the slots are visited in turn, and each visit sends a process its
    two signals. */
module CfsRounds {
  import opened SchedCommons
  import opened CfsScheduler

  // ---------- what a step changes ----------

  /** Toggle signals: the listener sends the first, the control thread one at each end of a slice. */
  lemma SentChanges(s: State, e: Event, p: nat)
    requires Enabled(s, e) && 0 < p < |s.clients|
    ensures p < |Next(s, e).clients|
    ensures Next(s, e).clients[p].sent == s.clients[p].sent +
            match e {
              case ReadErr => if s.listener.pid == p && s.clients[p].phase.err == 0 then 1 else 0
              case Wake => if s.controller.pid == p then 1 else 0
              case EndSlice => if s.controller.pid == p then 1 else 0
              case _ => 0
            }
    ensures Next(s, e).clients[p].delivered == s.clients[p].delivered + if e == Deliver(p) then 1 else 0
  {
  }

  /** A client goes through add_queue by its own steps alone, and takes the signal number it is offered. */
  lemma PhaseChanges(s: State, e: Event, p: nat)
    requires Enabled(s, e) && p < |s.clients|
    ensures p < |Next(s, e).clients|
    ensures Next(s, e).clients[p].phase ==
            match e {
              case Enter(q) => if q == p then Entered else s.clients[p].phase
              case Write(q, _) => if q == p then Requested else s.clients[p].phase
              case ReadSignum(q) => if q == p then Answered(s.listener.signum) else s.clients[p].phase
              case Install(q, err) => if q == p then Installed(err) else s.clients[p].phase
              case Report(q) => if q == p then Added(s.clients[p].phase.err) else s.clients[p].phase
              case _ => s.clients[p].phase
            }
  {
  }

  /** Requests are read in the order in which they were written; the semaphore is held from Enter to Report. */
  lemma FifoChanges(s: State, e: Event)
    requires Enabled(s, e)
    ensures Next(s, e).fifo ==
            match e {
              case Write(p, share) => s.fifo + [AddQ(p, share)]
              case Leave(p) => s.fifo + [RemQ(p)]
              case Listen => s.fifo[1..]
              case _ => s.fifo
            }
    ensures Next(s, e).holder == match e { case Enter(p) => p case Report(_) => 0 case _ => s.holder }
  {
  }

  /** What the listener does once it has read err. */
  lemma AnswerMeans(s: State, pid: nat, signum: nat, share: nat)
    ensures s.listener == Listener.Awaiting(pid, signum, share) && Enabled(s, ReadErr) ==>
              Next(s, ReadErr).listener == if s.clients[pid].phase == Added(0)
                                           then Listener.Registering(pid, signum, share) else Reading
    ensures s.listener == Listener.Registering(pid, signum, share) ==>
              Next(s, Event.Register) == s.(slots := s.slots + [Slot(pid, share, signum, true)], listener := Reading)
  {
  }

  // ---------- visits ----------

  predicate ListenerStep(e: Event) {
    e.Listen? || e.ReadErr? || e.Register?
  }

  predicate Quiet(es: seq<Event>) {
    forall i :: 0 <= i < |es| ==> !ListenerStep(es[i])
  }

  /** The slots that the control thread looks at, one after the other. */
  function Visited(s: State, es: seq<Event>): seq<nat>
    requires IsRun(s, es)
    decreases |es|
  {
    if es == [] then []
    else (if es[0].Check? then [s.thid] else []) + Visited(Next(s, es[0]), es[1..])
  }

  predicate ServedAt(slot: Slot, p: nat) {
    slot.valid && slot.pid == p
  }

  /** How many of the first c visits find process p. */
  function Served(slots: seq<Slot>, c: nat, p: nat): nat
    requires slots != []
  {
    if c == 0 then 0
    else Served(slots, c - 1, p) + if ServedAt(slots[(c - 1) % |slots|], p) then 1 else 0
  }

  // ---------- where the control thread is ----------

  /** After c visits the control thread is about to make the next one, or at some point of the last one. */
  predicate Position(slots: seq<Slot>, c: nat, t: State)
    requires slots != []
  {
    var n := |slots|;
    match t.controller
    case Scanning => t.thid == c % n
    case Checked => c > 0 && t.thid == (c - 1) % n && slots[t.thid].valid
    case Loaded(pid, _) => c > 0 && t.thid == (c - 1) % n && ServedAt(slots[t.thid], pid)
    case Slice(pid, _) => c > 0 && t.thid == c % n && ServedAt(slots[(c - 1) % n], pid)
  }

  /** The visits that are over. */
  function Finished(c: nat, t: State): nat {
    if t.controller.Scanning? || c == 0 then c else c - 1
  }

  /** Two signals for each visit that is over, and one for the slice that is not. */
  predicate Signalled(slots: seq<Slot>, before: seq<Client>, done: nat, t: State)
    requires slots != []
  {
    && |t.clients| == |before|
    && forall p :: 0 <= p < |before| ==>
         t.clients[p].sent == before[p].sent + 2 * Served(slots, done, p) + if InSlice(t, p) then 1 else 0
  }

  predicate Tracks(slots: seq<Slot>, before: seq<Client>, c: nat, t: State) {
    && slots != [] && t.slots == slots
    && (forall i :: 0 <= i < |slots| && slots[i].valid ==> slots[i].pid != INVALID_PROCESS)
    && Position(slots, c, t) && Signalled(slots, before, Finished(c, t), t)
  }

  lemma NextIndex(k: nat, n: nat)
    requires n > 0
    ensures (k + 1) % n == if k % n + 1 == n then 0 else k % n + 1
    ensures (k + 1) / n == if k % n + 1 == n then k / n + 1 else k / n
  {
    var q, r := k / n, k % n;
    assert k + 1 == q * n + (r + 1);
    if r + 1 == n {
      assert k + 1 == (q + 1) * n;
      Quotient(k + 1, n, q + 1, 0);
    } else {
      Quotient(k + 1, n, q, r + 1);
    }
  }

  lemma Quotient(m: nat, n: nat, q: nat, r: nat)
    requires m == q * n + r && r < n
    ensures m % n == r && m / n == q
  {
    assert (m / n - q) * n == r - m % n;
    Multiple(m / n - q, n);
    Multiple(q - m / n, n);
  }

  lemma Multiple(x: int, n: nat)
    ensures x >= 1 ==> x * n >= n
  {
    if x >= 1 {
      assert x * n == n + (x - 1) * n;
    }
  }

  /** How the control thread moves on: to the next slot, and from the last one to the first. */
  lemma AdvanceMeans(s: State)
    requires s.thid < |s.slots|
    ensures Advance(s) == if s.thid + 1 == |s.slots| then 0 else s.thid + 1
  {
  }

  lemma CheckTracks(slots: seq<Slot>, before: seq<Client>, c: nat, t: State)
    requires Tracks(slots, before, c, t) && Enabled(t, Check)
    ensures t.thid == c % |slots| && Tracks(slots, before, c + 1, Next(t, Check))
  {
    NextIndex(c, |slots|);
  }

  lemma WakeTracks(slots: seq<Slot>, before: seq<Client>, c: nat, t: State, e: Event)
    requires Tracks(slots, before, c, t) && Enabled(t, e) && (e.Load? || e.Wake?)
    ensures Tracks(slots, before, c, Next(t, e))
  {
    NextIndex(c - 1, |slots|);
  }

  lemma EndTracks(slots: seq<Slot>, before: seq<Client>, c: nat, t: State)
    requires Tracks(slots, before, c, t) && Enabled(t, EndSlice)
    ensures Tracks(slots, before, c, Next(t, EndSlice))
  {
  }

  lemma OthersTrack(slots: seq<Slot>, before: seq<Client>, c: nat, t: State, e: Event)
    requires Tracks(slots, before, c, t) && Enabled(t, e) && !ListenerStep(e)
    requires !e.Check? && !e.Load? && !e.Wake? && !e.EndSlice?
    ensures Tracks(slots, before, c, Next(t, e))
  {
  }

  lemma StepTracks(slots: seq<Slot>, before: seq<Client>, c: nat, t: State, e: Event)
    requires Tracks(slots, before, c, t) && Enabled(t, e) && !ListenerStep(e)
    ensures Tracks(slots, before, if e.Check? then c + 1 else c, Next(t, e))
    ensures e.Check? ==> t.thid == c % |slots|
  {
    match e {
      case Check => CheckTracks(slots, before, c, t);
      case EndSlice => EndTracks(slots, before, c, t);
      case Load => WakeTracks(slots, before, c, t, e);
      case Wake => WakeTracks(slots, before, c, t, e);
      case _ => OthersTrack(slots, before, c, t, e);
    }
  }

  lemma {:induction false} RunTracks(slots: seq<Slot>, before: seq<Client>, c: nat, t: State, es: seq<Event>)
    requires Tracks(slots, before, c, t) && IsRun(t, es) && Quiet(es)
    ensures Tracks(slots, before, c + |Visited(t, es)|, After(t, es))
    ensures forall k :: 0 <= k < |Visited(t, es)| ==> Visited(t, es)[k] == (c + k) % |slots|
    decreases |es|
  {
    if es != [] {
      StepTracks(slots, before, c, t, es[0]);
      RunTracks(slots, before, if es[0].Check? then c + 1 else c, Next(t, es[0]), es[1..]);
    }
  }

  // ---------- rounds ----------

  /** The control thread is about to look at slot 0 of some slots. */
  ghost predicate AtFirst(s: State) {
    Inv(s) && s.controller == Scanning && s.thid == 0 && |s.slots| > 0
  }

  lemma AtFirstTracks(s: State)
    requires AtFirst(s)
    ensures Tracks(s.slots, s.clients, 0, s)
  {
    forall i | 0 <= i < |s.slots| && s.slots[i].valid ensures s.slots[i].pid != INVALID_PROCESS {
      assert SlotOk(s, i);
    }
  }

  /** Visit k is to slot k modulo their number: every slot once and in order, then again from the first. */
  lemma RoundRobin(s: State, es: seq<Event>)
    requires AtFirst(s) && IsRun(s, es) && Quiet(es)
    ensures forall k :: 0 <= k < |Visited(s, es)| ==> Visited(s, es)[k] == k % |s.slots|
    ensures After(s, es).slots == s.slots
  {
    AtFirstTracks(s);
    RunTracks(s.slots, s.clients, 0, s, es);
  }

  /** The slot is at p's turn in each round, and nothing else is. */
  predicate OnlySlot(slots: seq<Slot>, i: nat, p: nat) {
    i < |slots| && ServedAt(slots[i], p) && forall j :: 0 <= j < |slots| && ServedAt(slots[j], p) ==> j == i
  }

  /** Once for each round that is over, and once more from its turn in the round that is not. */
  lemma {:induction false} ServedInTurn(slots: seq<Slot>, c: nat, i: nat, p: nat)
    requires OnlySlot(slots, i, p)
    ensures Served(slots, c, p) == TurnsIn(c, |slots|, i)
  {
    if c > 0 {
      ServedInTurn(slots, c - 1, i, p);
      TurnOf(c - 1, |slots|, i);
    }
  }

  function TurnsIn(c: nat, n: nat, i: nat): nat
    requires n > 0
  {
    c / n + if i < c % n then 1 else 0
  }

  lemma TurnOf(k: nat, n: nat, i: nat)
    requires i < n
    ensures TurnsIn(k + 1, n, i) == TurnsIn(k, n, i) + if k % n == i then 1 else 0
  {
    NextIndex(k, n);
  }

  lemma {:induction false} NobodyServed(slots: seq<Slot>, c: nat, p: nat)
    requires slots != [] && forall i :: 0 <= i < |slots| ==> !ServedAt(slots[i], p)
    ensures Served(slots, c, p) == 0
  {
    if c > 0 {
      NobodyServed(slots, c - 1, p);
    }
  }

  lemma SentByTracks(slots: seq<Slot>, before: seq<Client>, c: nat, t: State, p: nat)
    requires Tracks(slots, before, c, t) && t.controller == Scanning && p < |before|
    ensures p < |t.clients| && t.clients[p].sent == before[p].sent + 2 * Served(slots, c, p)
    ensures t.thid == c % |slots|
  {
  }

  lemma SlotsAreOnly(s: State, i: nat, p: nat)
    requires Inv(s) && i < |s.slots| && s.slots[i].valid && s.slots[i].pid == p
    ensures OnlySlot(s.slots, i, p) && p < |s.clients|
  {
    assert SlotOk(s, i);
    assert PidOf(s.slots[i]) == p;
    forall j | 0 <= j < |s.slots| && ServedAt(s.slots[j], p) ensures j == i {
      assert PidOf(s.slots[j]) == p;
    }
  }

  /** After v visits the process in slot i has been sent two signals for each whole round, and two more if its turn in
      the round that is not over has been. So any two processes are served equally often, but for one slice. */
  lemma SlicesInTurn(s: State, es: seq<Event>, i: nat, p: nat, v: nat)
    requires AtFirst(s) && IsRun(s, es) && Quiet(es) && v == |Visited(s, es)| && After(s, es).controller == Scanning
    requires i < |s.slots| && s.slots[i].valid && s.slots[i].pid == p
    ensures p < |s.clients| == |After(s, es).clients|
    ensures After(s, es).clients[p].sent ==
            s.clients[p].sent + 2 * (v / |s.slots|) + if i < v % |s.slots| then 2 else 0
    ensures After(s, es).thid == v % |s.slots|
  {
    AtFirstTracks(s);
    RunTracks(s.slots, s.clients, 0, s, es);
    SlotsAreOnly(s, i, p);
    SentByTracks(s.slots, s.clients, v, After(s, es), p);
    ServedInTurn(s.slots, v, i, p);
  }

  /** A process in no valid slot is sent nothing. */
  lemma OthersGetNothing(s: State, es: seq<Event>, p: nat)
    requires AtFirst(s) && IsRun(s, es) && Quiet(es) && After(s, es).controller == Scanning && p < |s.clients|
    requires forall i :: 0 <= i < |s.slots| ==> !(s.slots[i].valid && s.slots[i].pid == p)
    ensures p < |After(s, es).clients| && After(s, es).clients[p].sent == s.clients[p].sent
  {
    AtFirstTracks(s);
    RunTracks(s.slots, s.clients, 0, s, es);
    SentByTracks(s.slots, s.clients, |Visited(s, es)|, After(s, es), p);
    NobodyServed(s.slots, |Visited(s, es)|, p);
  }

  /** In one round every process in a valid slot is sent exactly two signals, and no other any. */
  lemma TwoSignalsEach(s: State, es: seq<Event>, p: nat)
    requires AtFirst(s) && IsRun(s, es) && Quiet(es) && p < |s.clients|
    requires |Visited(s, es)| == |s.slots| && After(s, es).controller == Scanning
    ensures After(s, es).thid == 0 && p < |After(s, es).clients|
    ensures After(s, es).clients[p].sent == s.clients[p].sent +
            if exists i :: 0 <= i < |s.slots| && s.slots[i].valid && s.slots[i].pid == p then 2 else 0
  {
    RoundEnds(s, es, |s.slots|);
    SelfQuotient(|s.slots|);
    if i :| 0 <= i < |s.slots| && s.slots[i].valid && s.slots[i].pid == p {
      SlicesInTurn(s, es, i, p, |s.slots|);
    } else {
      OthersGetNothing(s, es, p);
    }
  }

  lemma SelfQuotient(n: nat)
    requires n > 0
    ensures n / n == 1 && n % n == 0
  {
  }

  lemma RoundEnds(s: State, es: seq<Event>, v: nat)
    requires AtFirst(s) && IsRun(s, es) && Quiet(es) && v == |Visited(s, es)| && After(s, es).controller == Scanning
    ensures After(s, es).thid == v % |s.slots|
  {
    AtFirstTracks(s);
    RunTracks(s.slots, s.clients, 0, s, es);
  }

  // ---------- the control thread does not stop ----------

  predicate ControlStep(e: Event) {
    e.Check? || e.Load? || e.Wake? || e.EndSlice?
  }

  /** While there are slots the control thread can always go on. */
  lemma ControlGoesOn(s: State) returns (e: Event)
    requires Inv(s) && |s.slots| > 0
    ensures ControlStep(e) && Enabled(s, e)
  {
    match s.controller {
      case Scanning => e := Check;
      case Checked => e := Load;
      case Loaded(_, _) => e := Wake;
      case Slice(_, _) => e := EndSlice;
    }
  }

  function ControlSteps(es: seq<Event>): nat {
    if es == [] then 0 else (if ControlStep(es[0]) then 1 else 0) + ControlSteps(es[1..])
  }

  /** The steps left of a visit. */
  function Left(c: Controller): nat {
    match c
    case Scanning => 0
    case Checked => 3
    case Loaded(_, _) => 2
    case Slice(_, _) => 1
  }

  /** A visit takes it at most four steps: in 4 * n steps from slot 0 it has been to every slot. */
  lemma {:induction false} FourStepsAVisit(s: State, es: seq<Event>)
    requires IsRun(s, es)
    ensures ControlSteps(es) <= 4 * |Visited(s, es)| + Left(s.controller)
    decreases |es|
  {
    if es != [] {
      FourStepsAVisit(Next(s, es[0]), es[1..]);
    }
  }
}
