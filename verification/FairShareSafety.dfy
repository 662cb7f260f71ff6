/** No process is sent a signal by the fair-share scheduler before it has reported success. */
module FairShareSafety {
  import opened SchedCommons
  import opened FairShare
  import opened FairShareRuns
  import opened FairShareHandshake

  /** A pid that may be sent signals. */
  predicate Reported(s: World, p: int) {
    p == INVALID_PROCESS || (Exists(s, p) && s.clients[p].reported)
  }

  predicate ClientSafe(c: Client) {
    && (c.reported ==> c.installed)
    && (c.phase.Installed? && c.phase.err == 0 ==> c.installed)
    && (forall k :: 0 <= k < |c.answers| && c.answers[k] == 0 ==> c.reported)
    && (c.alarms > 0 || c.wakes > 0 ==> c.reported)
  }

  predicate ListenerSafe(s: World, l: Listener) {
    && (l.Awaiting? ==> Exists(s, l.pid))
    && (l.Registering? || l.Counting? ==> Exists(s, l.pid) && Reported(s, l.pid))
  }

  predicate TurnSafe(s: World, t: Turn) {
    t.Picked? || t.Running? ==> Reported(s, t.pid)
  }

  ghost predicate Safe(s: World) {
    && Shape(s)
    && (forall p :: 0 <= p < |s.clients| ==> ClientSafe(s.clients[p]))
    && (forall i :: 0 <= i < |s.table.slots| ==> Reported(s, s.table.slots[i].pid))
    && (forall g :: 0 <= g < NUM_GPUS ==> TurnSafe(s, s.table.turns[g]))
    && (forall g :: 0 <= g < NUM_GPUS ==> ListenerSafe(s, s.listeners[g]))
  }

  lemma OtherKeepsSafe(s: World, e: TableEvent)
    requires Safe(s) && Enabled(s, Other(e))
    ensures Safe(Next(s, Other(e)))
  {
    OthersKeepPids(s.table, e);
  }

  lemma ClientKeepsSafe(s: World, e: Event)
    requires Safe(s) && Enabled(s, e)
    requires e.Enter? || e.Request? || e.ReadSignum? || e.Unblock? || e.Install? || e.Report? || e.Leave? || e.Act?
    ensures Safe(Next(s, e))
  {
  }

  lemma ListenKeepsSafe(s: World, g: Gpu)
    requires Safe(s) && Enabled(s, Listen(g))
    ensures Safe(Next(s, Listen(g)))
  {
  }

  lemma ReadErrKeepsSafe(s: World, g: Gpu)
    requires Safe(s) && Enabled(s, ReadErr(g))
    ensures Safe(Next(s, ReadErr(g)))
  {
    assert ListenerSafe(s, s.listeners[g]) && ClientSafe(s.clients[s.listeners[g].pid]);
  }

  lemma AssignKeepsSafe(s: World, g: Gpu)
    requires Safe(s) && Enabled(s, Assign(g))
    ensures Safe(Next(s, Assign(g)))
  {
    assert ListenerSafe(s, s.listeners[g]);
  }

  lemma CountKeepsSafe(s: World, e: Event)
    requires Safe(s) && Enabled(s, e) && (e.Load? || e.Store?)
    ensures Safe(Next(s, e))
  {
    assert ListenerSafe(s, s.listeners[e.g]);
  }

  lemma StepKeepsSafe(s: World, e: Event)
    requires Safe(s) && Enabled(s, e)
    ensures Safe(Next(s, e))
  {
    match e {
      case Other(t) => OtherKeepsSafe(s, t);
      case Listen(g) => ListenKeepsSafe(s, g);
      case ReadErr(g) => ReadErrKeepsSafe(s, g);
      case Assign(g) => AssignKeepsSafe(s, g);
      case Load(_) => CountKeepsSafe(s, e);
      case Store(_) => CountKeepsSafe(s, e);
      case _ => ClientKeepsSafe(s, e);
    }
  }

  lemma {:induction false} RunIsSafe(s: World, es: seq<Event>)
    requires Safe(s) && IsRun(s, es)
    ensures Safe(After(s, es))
  {
    if es != [] {
      var front := es[..|es| - 1];
      RunIsSafe(s, front);
      StepKeepsSafe(After(s, front), es[|es| - 1]);
    }
  }

  lemma InitIsSafe(s: World)
    requires Init(s)
    ensures Safe(s)
  {
  }

  /** In every interleaving SIGALRM and SIGSCHED are sent only to processes whose handlers are installed and
      which have reported err == 0. */
  lemma {:induction false} SignalledOnlyReady(s: World, es: seq<Event>, p: nat)
    requires Init(s) && IsRun(s, es) && p < |After(s, es).clients|
    ensures var c := After(s, es).clients[p];
            c.alarms > 0 || c.wakes > 0 ==> c.installed && c.reported
  {
    InitIsSafe(s);
    RunIsSafe(s, es);
  }
}
