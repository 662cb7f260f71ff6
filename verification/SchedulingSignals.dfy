/** The signals that hand one GPU from process to process: SIGSCHED from the control thread wakes a
    process, the process's end-of-interval signal wakes the control thread, and the pager borrows
    victims in between. One state per GPU. */
module SchedulingSignals {

  /** `Entering` is a process in the handler of SIGALRM that has signalled the scheduler but does not wait yet,
      `Resleeping` one in the handler of SIGVTALRM up to its wait, `Asleep` one in either wait. `PagingOut` is
      a process that has answered SIGPAGE and runs on only until SIGVTALRM reaches it. Nothing handles
      SIGSCHED: a process that it reaches outside sigwaitinfo is terminated. */
  datatype Mode = Executing | Entering | Resleeping | Asleep | PagingOut | Terminated

  /** `wakes` counts queued SIGSCHED; `page` and `vtalrm` say that SIGPAGE or SIGVTALRM is pending, `paging`
      that the pager has had the answer to SIGPAGE but not yet sent SIGVTALRM, and `mark` whose slot it has
      marked meanwhile. */
  datatype Process = Process(
    mode: Mode,
    wakes: nat,
    page: bool,
    paging: bool,
    vtalrm: bool,
    schedulable: bool,
    mark: nat)

  const NEWCOMER := Process(Executing, 0, false, false, false, true, 0)

  /** `posted` and `notices` are SIGRTMAX and SIGPAGE queued at the scheduler process; its redirection
      handlers turn them into `ended` and `paged`, queued at the control thread. */
  datatype State = State(
    procs: seq<Process>,
    posted: nat,
    notices: nat,
    ended: nat,
    paged: nat,
    waiting: bool,
    current: nat,
    registrations: nat)

  const INIT := State([], 0, 0, 0, 0, false, 0, 0)

  datatype Event =
    | Register
    | Expire(i: nat)
    | Settle(i: nat)
    | Redirect
    | RedirectPaging
    | Dispatch(i: nat)
    | Wake(i: nat)
    | Terminate(i: nat)
    | Receive
    | ReceivePaging
    | SendPage(i: nat, k: nat)
    | AnswerPage(i: nat)
    | PageEntry(i: nat)
    | FinishPage(i: nat)
    | Resleep(i: nat)

  predicate Enabled(s: State, e: Event) {
    match e
    case Register => true
    // SIGALRM is blocked wherever SIGSCHED is, so a wake that is pending terminates the process first
    case Expire(i) => i < |s.procs| && s.procs[i].mode == Executing && s.procs[i].wakes == 0
    // SIGVTALRM may be handled while SIGSCHED is blocked, and the wait takes a wake that is pending then
    case Settle(i) =>
      i < |s.procs| && (s.procs[i].mode == Resleeping || (s.procs[i].mode == Entering && s.procs[i].wakes == 0))
    case Redirect => s.posted > 0
    case RedirectPaging => s.notices > 0
    case Dispatch(i) => i < |s.procs| && s.procs[i].schedulable && !s.waiting
    case Wake(i) => i < |s.procs| && s.procs[i].mode == Asleep && s.procs[i].wakes > 0
    case Terminate(i) =>
      i < |s.procs| && s.procs[i].wakes > 0 && s.procs[i].mode != Asleep && s.procs[i].mode != Terminated
    case Receive => s.waiting && s.ended > 0
    // sigwaitinfo takes the lowest-numbered signal first
    case ReceivePaging => s.waiting && s.ended == 0 && s.paged > 0 && s.current < |s.procs|
    // a victim without an active slot gets the signal too, but slot 0 is marked, whoever is in it
    case SendPage(i, k) => i < |s.procs| && !s.procs[i].page && (s.procs[i].schedulable ==> k == i)
    case AnswerPage(i) =>
      && i < |s.procs| && s.procs[i].page
      && (s.procs[i].mode == Executing || (s.procs[i].mode == Asleep && s.procs[i].wakes == 0))
    case PageEntry(i) =>
      && i < |s.procs| && s.procs[i].page
      && (s.procs[i].mode == Entering || s.procs[i].mode == Resleeping || s.procs[i].mode == PagingOut)
    case FinishPage(i) => i < |s.procs| && s.procs[i].paging
    case Resleep(i) => i < |s.procs| && s.procs[i].vtalrm && s.procs[i].mode != Terminated
  }

  function Put(s: State, i: nat, p: Process): State
    requires i < |s.procs|
  {
    s.(procs := s.procs[i := p])
  }

  /** The pager marks the slot of process k, if it is one of this GPU's. */
  function Mark(s: State, k: nat, schedulable: bool): State {
    if k < |s.procs| then Put(s, k, s.procs[k].(schedulable := schedulable)) else s
  }

  function Next(s: State, e: Event): State
    requires Enabled(s, e)
  {
    match e
    // the listener sends SIGALRM to the new process, which is executing until its handler is entered
    case Register => s.(procs := s.procs + [NEWCOMER], registrations := s.registrations + 1)
    // SIGALRM, from the listener or the interval timer: sigschedulehandler signals the scheduler
    case Expire(i) => Put(s, i, s.procs[i].(mode := Entering)).(posted := s.posted + 1)
    case Settle(i) => Put(s, i, s.procs[i].(mode := Asleep))
    case Redirect => s.(posted := s.posted - 1, ended := s.ended + 1)
    case RedirectPaging => s.(notices := s.notices - 1, paged := s.paged + 1)
    // a signal to a terminated process is lost
    case Dispatch(i) =>
      var wakes := if s.procs[i].mode == Terminated then 0 else s.procs[i].wakes + 1;
      Put(s, i, s.procs[i].(wakes := wakes)).(waiting := true, current := i)
    case Wake(i) => Put(s, i, s.procs[i].(mode := Executing, wakes := s.procs[i].wakes - 1))
    case Terminate(i) =>
      Put(s, i, s.procs[i].(mode := Terminated, wakes := 0, page := false, paging := false, vtalrm := false))
    case Receive => s.(ended := s.ended - 1, waiting := false)
    case ReceivePaging => Mark(s, s.current, false).(paged := s.paged - 1, waiting := false)
    case SendPage(i, k) => Mark(Put(s, i, s.procs[i].(page := true, mark := k)), k, false)
    // an executing victim enters sigpage_handler, which signals the scheduler; a sleeping one is woken
    // inside its own handler and signals nobody
    case AnswerPage(i) =>
      var notices := if s.procs[i].mode == Executing then s.notices + 1 else s.notices;
      Put(s, i, s.procs[i].(mode := PagingOut, page := false, paging := true)).(notices := notices)
    // sigpage_handler interrupts another handler before its wait
    case PageEntry(i) =>
      Put(s, i, s.procs[i].(page := false, paging := true)).(notices := s.notices + 1)
    case FinishPage(i) => Mark(Put(s, i, s.procs[i].(vtalrm := true, paging := false)), s.procs[i].mark, true)
    // SIGVTALRM: sigvtalarm_handler goes to sleep without signalling the scheduler
    case Resleep(i) => Put(s, i, s.procs[i].(mode := Resleeping, vtalrm := false))
  }

  /** Who may be dispatched: the control thread strikes out the process it dispatched last when that answers
      SIGPAGE, the pager strikes out the slot it marks, and puts the same slot back when it is done. */
  lemma SchedulableChanges(s: State, e: Event, j: nat)
    requires Enabled(s, e) && j < |s.procs|
    ensures j < |Next(s, e).procs|
    ensures Next(s, e).procs[j].schedulable ==
            match e {
              case ReceivePaging => s.procs[j].schedulable && j != s.current
              case SendPage(_, k) => s.procs[j].schedulable && j != k
              case FinishPage(i) => s.procs[j].schedulable || j == s.procs[i].mark
              case _ => s.procs[j].schedulable
            }
  {
  }

  /** The slot that a victim's paging has marked. */
  lemma MarkChanges(s: State, e: Event, j: nat)
    requires Enabled(s, e) && j < |s.procs|
    ensures j < |Next(s, e).procs|
    ensures Next(s, e).procs[j].mark == if e.SendPage? && j == e.i then e.k else s.procs[j].mark
  {
  }

  /** SIGSCHED: one for each dispatch of a process that is not terminated, taken by the wait or with the process. */
  lemma WakesChange(s: State, e: Event, j: nat)
    requires Enabled(s, e) && j < |s.procs|
    ensures j < |Next(s, e).procs|
    ensures Next(s, e).procs[j].wakes ==
            match e {
              case Dispatch(i) =>
                if j != i then s.procs[j].wakes
                else if s.procs[j].mode == Terminated then 0 else s.procs[j].wakes + 1
              case Wake(i) => if j == i then s.procs[j].wakes - 1 else s.procs[j].wakes
              case Terminate(i) => if j == i then 0 else s.procs[j].wakes
              case _ => s.procs[j].wakes
            }
  {
  }

  /** What a process is doing changes by its own steps alone. */
  lemma ModeChanges(s: State, e: Event, j: nat)
    requires Enabled(s, e) && j < |s.procs|
    ensures j < |Next(s, e).procs|
    ensures Next(s, e).procs[j].mode ==
            match e {
              case Expire(i) => if j == i then Entering else s.procs[j].mode
              case Settle(i) => if j == i then Asleep else s.procs[j].mode
              case Wake(i) => if j == i then Executing else s.procs[j].mode
              case Terminate(i) => if j == i then Terminated else s.procs[j].mode
              case AnswerPage(i) => if j == i then PagingOut else s.procs[j].mode
              case Resleep(i) => if j == i then Resleeping else s.procs[j].mode
              case _ => s.procs[j].mode
            }
  {
  }

  /** End-of-interval signals: who posts them, which hop they are on, and who takes them. */
  lemma SignalsChange(s: State, e: Event)
    requires Enabled(s, e)
    ensures var t := Next(s, e);
            && t.posted == s.posted + (if e.Expire? then 1 else 0) - (if e.Redirect? then 1 else 0)
            && t.ended == s.ended + (if e.Redirect? then 1 else 0) - (if e.Receive? then 1 else 0)
            && t.notices == s.notices - (if e.RedirectPaging? then 1 else 0)
                            + (if e.PageEntry? || (e.AnswerPage? && s.procs[e.i].mode == Executing) then 1 else 0)
            && t.paged == s.paged + (if e.RedirectPaging? then 1 else 0) - (if e.ReceivePaging? then 1 else 0)
            && (t.waiting <==> e.Dispatch? || (s.waiting && !e.Receive? && !e.ReceivePaging?))
            && t.current == if e.Dispatch? then e.i else s.current
  {
  }

  /** SIGPAGE is pending from the pager's send to the victim's handler, or to its end. */
  lemma PageChanges(s: State, e: Event, j: nat)
    requires Enabled(s, e) && j < |s.procs|
    ensures j < |Next(s, e).procs|
    ensures Next(s, e).procs[j].page ==
            match e {
              case SendPage(i, _) => j == i || s.procs[j].page
              case AnswerPage(i) => j != i && s.procs[j].page
              case PageEntry(i) => j != i && s.procs[j].page
              case Terminate(i) => j != i && s.procs[j].page
              case _ => s.procs[j].page
            }
  {
  }

  /** The pager waits for a victim from its handler to SIGVTALRM. */
  lemma PagingChanges(s: State, e: Event, j: nat)
    requires Enabled(s, e) && j < |s.procs|
    ensures j < |Next(s, e).procs|
    ensures Next(s, e).procs[j].paging ==
            match e {
              case AnswerPage(i) => j == i || s.procs[j].paging
              case PageEntry(i) => j == i || s.procs[j].paging
              case FinishPage(i) => j != i && s.procs[j].paging
              case Terminate(i) => j != i && s.procs[j].paging
              case _ => s.procs[j].paging
            }
  {
  }

  /** SIGVTALRM is pending from the pager's send to the victim's handler, or to its end. */
  lemma VtalrmChanges(s: State, e: Event, j: nat)
    requires Enabled(s, e) && j < |s.procs|
    ensures j < |Next(s, e).procs|
    ensures Next(s, e).procs[j].vtalrm ==
            match e {
              case FinishPage(i) => j == i || s.procs[j].vtalrm
              case Resleep(i) => j != i && s.procs[j].vtalrm
              case Terminate(i) => j != i && s.procs[j].vtalrm
              case _ => s.procs[j].vtalrm
            }
  {
  }

  predicate IsRun(s: State, es: seq<Event>)
    decreases |es|
  {
    es != [] ==> Enabled(s, es[0]) && IsRun(Next(s, es[0]), es[1..])
  }

  function After(s: State, es: seq<Event>): State
    requires IsRun(s, es)
    decreases |es|
  {
    if es == [] then s else After(Next(s, es[0]), es[1..])
  }

  /** The process whose answer ends the wait is the one dispatched last, in every run. */
  lemma {:induction false} CurrentIsLastDispatched(s: State, es: seq<Event>, k: nat)
    requires IsRun(s, es) && k < |es| && es[k].Dispatch? && forall j :: k < j < |es| ==> !es[j].Dispatch?
    ensures After(s, es).current == es[k].i
    decreases |es|
  {
    if k > 0 {
      CurrentIsLastDispatched(Next(s, es[0]), es[1..], k - 1);
    } else {
      CurrentKept(Next(s, es[0]), es[1..]);
    }
  }

  lemma {:induction false} CurrentKept(s: State, es: seq<Event>)
    requires IsRun(s, es) && forall j :: 0 <= j < |es| ==> !es[j].Dispatch?
    ensures After(s, es).current == s.current
    decreases |es|
  {
    if es != [] {
      SignalsChange(s, es[0]);
      CurrentKept(Next(s, es[0]), es[1..]);
    }
  }

  // ---------- conservation ----------

  function Weight(p: Process): nat {
    p.wakes + if p.mode == Executing then 1 else 0
  }

  /** Processes executing, plus wakes on their way to processes. */
  function Claims(procs: seq<Process>): nat {
    if procs == [] then 0 else Weight(procs[0]) + Claims(procs[1..])
  }

  function ExecutingCount(procs: seq<Process>): nat {
    if procs == [] then 0 else (if procs[0].mode == Executing then 1 else 0) + ExecutingCount(procs[1..])
  }

  lemma {:induction false} ClaimsUpdate(procs: seq<Process>, i: nat, p: Process)
    requires i < |procs|
    ensures Claims(procs[i := p]) == Claims(procs) - Weight(procs[i]) + Weight(p)
  {
    if i > 0 {
      ClaimsUpdate(procs[1..], i - 1, p);
      assert procs[i := p][1..] == procs[1..][i - 1 := p];
    } else {
      assert procs[i := p][1..] == procs[1..];
    }
  }

  lemma {:induction false} ClaimsAppend(procs: seq<Process>, p: Process)
    ensures Claims(procs + [p]) == Claims(procs) + Weight(p)
  {
    if procs == [] {
      assert (procs + [p])[1..] == [];
    } else {
      ClaimsAppend(procs[1..], p);
      assert (procs + [p])[1..] == procs[1..] + [p];
    }
  }

  lemma {:induction false} ExecutingAreClaims(procs: seq<Process>)
    ensures ExecutingCount(procs) <= Claims(procs) && ExecutingCount(procs) <= |procs|
  {
    if procs != [] {
      ExecutingAreClaims(procs[1..]);
    }
  }

  /** End-of-interval signals, on either hop and of either kind. */
  function Signals(s: State): nat {
    s.posted + s.notices + s.ended + s.paged
  }

  /** Claims to the GPU and signals in flight, beyond the one the control thread is waiting out. */
  function Surplus(s: State): int {
    Claims(s.procs) + Signals(s) - if s.waiting then 1 else 0
  }

  /** What a step adds to the sum: a registration, and a SIGPAGE that a process answers in a handler, when it
      has no claim to give up. */
  function Extra(e: Event): nat {
    if e.Register? || e.PageEntry? then 1 else 0
  }

  /** What a step takes out of the sum: a termination the claims of the process, a dispatch of a terminated
      process the wake that the control thread then waits for in vain, and a SIGVTALRM that finds its
      process executing the signal it will not send. */
  function Loss(s: State, e: Event): nat
    requires Enabled(s, e)
  {
    match e
    case Terminate(i) => Weight(s.procs[i])
    case Dispatch(i) => if s.procs[i].mode == Terminated then 1 + s.procs[i].wakes else 0
    case Resleep(i) => if s.procs[i].mode == Executing then 1 else 0
    case _ => 0
  }

  lemma MarkKeepsClaims(s: State, k: nat, schedulable: bool)
    ensures Claims(Mark(s, k, schedulable).procs) == Claims(s.procs)
  {
    if k < |s.procs| {
      ClaimsUpdate(s.procs, k, s.procs[k].(schedulable := schedulable));
    }
  }

  /** The steps that change one process. */
  lemma ProcessStepConserves(s: State, e: Event)
    requires Enabled(s, e) && (e.Expire? || e.Settle? || e.Wake? || e.Terminate? || e.Dispatch?)
    ensures Surplus(Next(s, e)) == Surplus(s) - Loss(s, e)
  {
    ClaimsUpdate(s.procs, e.i, Next(s, e).procs[e.i]);
  }

  lemma PagingStepConserves(s: State, e: Event)
    requires Enabled(s, e) && (e.AnswerPage? || e.PageEntry? || e.Resleep?)
    ensures Surplus(Next(s, e)) == Surplus(s) + Extra(e) - Loss(s, e)
  {
    ClaimsUpdate(s.procs, e.i, Next(s, e).procs[e.i]);
  }

  lemma SendPageConserves(s: State, i: nat, k: nat)
    requires Enabled(s, SendPage(i, k))
    ensures Surplus(Next(s, SendPage(i, k))) == Surplus(s)
  {
    var p := s.procs[i].(page := true, mark := k);
    ClaimsUpdate(s.procs, i, p);
    MarkKeepsClaims(Put(s, i, p), k, false);
  }

  lemma FinishPageConserves(s: State, i: nat)
    requires Enabled(s, FinishPage(i))
    ensures Surplus(Next(s, FinishPage(i))) == Surplus(s)
  {
    var p := s.procs[i].(vtalrm := true, paging := false);
    ClaimsUpdate(s.procs, i, p);
    MarkKeepsClaims(Put(s, i, p), s.procs[i].mark, true);
  }

  lemma RegisterAddsOne(s: State)
    ensures Surplus(Next(s, Register)) == Surplus(s) + 1
  {
    ClaimsAppend(s.procs, NEWCOMER);
  }

  /** Dispatch, expiry, redirection, waking and the paging of executing and of sleeping victims all
      conserve the surplus, but for what is added and lost. */
  lemma StepConserves(s: State, e: Event)
    requires Enabled(s, e)
    ensures Surplus(Next(s, e)) == Surplus(s) + Extra(e) - Loss(s, e)
  {
    match e {
      case Register => RegisterAddsOne(s);
      case Redirect =>
      case RedirectPaging =>
      case Receive =>
      case ReceivePaging => MarkKeepsClaims(s, s.current, false);
      case SendPage(i, k) => SendPageConserves(s, i, k);
      case FinishPage(i) => FinishPageConserves(s, i);
      case AnswerPage(_) => PagingStepConserves(s, e);
      case PageEntry(_) => PagingStepConserves(s, e);
      case Resleep(_) => PagingStepConserves(s, e);
      case _ => ProcessStepConserves(s, e);
    }
  }

  function Registrations(es: seq<Event>): nat {
    if es == [] then 0 else (if es[0].Register? then 1 else 0) + Registrations(es[1..])
  }

  function Extras(es: seq<Event>): nat {
    if es == [] then 0 else Extra(es[0]) + Extras(es[1..])
  }

  function Losses(s: State, es: seq<Event>): nat
    requires IsRun(s, es)
    decreases |es|
  {
    if es == [] then 0 else Loss(s, es[0]) + Losses(Next(s, es[0]), es[1..])
  }

  /** Signal conservation over every run: processes executing, queued wakes and end-of-interval signals
      together number the waiting control thread plus what registrations and paging in a handler have
      added, less what terminations and untimely SIGVTALRM have taken away. */
  lemma {:induction false} SignalConservation(s: State, es: seq<Event>)
    requires IsRun(s, es)
    ensures Surplus(After(s, es)) == Surplus(s) + Extras(es) - Losses(s, es)
    decreases |es|
  {
    if es != [] {
      StepConserves(s, es[0]);
      SignalConservation(Next(s, es[0]), es[1..]);
    }
  }

  lemma StepKeepsProcesses(s: State, e: Event)
    requires Enabled(s, e)
    ensures |Next(s, e).procs| == |s.procs| + if e.Register? then 1 else 0
    ensures Next(s, e).registrations == s.registrations + if e.Register? then 1 else 0
  {
  }

  lemma {:induction false} ProcessesAreRegistrations(s: State, es: seq<Event>)
    requires IsRun(s, es)
    ensures |After(s, es).procs| == |s.procs| + Registrations(es)
    ensures After(s, es).registrations == s.registrations + Registrations(es)
    decreases |es|
  {
    if es != [] {
      StepKeepsProcesses(s, es[0]);
      ProcessesAreRegistrations(Next(s, es[0]), es[1..]);
    }
  }

  predicate AllAlive(s: State) {
    forall i :: 0 <= i < |s.procs| ==> s.procs[i].mode != Terminated
  }

  /** A wake terminates its process, or SIGVTALRM finds its process executing. */
  predicate Loses(s: State, e: Event) {
    e.Terminate? || (e.Resleep? && e.i < |s.procs| && s.procs[e.i].mode == Executing)
  }

  predicate Lossless(s: State, es: seq<Event>)
    requires IsRun(s, es)
    decreases |es|
  {
    es != [] ==> !Loses(s, es[0]) && Lossless(Next(s, es[0]), es[1..])
  }

  lemma StepLoses(s: State, e: Event)
    requires AllAlive(s) && Enabled(s, e)
    ensures Loss(s, e) > 0 <==> Loses(s, e)
    ensures !Loses(s, e) ==> AllAlive(Next(s, e))
  {
  }

  lemma {:induction false} LossIffLoses(s: State, es: seq<Event>)
    requires AllAlive(s) && IsRun(s, es)
    ensures Losses(s, es) == 0 <==> Lossless(s, es)
    decreases |es|
  {
    if es != [] {
      StepLoses(s, es[0]);
      if !Loses(s, es[0]) {
        LossIffLoses(Next(s, es[0]), es[1..]);
      }
    }
  }

  /** The sum is at most the surplus and what has been added, with equality exactly in the runs in which no
      wake terminates a process and no SIGVTALRM finds one executing. */
  lemma ConservedIff(s: State, es: seq<Event>)
    requires AllAlive(s) && IsRun(s, es)
    ensures Surplus(After(s, es)) <= Surplus(s) + Extras(es)
    ensures Surplus(After(s, es)) == Surplus(s) + Extras(es) <==> Lossless(s, es)
  {
    SignalConservation(s, es);
    LossIffLoses(s, es);
  }

  /** Processes executing never outnumber the surplus, what has been added since and the wait together, less
      the signals still in flight. */
  lemma SurplusBoundsExecuting(s: State, es: seq<Event>)
    requires IsRun(s, es)
    ensures var t := After(s, es);
            ExecutingCount(t.procs) + Signals(t) <= Surplus(s) + Extras(es) + if t.waiting then 1 else 0
  {
    SignalConservation(s, es);
    ExecutingAreClaims(After(s, es).procs);
  }

  /** So without a surplus, and until something is added, at most one process executes. */
  lemma ExclusiveWithoutSurplus(s: State, es: seq<Event>)
    requires IsRun(s, es) && Surplus(s) == 0 && Extras(es) == 0
    ensures ExecutingCount(After(s, es).procs) <= 1
    ensures !After(s, es).waiting ==> ExecutingCount(After(s, es).procs) == 0
  {
    SurplusBoundsExecuting(s, es);
  }

  // ---------- when at most one process executes ----------

  /** No run with r registrations ever lets two processes execute. */
  ghost predicate MutualExclusion(r: nat) {
    forall es :: IsRun(INIT, es) && Registrations(es) == r ==> ExecutingCount(After(INIT, es).procs) <= 1
  }

  /** r registered processes, the first j of them executing, with r - j surplus signals at the control thread. */
  function Crowd(r: nat, j: nat): State
    requires j <= r
  {
    State(seq(r, i => NEWCOMER.(mode := if i < j then Executing else Asleep)),
          0, 0, r - j, 0, false, if j == 0 then 0 else j - 1, r)
  }

  lemma {:induction false} RunAppend(s: State, a: seq<Event>, b: seq<Event>)
    requires IsRun(s, a) && IsRun(After(s, a), b)
    ensures IsRun(s, a + b) && After(s, a + b) == After(After(s, a), b)
    ensures Registrations(a + b) == Registrations(a) + Registrations(b)
    decreases |a|
  {
    if a == [] {
      assert a + b == b;
    } else {
      RunAppend(Next(s, a[0]), a[1..], b);
      assert (a + b)[1..] == a[1..] + b;
    }
  }

  lemma FirstStep(s: State, e: Event, es: seq<Event>)
    requires Enabled(s, e) && IsRun(Next(s, e), es)
    ensures IsRun(s, [e] + es) && After(s, [e] + es) == After(Next(s, e), es)
    ensures Registrations([e] + es) == Registrations(es) + if e.Register? then 1 else 0
    ensures Extras([e] + es) == Extras(es) + Extra(e)
  {
    assert ([e] + es)[1..] == es;
  }

  lemma ThreeSteps(s: State, a: Event, b: Event, c: Event)
    requires Enabled(s, a) && Enabled(Next(s, a), b) && Enabled(Next(Next(s, a), b), c)
    requires !b.Register? && !c.Register?
    ensures IsRun(s, [a, b, c]) && After(s, [a, b, c]) == Next(Next(Next(s, a), b), c)
    ensures Registrations([a, b, c]) == if a.Register? then 1 else 0
  {
    FirstStep(Next(Next(s, a), b), c, []);
    assert [c] + [] == [c] && [b] + [c] == [b, c] && [a] + [b, c] == [a, b, c];
    FirstStep(Next(s, a), b, [c]);
    FirstStep(s, a, [b, c]);
  }

  /** Every registration leaves its own end-of-interval signal behind. */
  lemma {:induction false} RegisterAll(r: nat) returns (es: seq<Event>)
    ensures IsRun(INIT, es) && After(INIT, es) == Crowd(r, 0) && Registrations(es) == r
  {
    if r == 0 {
      es := [];
    } else {
      var front := RegisterAll(r - 1);
      var s0 := Crowd(r - 1, 0);
      var s1 := Next(s0, Register);
      var s2 := Next(s1, Expire(r - 1));
      var s3 := Next(s2, Settle(r - 1));
      assert Next(s3, Redirect) == Crowd(r, 0);
      var rest := [Expire(r - 1), Settle(r - 1), Redirect];
      ThreeSteps(s1, Expire(r - 1), Settle(r - 1), Redirect);
      FirstStep(s0, Register, rest);
      RunAppend(INIT, front, [Register] + rest);
      es := front + ([Register] + rest);
    }
  }

  /** A surplus signal ends the wait for process j at once, so that j + 1 is dispatched beside it. */
  lemma {:induction false} DispatchAll(r: nat, j: nat) returns (es: seq<Event>)
    requires j <= r
    ensures IsRun(Crowd(r, 0), es) && After(Crowd(r, 0), es) == Crowd(r, j) && Registrations(es) == 0
  {
    if j == 0 {
      es := [];
    } else {
      var front := DispatchAll(r, j - 1);
      var s0 := Crowd(r, j - 1);
      var s1 := Next(s0, Dispatch(j - 1));
      var s2 := Next(s1, Wake(j - 1));
      assert Next(s2, Receive) == Crowd(r, j);
      var step := [Dispatch(j - 1), Wake(j - 1), Receive];
      ThreeSteps(s0, Dispatch(j - 1), Wake(j - 1), Receive);
      RunAppend(Crowd(r, 0), front, step);
      es := front + step;
    }
  }

  lemma {:induction false} AllExecuting(procs: seq<Process>)
    requires forall i :: 0 <= i < |procs| ==> procs[i].mode == Executing
    ensures ExecutingCount(procs) == |procs|
  {
    if procs != [] {
      AllExecuting(procs[1..]);
    }
  }

  /** For every r there is a run that registers r processes and ends with all r executing at once. */
  lemma EveryoneMayExecute(r: nat) returns (es: seq<Event>)
    ensures IsRun(INIT, es) && Registrations(es) == r
    ensures ExecutingCount(After(INIT, es).procs) == r
  {
    var a := RegisterAll(r);
    var b := DispatchAll(r, r);
    RunAppend(INIT, a, b);
    AllExecuting(Crowd(r, r).procs);
    es := a + b;
  }

  /** The GPU is exclusive exactly while at most one process has ever been registered on it. */
  lemma MutualExclusionIff(r: nat)
    ensures MutualExclusion(r) <==> r <= 1
  {
    if r <= 1 {
      forall es | IsRun(INIT, es) && Registrations(es) == r
        ensures ExecutingCount(After(INIT, es).procs) <= 1
      {
        ProcessesAreRegistrations(INIT, es);
        ExecutingAreClaims(After(INIT, es).procs);
      }
    } else {
      var es := EveryoneMayExecute(r);
    }
  }

  // ---------- when a wake terminates a process ----------

  predicate Terminates(es: seq<Event>) {
    exists k :: 0 <= k < |es| && es[k].Terminate?
  }

  /** The process waits for its wake, and no SIGVTALRM is going to call it away. */
  predicate Waits(p: Process) {
    p.mode == Asleep && !p.vtalrm && !p.paging
  }

  /** At most one wake is queued at a process, and then it waits for it. */
  predicate Calm(s: State) {
    forall i :: 0 <= i < |s.procs| && s.procs[i].wakes > 0 ==> s.procs[i].wakes == 1 && Waits(s.procs[i])
  }

  /** A wake is sent to a process that does not wait for it, as between its signal and its wait. */
  predicate IllTimed(s: State, e: Event) {
    && e.Dispatch? && e.i < |s.procs| && s.procs[e.i].mode != Terminated
    && !(Waits(s.procs[e.i]) && s.procs[e.i].wakes == 0)
  }

  predicate WellTimed(s: State, es: seq<Event>)
    requires IsRun(s, es)
    decreases |es|
  {
    es != [] ==> !IllTimed(s, es[0]) && WellTimed(Next(s, es[0]), es[1..])
  }

  lemma MarkKeepsCalm(s: State, k: nat, schedulable: bool)
    requires Calm(s)
    ensures Calm(Mark(s, k, schedulable))
  {
  }

  lemma PutKeepsCalm(s: State, i: nat, p: Process)
    requires Calm(s) && i < |s.procs| && (p.wakes > 0 ==> p.wakes == 1 && Waits(p))
    ensures Calm(Put(s, i, p))
  {
  }

  lemma StepKeepsCalm(s: State, e: Event)
    requires Calm(s) && Enabled(s, e) && !IllTimed(s, e)
    ensures !e.Terminate? && Calm(Next(s, e))
  {
    match e {
      case SendPage(i, k) =>
        var p := s.procs[i].(page := true, mark := k);
        PutKeepsCalm(s, i, p);
        MarkKeepsCalm(Put(s, i, p), k, false);
      case FinishPage(i) =>
        var p := s.procs[i].(vtalrm := true, paging := false);
        PutKeepsCalm(s, i, p);
        MarkKeepsCalm(Put(s, i, p), s.procs[i].mark, true);
      case ReceivePaging => MarkKeepsCalm(s, s.current, false);
      case _ =>
    }
  }

  /** As long as wakes are sent only to processes that wait for them, nobody is terminated. */
  lemma {:induction false} NobodyTerminated(s: State, es: seq<Event>)
    requires Calm(s) && IsRun(s, es) && WellTimed(s, es)
    ensures Calm(After(s, es)) && !Terminates(es)
    decreases |es|
  {
    if es != [] {
      StepKeepsCalm(s, es[0]);
      NobodyTerminated(Next(s, es[0]), es[1..]);
      forall k | 0 <= k < |es| ensures !es[k].Terminate? {
        if k > 0 {
          assert es[1..][k - 1] == es[k];
        }
      }
    }
  }

  predicate NoDispatch(es: seq<Event>) {
    forall k :: 0 <= k < |es| ==> !es[k].Dispatch?
  }

  predicate KillingRun(s: State, es: seq<Event>) {
    IsRun(s, es) && NoDispatch(es) && Terminates(es)
  }

  /** Without any further wake, some process may be terminated. */
  ghost predicate MayKill(s: State) {
    exists es :: KillingRun(s, es)
  }

  lemma {:induction false} NoDispatchWellTimed(s: State, es: seq<Event>)
    requires IsRun(s, es) && NoDispatch(es)
    ensures WellTimed(s, es)
    decreases |es|
  {
    if es != [] {
      assert forall k :: 0 <= k < |es| - 1 ==> es[1..][k] == es[k + 1];
      NoDispatchWellTimed(Next(s, es[0]), es[1..]);
    }
  }

  /** One step, then a termination. */
  lemma KillsAfter(s: State, e: Event, es: seq<Event>)
    requires Enabled(s, e) && !e.Dispatch? && KillingRun(Next(s, e), es)
    ensures KillingRun(s, [e] + es)
  {
    FirstStep(s, e, es);
    var k :| 0 <= k < |es| && es[k].Terminate?;
    assert ([e] + es)[k + 1].Terminate?;
  }

  lemma KillsNow(s: State, i: nat)
    requires Enabled(s, Terminate(i))
    ensures KillingRun(s, [Terminate(i)])
  {
    FirstStep(s, Terminate(i), []);
    assert [Terminate(i)] + [] == [Terminate(i)] && [Terminate(i)][0].Terminate?;
  }

  /** A wake that is queued at a process that does not wait for it may terminate it. */
  lemma UntimelyKills(s: State, i: nat) returns (es: seq<Event>)
    requires i < |s.procs| && s.procs[i].mode != Terminated && s.procs[i].wakes > 0
    requires !Waits(s.procs[i]) || s.procs[i].wakes > 1
    ensures KillingRun(s, es)
  {
    if s.procs[i].mode != Asleep {
      KillsNow(s, i);
      es := [Terminate(i)];
    } else if s.procs[i].wakes > 1 {
      es := SecondWakeKills(s, i);
    } else if s.procs[i].vtalrm {
      es := VtalrmKills(s, i);
    } else {
      es := PagerKills(s, i);
    }
  }

  lemma SecondWakeKills(s: State, i: nat) returns (es: seq<Event>)
    requires i < |s.procs| && s.procs[i].mode == Asleep && s.procs[i].wakes > 1
    ensures KillingRun(s, es)
  {
    KillsNow(Next(s, Wake(i)), i);
    KillsAfter(s, Wake(i), [Terminate(i)]);
    es := [Wake(i)] + [Terminate(i)];
  }

  lemma PagerKills(s: State, i: nat) returns (es: seq<Event>)
    requires i < |s.procs| && s.procs[i].mode != Terminated && s.procs[i].wakes > 0 && s.procs[i].paging
    ensures KillingRun(s, es)
  {
    var t := Next(s, FinishPage(i));
    assert t.procs[i].vtalrm && t.procs[i].wakes == s.procs[i].wakes && t.procs[i].mode == s.procs[i].mode;
    var rest := VtalrmKills(t, i);
    KillsAfter(s, FinishPage(i), rest);
    es := [FinishPage(i)] + rest;
  }

  lemma VtalrmKills(s: State, i: nat) returns (es: seq<Event>)
    requires i < |s.procs| && s.procs[i].mode != Terminated && s.procs[i].wakes > 0 && s.procs[i].vtalrm
    ensures KillingRun(s, es)
  {
    KillsNow(Next(s, Resleep(i)), i);
    KillsAfter(s, Resleep(i), [Terminate(i)]);
    es := [Resleep(i)] + [Terminate(i)];
  }

  /** In a calm state a wake can terminate a process exactly when its receiver does not wait for it, or has
      another one queued already. */
  lemma FatalIff(s: State, i: nat)
    requires Calm(s) && Enabled(s, Dispatch(i)) && s.procs[i].mode != Terminated
    ensures MayKill(Next(s, Dispatch(i))) <==> IllTimed(s, Dispatch(i))
  {
    var t := Next(s, Dispatch(i));
    if IllTimed(s, Dispatch(i)) {
      var es := UntimelyKills(t, i);
    } else {
      StepKeepsCalm(s, Dispatch(i));
      forall es ensures !KillingRun(t, es) {
        if KillingRun(t, es) {
          NoDispatchWellTimed(t, es);
          NobodyTerminated(t, es);
        }
      }
    }
  }

  lemma {:induction false} ClaimOfOne(procs: seq<Process>, i: nat)
    requires i < |procs|
    ensures Weight(procs[i]) <= Claims(procs)
  {
    if i > 0 {
      ClaimOfOne(procs[1..], i - 1);
    }
  }

  /** Without a surplus a wake finds nobody executing and no other wake queued. */
  lemma WakeFindsNobodyExecuting(s: State, i: nat)
    requires Surplus(s) == 0 && i < |s.procs| && !s.waiting
    ensures s.procs[i].mode != Executing && s.procs[i].wakes == 0
  {
    ClaimOfOne(s.procs, i);
  }

  /** One process executing, whose end of slice the control thread waits for. */
  const SLICE := State([NEWCOMER], 0, 0, 0, 0, true, 0, 0)

  lemma SliceHasNoSurplus()
    ensures Surplus(SLICE) == 0 && Calm(SLICE) && AllAlive(SLICE)
  {
    assert [NEWCOMER][1..] == [];
    assert Claims([NEWCOMER]) == 1;
  }

  lemma WindowCloses(c: State)
    requires c == SLICE.(procs := [NEWCOMER.(mode := Entering)], waiting := false)
    ensures IsRun(c, [Dispatch(0), Terminate(0)])
  {
    KillsNow(Next(c, Dispatch(0)), 0);
    FirstStep(c, Dispatch(0), [Terminate(0)]);
    assert [Dispatch(0)] + [Terminate(0)] == [Dispatch(0), Terminate(0)];
  }

  lemma WindowOpens()
    ensures Enabled(SLICE, Expire(0)) && Enabled(Next(SLICE, Expire(0)), Redirect)
    ensures Enabled(Next(Next(SLICE, Expire(0)), Redirect), Receive)
    ensures Next(Next(Next(SLICE, Expire(0)), Redirect), Receive)
         == SLICE.(procs := [NEWCOMER.(mode := Entering)], waiting := false)
  {
  }

  /** But it may find a process between its signal and its wait: with one process, no surplus and nothing
      added, the end of a slice, the next dispatch, and the process is terminated. */
  lemma WindowTerminates()
    ensures Surplus(SLICE) == 0 && Calm(SLICE) && AllAlive(SLICE)
    ensures var es := [Expire(0), Redirect, Receive] + [Dispatch(0), Terminate(0)];
            IsRun(SLICE, es) && Extras(es) == 0 && Terminates(es)
  {
    SliceHasNoSurplus();
    WindowOpens();
    ThreeSteps(SLICE, Expire(0), Redirect, Receive);
    var c, d := Next(Next(Next(SLICE, Expire(0)), Redirect), Receive), [Dispatch(0), Terminate(0)];
    WindowCloses(c);
    RunAppend(SLICE, [Expire(0), Redirect, Receive], d);
    var es := [Expire(0), Redirect, Receive] + d;
    assert es[4] == Terminate(0);
    NothingAdded(es);
  }

  lemma {:induction false} NothingAdded(es: seq<Event>)
    requires forall k :: 0 <= k < |es| ==> !es[k].Register? && !es[k].PageEntry?
    ensures Extras(es) == 0
  {
    if es != [] {
      NothingAdded(es[1..]);
    }
  }

  predicate TerminatingRun(es: seq<Event>, r: nat) {
    IsRun(INIT, es) && Registrations(es) == r && Terminates(es)
  }

  /** Some run with r registrations terminates a process. */
  ghost predicate MayTerminate(r: nat) {
    exists es :: TerminatingRun(es, r)
  }

  /** While process 0 executes it is dispatched again, and the wake terminates it. */
  lemma WakeTerminates(r: nat) returns (es: seq<Event>)
    requires r > 0
    ensures IsRun(Crowd(r, 1), es) && Registrations(es) == 0 && es != [] && es[|es| - 1].Terminate?
    ensures |After(Crowd(r, 1), es).procs| == r && After(Crowd(r, 1), es).procs[0].mode == Terminated
    ensures Surplus(After(Crowd(r, 1), es)) == Surplus(Crowd(r, 1)) - 2
  {
    var s := Crowd(r, 1);
    var t := Next(s, Dispatch(0));
    assert t.procs[0] == NEWCOMER.(wakes := 1);
    FirstStep(t, Terminate(0), []);
    assert [Terminate(0)] + [] == [Terminate(0)];
    FirstStep(s, Dispatch(0), [Terminate(0)]);
    StepConserves(s, Dispatch(0));
    StepConserves(t, Terminate(0));
    es := [Dispatch(0)] + [Terminate(0)];
  }

  /** For every r above 0 there is a run that registers r processes and terminates one of them; two are then
      missing from the sum, the process and its wake. */
  lemma OneTerminated(r: nat) returns (es: seq<Event>)
    requires r > 0
    ensures IsRun(INIT, es) && Registrations(es) == r && es != [] && es[|es| - 1].Terminate?
    ensures Surplus(After(INIT, es)) == r - 2
  {
    var a := RegisterAll(r);
    var b := DispatchAll(r, 1);
    RunAppend(INIT, a, b);
    ClaimsOfCrowd(Crowd(r, 1).procs);
    var c := WakeTerminates(r);
    RunAppend(INIT, a + b, c);
    es := a + b + c;
  }

  lemma {:induction false} ClaimsOfCrowd(procs: seq<Process>)
    requires procs != [] && procs[0].mode == Executing && procs[0].wakes == 0
    requires forall i :: 0 < i < |procs| ==> procs[i].mode != Executing && procs[i].wakes == 0
    ensures Claims(procs) == 1
  {
    NoClaims(procs[1..]);
  }

  lemma {:induction false} NoClaims(procs: seq<Process>)
    requires forall i :: 0 <= i < |procs| ==> procs[i].mode != Executing && procs[i].wakes == 0
    ensures Claims(procs) == 0
  {
    if procs != [] {
      NoClaims(procs[1..]);
    }
  }

  lemma {:induction false} NobodyToTerminate(s: State, es: seq<Event>)
    requires s.procs == [] && IsRun(s, es) && Registrations(es) == 0
    ensures !Terminates(es)
    decreases |es|
  {
    if es != [] {
      NobodyToTerminate(Next(s, es[0]), es[1..]);
      forall k | 0 <= k < |es| ensures !es[k].Terminate? {
        if k > 0 {
          assert es[1..][k - 1] == es[k];
        }
      }
    }
  }

  lemma NeedsRegistration(es: seq<Event>)
    ensures !TerminatingRun(es, 0)
  {
    if TerminatingRun(es, 0) {
      NobodyToTerminate(INIT, es);
    }
  }

  /** One registration is enough for a process to be terminated by its own wake. */
  lemma MayTerminateIff(r: nat)
    ensures MayTerminate(r) <==> r >= 1
  {
    if r == 0 {
      forall es ensures !TerminatingRun(es, r) {
        NeedsRegistration(es);
      }
    } else {
      var es := OneTerminated(r);
      assert TerminatingRun(es, r);
    }
  }
}
