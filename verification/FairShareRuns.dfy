/** What the fair-share scheduler guarantees over whole runs, in which the control threads of all GPUs,
    the listeners and the pager interleave in any order. */
module FairShareRuns {
  import opened TimeVals
  import opened SchedCommons
  import opened FairShare

  /** What any thread does in one step. Listeners assign fields of the slot at the count, and the count. */
  datatype TableEvent =
    | Scan(g: Gpu)
    | Wake(g: Gpu)
    | End(g: Gpu, o: Outcome)
    | Set(f: Field)
    | SetCount(count: nat)
    | Remove(pid: int, gpu: int)
    | PageOut(pid: int)
    | PageDone(index: nat)

  function TableStep(s: State, e: TableEvent): (r: State)
    requires s.Valid()
    ensures r.Valid()
  {
    match e
    case Scan(g) => ScanStep(s, g)
    case Wake(g) => WakeStep(s, g)
    case End(g, o) => EndStep(s, g, o)
    case Set(f) => AssignStep(s, f)
    case SetCount(count) => CountStep(s, count)
    case Remove(pid, gpu) => RemoveStep(s, pid, gpu)
    case PageOut(pid) => SetState(s, VictimIndex(s.slots, pid), Paging)
    case PageDone(index) => if index < MAX_CONTROLLER_COUNT then SetState(s, index, Active) else s
  }

  /** Whether `e` moves the head of GPU g's control thread. */
  predicate Scans(s: State, e: TableEvent, g: Gpu)
    requires s.Valid()
  {
    || (e == Scan(g) && s.count != 0 && s.turns[g] == Idle && !Dispatches(s.slots[s.heads[g]], g))
    || (e.End? && e.g == g && (s.turns[g].Running? || s.turns[g].Missed?))
  }

  /** The head wraps round, and the recompute closes the pass. */
  predicate EndsPass(s: State, e: TableEvent, g: Gpu)
    requires s.Valid()
  {
    Scans(s, e, g) && s.heads[g] == MAX_CONTROLLER_COUNT - 1
  }

  predicate VisitsSlot(s: State, e: TableEvent, p: nat, g: Gpu)
    requires s.Valid()
  {
    Scans(s, e, g) && s.heads[g] == p
  }

  /** A slice of the process in slot p ends. */
  predicate RunsSlot(s: State, e: TableEvent, p: nat, g: Gpu)
    requires s.Valid()
  {
    VisitsSlot(s, e, p, g) && e.End? && s.turns[g].Running?
  }

  /** A run as seen from slot p of GPU g: the state it has reached, and how many scan steps, visits to the
      slot, completed passes and dispatches of the slot it has had, with its time of execution, in milliseconds
      as the scheduler rounds them and in microseconds. */
  datatype Ledger = Ledger(now: State, scanned: nat, visits: nat, passes: nat, runs: nat, executed: nat,
                           micros: nat)

  function Record(l: Ledger, e: TableEvent, p: nat, g: Gpu): (r: Ledger)
    requires l.now.Valid()
    ensures r.now.Valid()
  {
    var s := l.now;
    Ledger(
      TableStep(s, e),
      l.scanned + (if Scans(s, e, g) then 1 else 0),
      l.visits + (if VisitsSlot(s, e, p, g) then 1 else 0),
      l.passes + (if EndsPass(s, e, g) then 1 else 0),
      l.runs + (if RunsSlot(s, e, p, g) then 1 else 0),
      l.executed + (if RunsSlot(s, e, p, g) then Millis(e.o.elapsed) else 0),
      l.micros + (if RunsSlot(s, e, p, g) then Micros(e.o.elapsed) else 0))
  }

  /** Runs grow at the end, so that every prefix of a run is a run. */
  function Run(s: State, es: seq<TableEvent>, p: nat, g: Gpu): (l: Ledger)
    requires s.Valid()
    ensures l.now.Valid()
  {
    if es == [] then Ledger(s, 0, 0, 0, 0, 0, 0) else Record(Run(s, Front(es), p, g), Last(es), p, g)
  }

  function Front(es: seq<TableEvent>): seq<TableEvent>
    requires es != []
  {
    es[..|es| - 1]
  }

  function Last(es: seq<TableEvent>): TableEvent
    requires es != []
  {
    es[|es| - 1]
  }

  /** What one more step adds to the record: the head moves when a slice ends or a slot is passed over, and the slot
      has run when it is the one under the head and its process was woken. */
  lemma RecordMeans(s: State, es: seq<TableEvent>, e: TableEvent, p: nat, g: Gpu, l: Ledger, r: Ledger)
    requires s.Valid() && l == Run(s, es, p, g) && r == Run(s, es + [e], p, g)
    ensures var head, turn := l.now.heads[g], l.now.turns[g]; var slot := l.now.slots[head];
            var ended := e.End? && e.g == g && (turn.Running? || turn.Missed?);
            var passed := e == Scan(g) && l.now.count != 0 && turn == Idle &&
                          !(slot.gpu == g && slot.state == Active && slot.penalty <= 0);
            && r.now == TableStep(l.now, e)
            && r.scanned == l.scanned + (if ended || passed then 1 else 0)
            && r.visits == l.visits + (if (ended || passed) && head == p then 1 else 0)
            && r.passes == l.passes + (if (ended || passed) && head == 499 then 1 else 0)
            && r.runs == l.runs + (if ended && turn.Running? && head == p then 1 else 0)
            && r.micros == l.micros + (if ended && turn.Running? && head == p then Micros(e.o.elapsed) else 0)
  {
    assert Front(es + [e]) == es;
  }

  // ---------- a pass visits every slot once ----------

  lemma HeadMoves(s: State, e: TableEvent, g: Gpu)
    requires s.Valid()
    ensures TableStep(s, e).heads[g] ==
            if !Scans(s, e, g) then s.heads[g] else if EndsPass(s, e, g) then 0 else s.heads[g] + 1
  {
  }

  lemma {:induction false} ScanCounts(s: State, es: seq<TableEvent>, p: nat, g: Gpu)
    requires s.Valid() && s.heads[g] == 0 && p < MAX_CONTROLLER_COUNT
    ensures var l := Run(s, es, p, g);
            && l.scanned == MAX_CONTROLLER_COUNT * l.passes + l.now.heads[g]
            && l.visits == l.passes + if p < l.now.heads[g] then 1 else 0
  {
    if es != [] {
      ScanCounts(s, Front(es), p, g);
      HeadMoves(Run(s, Front(es), p, g).now, Last(es), g);
    }
  }

  /** Whatever else happens in between, n scan steps make n / 500 recomputes, and every slot has been
      visited once per pass, plus once more if the head is past it. */
  lemma {:induction false} EachPassVisitsEverySlotOnce(s: State, es: seq<TableEvent>, p: nat, g: Gpu)
    requires s.Valid() && s.heads[g] == 0 && p < MAX_CONTROLLER_COUNT
    ensures var l := Run(s, es, p, g);
            && l.now.heads[g] == l.scanned % MAX_CONTROLLER_COUNT
            && l.passes == l.scanned / MAX_CONTROLLER_COUNT
            && l.visits == l.passes + if p < l.now.heads[g] then 1 else 0
  {
    ScanCounts(s, es, p, g);
    var l := Run(s, es, p, g);
    PassesAndHead(l.scanned, l.passes, l.now.heads[g]);
  }

  lemma PassesAndHead(n: nat, passes: nat, head: nat)
    requires n == MAX_CONTROLLER_COUNT * passes + head && head < MAX_CONTROLLER_COUNT
    ensures n / MAX_CONTROLLER_COUNT == passes && n % MAX_CONTROLLER_COUNT == head
  {
  }

  // ---------- penalties over a run ----------

  /** `e` leaves slot p alone, unless it is GPU g's control thread running or skipping it. */
  predicate Spares(s: State, e: TableEvent, p: nat, g: Gpu)
    requires s.Valid()
  {
    match e
    case Scan(_) => true
    case Wake(_) => true
    case End(h, o) => h == g && s.heads[g] == p ==> o.EndOfInterval?
    case Set(_) => s.count != p
    case SetCount(_) => true
    case Remove(pid, gpu) => FirstIndex(s.slots, Bound(pid, gpu), 0) != p
    case PageOut(pid) => VictimIndex(s.slots, pid) != p
    case PageDone(index) => index != p
  }

  predicate Undisturbed(s: State, es: seq<TableEvent>, p: nat, g: Gpu)
    requires s.Valid()
  {
    es != [] ==> Undisturbed(s, Front(es), p, g) && Spares(Run(s, Front(es), p, g).now, Last(es), p, g)
  }

  /** Only GPU g's control thread may be about to run slot p, and only while the slot can be dispatched. */
  predicate Poised(s: State, p: nat, g: Gpu)
    requires s.Valid() && p < MAX_CONTROLLER_COUNT
  {
    forall h :: 0 <= h < NUM_GPUS && s.heads[h] == p && s.turns[h] != Idle ==>
      h == g && !s.turns[h].Missed? && Dispatches(s.slots[p], g)
  }

  /** Slot p, schedulable on GPU g, as a recompute leaves it. */
  predicate Settled(s: State, p: nat, g: Gpu)
    requires s.Valid()
  {
    && p < MAX_CONTROLLER_COUNT
    && s.heads[g] == 0
    && SettledSlot(s.slots[p], g)
    && Poised(s, p, g)
  }

  predicate SettledSlot(s: Slot, g: Gpu) {
    Schedulable(s, g) && (s.penalty == -1 || s.penalty >= 1)
  }

  /** Epochs still to sit out. */
  function Outstanding(s: Slot): nat {
    if s.penalty > 0 then s.penalty else 0
  }

  function OutcomeOf(e: TableEvent): Outcome {
    if e.End? then e.o else EndOfInterval(TimeVal(0, 0))
  }

  /** `e` does to slot p exactly what the scan or the recompute of its own GPU does. */
  predicate ActsOnSlot(s: State, e: TableEvent, p: nat, g: Gpu)
    requires s.Valid() && p < MAX_CONTROLLER_COUNT
  {
    var scanned := if VisitsSlot(s, e, p, g) then Visit(s.slots[p], g, OutcomeOf(e)) else s.slots[p];
    && (if EndsPass(s, e, g) then SettlesFrom(scanned, TableStep(s, e).slots[p], g) else TableStep(s, e).slots[p] == scanned)
    && (RunsSlot(s, e, p, g) <==> VisitsSlot(s, e, p, g) && Dispatches(s.slots[p], g))
  }

  /** Moving a head over a slot. */
  lemma AdvanceOnSlot(s: State, h: Gpu, visited: Slot, p: nat, g: Gpu)
    requires s.Valid() && p < MAX_CONTROLLER_COUNT && Schedulable(s.slots[p], g)
    requires h != g && s.heads[h] == p ==> visited == s.slots[p]
    ensures var r, scanned := Advance(s, h, visited), if s.heads[h] == p then visited else s.slots[p];
            && (if h == g && s.heads[g] == MAX_CONTROLLER_COUNT - 1 then SettlesFrom(scanned, r.slots[p], g)
                else r.slots[p] == scanned)
            && r.turns == s.turns[h := Idle]
            && r.heads == s.heads[h := (s.heads[h] + 1) % MAX_CONTROLLER_COUNT]
  {
  }

  lemma ScanOnSlot(s: State, e: TableEvent, p: nat, g: Gpu)
    requires s.Valid() && p < MAX_CONTROLLER_COUNT && Spares(s, e, p, g) && e.Scan?
    requires Schedulable(s.slots[p], g) && Poised(s, p, g)
    ensures ActsOnSlot(s, e, p, g) && Poised(TableStep(s, e), p, g)
  {
    AdvanceOnSlot(s, e.g, Skip(s.slots[s.heads[e.g]], e.g), p, g);
  }

  lemma EndOnSlot(s: State, e: TableEvent, p: nat, g: Gpu)
    requires s.Valid() && p < MAX_CONTROLLER_COUNT && Spares(s, e, p, g) && e.End?
    requires Schedulable(s.slots[p], g) && Poised(s, p, g)
    ensures ActsOnSlot(s, e, p, g) && Poised(TableStep(s, e), p, g)
  {
    if s.turns[e.g].Running? || s.turns[e.g].Missed? {
      AdvanceOnSlot(s, e.g, Finish(s.slots[s.heads[e.g]], s.turns[e.g].Running?, e.o), p, g);
    }
  }

  lemma OthersOnSlot(s: State, e: TableEvent, p: nat, g: Gpu)
    requires s.Valid() && p < MAX_CONTROLLER_COUNT && Spares(s, e, p, g) && !e.Scan? && !e.End?
    requires Schedulable(s.slots[p], g) && Poised(s, p, g)
    ensures ActsOnSlot(s, e, p, g) && Poised(TableStep(s, e), p, g)
  {
  }

  /** Every step, of whatever thread, acts on slot p in this way only. */
  lemma {:induction false} StepOnSlot(s: State, e: TableEvent, p: nat, g: Gpu)
    requires s.Valid() && p < MAX_CONTROLLER_COUNT && Spares(s, e, p, g)
    requires Schedulable(s.slots[p], g) && Poised(s, p, g)
    ensures ActsOnSlot(s, e, p, g) && Poised(TableStep(s, e), p, g)
  {
    match e {
      case Scan(_) => ScanOnSlot(s, e, p, g);
      case End(_, _) => EndOnSlot(s, e, p, g);
      case _ => OthersOnSlot(s, e, p, g);
    }
  }

  /** `after` is `before` charged by a recompute and possibly given a new allotment. */
  predicate SettlesFrom(before: Slot, after: Slot, g: Gpu) {
    after == Charge(before, g).(allotted := after.allotted)
  }

  /** The position of a slot charged k epochs, n passes later. */
  predicate Serving(l: Ledger, p: nat, g: Gpu, k: nat)
    requires l.now.Valid() && p < MAX_CONTROLLER_COUNT
  {
    var slot, visited := l.now.slots[p], if l.now.heads[g] > p then 1 else 0;
    && Schedulable(slot, g) && Poised(l.now, p, g)
    && l.runs == (if l.passes == k then visited else 0)
    && slot.penalty == (if l.passes == k then -1 else k - l.passes - visited)
  }

  lemma StepServes(l: Ledger, e: TableEvent, p: nat, g: Gpu, k: nat)
    requires l.now.Valid() && p < MAX_CONTROLLER_COUNT && Spares(l.now, e, p, g)
    requires Serving(l, p, g, k) && Record(l, e, p, g).passes <= k
    ensures Serving(Record(l, e, p, g), p, g, k)
  {
    StepOnSlot(l.now, e, p, g);
    HeadMoves(l.now, e, g);
  }

  /** Exact penalty service: a process charged k epochs is skipped in the next k passes and dispatched
      once in the one after, whatever the other threads do meanwhile. */
  lemma {:induction false} PenaltyServedExactly(s: State, es: seq<TableEvent>, p: nat, g: Gpu)
    requires s.Valid() && Settled(s, p, g) && Undisturbed(s, es, p, g)
    requires Run(s, es, p, g).passes <= Outstanding(s.slots[p])
    ensures Serving(Run(s, es, p, g), p, g, Outstanding(s.slots[p]))
  {
    if es != [] {
      PenaltyServedExactly(s, Front(es), p, g);
      StepServes(Run(s, Front(es), p, g), Last(es), p, g, Outstanding(s.slots[p]));
    }
  }

  // ---------- amortised fairness ----------

  predicate AllottedWithin(s: Slot, lo: nat, hi: nat) {
    lo <= Millis(s.allotted) <= hi
  }

  predicate AlwaysWithin(s: State, es: seq<TableEvent>, p: nat, g: Gpu, lo: nat, hi: nat)
    requires s.Valid() && p < MAX_CONTROLLER_COUNT
  {
    && AllottedWithin(Run(s, es, p, g).now.slots[p], lo, hi)
    && (es != [] ==> AlwaysWithin(s, Front(es), p, g, lo, hi))
  }

  /** Between `lo` and `hi` milliseconds per epoch either run or sat out. `epochs` counts both. */
  predicate Balanced(executed: int, runs: int, epochs: int, lo: nat, hi: nat) {
    executed + runs <= hi * epochs && lo * epochs <= executed + lo * runs
  }

  /** The books of one slot, after (`visited`) or before the scan has passed it in the current pass. */
  predicate Books(s: Slot, visited: bool, runs: int, executed: int, epochs: int, lo: nat, hi: nat, g: Gpu) {
    && Schedulable(s, g)
    && if !visited then SettledSlot(s, g) && Balanced(executed, runs, epochs + Outstanding(s), lo, hi)
       else if s.penalty == -1 then Balanced(executed - Millis(s.ran), runs - 1, epochs, lo, hi)
       else s.penalty >= 0 && Balanced(executed, runs, epochs + 1 + s.penalty, lo, hi)
  }

  lemma OverrunBounds(s: Slot, lo: nat, hi: nat)
    requires 1 <= lo && AllottedWithin(s, lo, hi)
    ensures Millis(s.ran) + 1 <= hi * (Overrun(s) + 1)
    ensures lo * Overrun(s) <= Millis(s.ran)
  {
    var d, a, k := Millis(s.allotted), Millis(s.ran), Overrun(s);
    assert k * d <= a < (k + 1) * d;
    ProductGrows(d, hi, k + 1);
    ProductGrows(lo, d, k);
  }

  lemma RunSettled(executed: int, runs: int, epochs: int, ran: nat, k: nat, lo: nat, hi: nat)
    requires Balanced(executed - ran, runs - 1, epochs, lo, hi)
    requires ran + 1 <= hi * (k + 1) && lo * k <= ran
    ensures Balanced(executed, runs, epochs + 1 + k, lo, hi)
  {
    assert hi * (epochs + 1 + k) == hi * epochs + hi * (k + 1);
    assert lo * (epochs + 1 + k) == lo * epochs + lo + lo * k;
    assert lo * runs == lo * (runs - 1) + lo;
  }

  /** Charging the run just made restores the balance for one more epoch. */
  lemma {:induction false} SettlingKeepsBooks(s: Slot, r: Slot, runs: int, executed: int, epochs: int, lo: nat, hi: nat, g: Gpu)
    requires 1 <= lo && AllottedWithin(s, lo, hi) && SettlesFrom(s, r, g)
    requires Books(s, true, runs, executed, epochs, lo, hi, g)
    ensures Books(r, false, runs, executed, epochs + 1, lo, hi, g)
  {
    if s.penalty == -1 {
      OverrunBounds(s, lo, hi);
      RunSettled(executed, runs, epochs, Millis(s.ran), Overrun(s), lo, hi);
    }
  }

  lemma ScanKeepsBooks(s: Slot, o: Outcome, runs: int, executed: int, epochs: int, lo: nat, hi: nat, g: Gpu)
    requires o.EndOfInterval? && Books(s, false, runs, executed, epochs, lo, hi, g)
    ensures var once := Dispatches(s, g);
            Books(Visit(s, g, o), true, runs + (if once then 1 else 0),
                  executed + (if once then Millis(o.elapsed) else 0), epochs, lo, hi, g)
  {
  }

  predicate LedgerBalanced(l: Ledger, p: nat, g: Gpu, owed: nat, lo: nat, hi: nat)
    requires l.now.Valid() && p < MAX_CONTROLLER_COUNT
  {
    Poised(l.now, p, g) && Books(l.now.slots[p], l.now.heads[g] > p, l.runs, l.executed, l.passes - owed, lo, hi, g)
  }

  lemma {:induction false} StepKeepsBooks(l: Ledger, e: TableEvent, p: nat, g: Gpu, owed: nat, lo: nat, hi: nat)
    requires l.now.Valid() && p < MAX_CONTROLLER_COUNT && Spares(l.now, e, p, g)
    requires 1 <= lo && AllottedWithin(l.now.slots[p], lo, hi)
    requires LedgerBalanced(l, p, g, owed, lo, hi)
    ensures LedgerBalanced(Record(l, e, p, g), p, g, owed, lo, hi)
  {
    var r := Record(l, e, p, g);
    StepOnSlot(l.now, e, p, g);
    HeadMoves(l.now, e, g);
    var scanned := l.now.slots[p];
    if VisitsSlot(l.now, e, p, g) {
      ScanKeepsBooks(scanned, OutcomeOf(e), l.runs, l.executed, l.passes - owed, lo, hi, g);
      scanned := Visit(scanned, g, OutcomeOf(e));
    }
    if EndsPass(l.now, e, g) {
      SettlingKeepsBooks(scanned, r.now.slots[p], r.runs, r.executed, l.passes - owed, lo, hi, g);
    }
  }

  lemma {:induction false} BooksKept(s: State, es: seq<TableEvent>, p: nat, g: Gpu, lo: nat, hi: nat)
    requires s.Valid() && Settled(s, p, g) && Undisturbed(s, es, p, g)
    requires 1 <= lo && AlwaysWithin(s, es, p, g, lo, hi)
    ensures LedgerBalanced(Run(s, es, p, g), p, g, Outstanding(s.slots[p]), lo, hi)
  {
    if es != [] {
      BooksKept(s, Front(es), p, g, lo, hi);
      StepKeepsBooks(Run(s, Front(es), p, g), Last(es), p, g, Outstanding(s.slots[p]), lo, hi);
    }
  }

  /** Amortised fairness: whenever a pass has just closed, the milliseconds executed plus the number of
      runs are at most `hi` for every epoch passed or still owed, and at least `lo` for every epoch is
      accounted for by execution or by the allotment of a run. With lo == hi the allotment is fixed. */
  lemma {:induction false} AmortisedFairness(s: State, es: seq<TableEvent>, p: nat, g: Gpu, lo: nat, hi: nat)
    requires s.Valid() && Settled(s, p, g) && Undisturbed(s, es, p, g)
    requires 1 <= lo && AlwaysWithin(s, es, p, g, lo, hi)
    requires Run(s, es, p, g).now.heads[g] == 0
    ensures var l := Run(s, es, p, g);
            var epochs := l.passes + Outstanding(l.now.slots[p]) - Outstanding(s.slots[p]);
            l.executed + l.runs <= hi * epochs && lo * epochs <= l.executed + lo * l.runs
  {
    BooksKept(s, es, p, g, lo, hi);
  }

  /** Rounding takes less than half a millisecond from a slice, and adds no more than half. */
  lemma {:induction false} MicrosOfRun(s: State, es: seq<TableEvent>, p: nat, g: Gpu)
    requires s.Valid()
    ensures var l := Run(s, es, p, g); l.executed * 1000 - 500 * l.runs <= l.micros <= l.executed * 1000 + 499 * l.runs
  {
    if es != [] {
      MicrosOfRun(s, Front(es), p, g);
      var e := Last(es);
      if RunsSlot(Run(s, Front(es), p, g).now, e, p, g) {
        MillisRounds(e.o.elapsed);
      }
    }
  }

  predicate MicrosWithin(s: State, es: seq<TableEvent>, p: nat, g: Gpu, lo: nat, hi: nat)
    requires s.Valid() && p < MAX_CONTROLLER_COUNT
  {
    && lo <= Micros(Run(s, es, p, g).now.slots[p].allotted) <= hi
    && (es != [] ==> MicrosWithin(s, Front(es), p, g, lo, hi))
  }

  lemma {:induction false} WithinInMillis(s: State, es: seq<TableEvent>, p: nat, g: Gpu, lo: nat, hi: nat, l: nat, h: nat)
    requires s.Valid() && p < MAX_CONTROLLER_COUNT && MicrosWithin(s, es, p, g, lo, hi)
    requires l == (lo + 500) / 1000 && h == (hi + 500) / 1000
    ensures AlwaysWithin(s, es, p, g, l, h)
  {
    MillisRounds(Run(s, es, p, g).now.slots[p].allotted);
    if es != [] {
      WithinInMillis(s, Front(es), p, g, lo, hi, l, h);
    }
  }

  lemma BooksBalance(s: Slot, runs: int, executed: int, e: int, epochs: int, lo: nat, hi: nat, g: Gpu)
    requires Books(s, false, runs, executed, e, lo, hi, g) && epochs == e + Outstanding(s)
    ensures Balanced(executed, runs, epochs, lo, hi)
  {
  }

  lemma AmortisedBalance(s: State, es: seq<TableEvent>, p: nat, g: Gpu, lo: nat, hi: nat, l: Ledger, epochs: int)
    requires s.Valid() && Settled(s, p, g) && Undisturbed(s, es, p, g) && l == Run(s, es, p, g)
    requires 1 <= lo && AlwaysWithin(s, es, p, g, lo, hi) && l.now.heads[g] == 0
    requires epochs == l.passes + Outstanding(l.now.slots[p]) - Outstanding(s.slots[p])
    ensures Balanced(l.executed, l.runs, epochs, lo, hi)
  {
    BooksKept(s, es, p, g, lo, hi);
    BooksBalance(l.now.slots[p], l.runs, l.executed, l.passes - Outstanding(s.slots[p]), epochs, lo, hi, g);
  }

  /** Amortised fairness in microseconds of time elapsed and time allotted: with allotments of at least 500
      microseconds that stay half a millisecond below `cap`, a process never executes for more than `cap` for
      every epoch passed or still owed, and each of its runs costs it another half a millisecond. */
  lemma AmortisedMicros(s: State, es: seq<TableEvent>, p: nat, g: Gpu, l: Ledger, epochs: int, most: nat, cap: nat)
    requires s.Valid() && Settled(s, p, g) && Undisturbed(s, es, p, g) && l == Run(s, es, p, g)
    requires most >= 500 && cap == most + 500 && MicrosWithin(s, es, p, g, 500, most) && l.now.heads[g] == 0
    requires epochs == l.passes + Outstanding(l.now.slots[p]) - Outstanding(s.slots[p])
    ensures l.micros + 501 * l.runs <= cap * epochs
  {
    var d := cap / 1000;
    WithinInMillis(s, es, p, g, 500, most, 1, d);
    AmortisedBalance(s, es, p, g, 1, d, l, epochs);
    MicrosOfRun(s, es, p, g);
    ScaleUp(l.micros, l.executed, l.runs, d, epochs, cap);
  }

  lemma ScaleUp(micros: int, executed: nat, runs: nat, d: nat, epochs: int, h: nat)
    requires Balanced(executed, runs, epochs, 1, d) && d >= 1 && d * 1000 <= h && micros <= executed * 1000 + 499 * runs
    ensures micros + 501 * runs <= h * epochs
  {
    assert epochs >= 0;
    ProductGrows(d * 1000, h, epochs);
    assert d * 1000 * epochs == 1000 * (d * epochs);
  }

  /** A registered slot starts with penalty 0, and the first recompute to follow settles it without
      charging the run it may have had before. */
  lemma {:induction false} FirstRunIsFree(s: State, es: seq<TableEvent>, p: nat, g: Gpu)
    requires s.Valid() && p < MAX_CONTROLLER_COUNT && Undisturbed(s, es, p, g)
    requires Schedulable(s.slots[p], g) && s.slots[p].penalty == 0 && Poised(s, p, g)
    requires Run(s, es, p, g).passes <= 1
    ensures var l := Run(s, es, p, g);
            && Schedulable(l.now.slots[p], g) && Poised(l.now, p, g)
            && l.now.slots[p].penalty == (if l.passes == 0 then 0 else -1)
  {
    if es != [] {
      FirstRunIsFree(s, Front(es), p, g);
      StepOnSlot(Run(s, Front(es), p, g).now, Last(es), p, g);
    }
  }

  // ---------- the epoch's budget ----------

  function Allotted(slots: seq<Slot>, gpu: int): nat {
    if slots == [] then 0
    else
      var last := slots[|slots| - 1];
      Allotted(slots[..|slots| - 1], gpu) + if Schedulable(last, gpu) then Micros(last.allotted) else 0
  }

  lemma SumTimes(a: nat, b: nat, d: nat)
    ensures (a + b) * d == a * d + b * d
  {
  }

  lemma {:induction false} AllottedByShares(slots: seq<Slot>, gpu: int, each: nat)
    requires forall i :: 0 <= i < |slots| && Schedulable(slots[i], gpu) ==>
               slots[i].share >= 1 && Micros(slots[i].allotted) == each
    ensures Allotted(slots, gpu) <= TotalShares(slots, gpu) * each
  {
    if slots != [] {
      var n := |slots| - 1;
      AllottedByShares(slots[..n], gpu, each);
      if Schedulable(slots[n], gpu) {
        ProductGrows(1, slots[n].share, each);
        SumTimes(TotalShares(slots[..n], gpu), slots[n].share, each);
      }
    }
  }

  lemma {:induction false} SharesUntouched(a: seq<Slot>, b: seq<Slot>, gpu: int)
    requires |a| == |b|
    requires forall i :: 0 <= i < |a| ==> b[i] == a[i].(allotted := b[i].allotted)
    ensures TotalShares(a, gpu) == TotalShares(b, gpu)
  {
    if a != [] {
      SharesUntouched(a[..|a| - 1], b[..|b| - 1], gpu);
    }
  }

  /** The quotient behind an allotment, without the division. */
  lemma AllotmentBounds(total: nat)
    requires total > 0
    ensures var each := Micros(Allotment(total));
            total * each <= EPOCH_LENGTH * 1000 < total * (each + 1)
  {
  }

  /** The allotments a recompute hands out fit in one epoch when every schedulable share is at least 1. */
  lemma EpochBudget(slots: seq<Slot>, gpu: int)
    requires var charged := ChargeAll(slots, gpu);
             && TotalShares(charged, gpu) > 0
             && forall i :: 0 <= i < |charged| && Schedulable(charged[i], gpu) ==> charged[i].share >= 1
    ensures Allotted(Recompute(slots, gpu), gpu) <= EPOCH_LENGTH * 1000
  {
    var charged, after := ChargeAll(slots, gpu), Recompute(slots, gpu);
    var total := TotalShares(charged, gpu);
    SharesUntouched(charged, after, gpu);
    AllottedByShares(after, gpu, Micros(Allotment(total)));
    AllotmentBounds(total);
  }

  /** All schedulable processes of a GPU get the same allotment, whatever their shares, and an overrun
      of it can be charged exactly when the shares on the GPU total at most 200. */
  lemma {:induction false} AllotmentIsUniform(slots: seq<Slot>, gpu: int, i: nat)
    requires i < |slots| && Schedulable(Recompute(slots, gpu)[i], gpu)
    requires TotalShares(ChargeAll(slots, gpu), gpu) > 0
    ensures var total, after := TotalShares(ChargeAll(slots, gpu), gpu), Recompute(slots, gpu)[i];
            && after.allotted == Allotment(total)
            && (Millis(after.allotted) >= 1 <==> total <= 200)
            && Millis(after.allotted) <= EPOCH_LENGTH
  {
    ChargeableThreshold(TotalShares(ChargeAll(slots, gpu), gpu));
  }

  lemma {:induction false} QuotientAtLeast(n: nat, d: nat, q: nat)
    requires d > 0
    ensures n / d >= q <==> q * d <= n
  {
    var k := n / d;
    assert k * d <= n < (k + 1) * d;
    if k >= q {
      ProductGrows(q, k, d);
    } else {
      ProductGrows(k + 1, q, d);
    }
  }

  lemma ProductGrows(a: nat, b: nat, d: nat)
    requires a <= b
    ensures a * d <= b * d
  {
  }

  lemma {:induction false} ChargeableThreshold(total: nat)
    requires total > 0
    ensures Millis(Allotment(total)) >= 1 <==> total <= 200
    ensures Millis(Allotment(total)) <= EPOCH_LENGTH
  {
    AllotmentIsSmall(total);
    QuotientAtLeast(EPOCH_LENGTH * 1000, total, 500);
  }

  /** For example: shares 1 and 3 get the same. */
  lemma SharesOneAndThree(slots: seq<Slot>)
    requires |slots| == 2 && slots[0].share == 1 && slots[1].share == 3
    requires forall i :: 0 <= i < 2 ==> Schedulable(slots[i], 0) && slots[i].penalty > 0
    ensures forall i :: 0 <= i < 2 ==> Recompute(slots, 0)[i] == slots[i].(allotted := TimeVal(0, 25_000))
  {
    assert ChargeAll(slots, 0) == slots;
    FourShares(slots);
    QuarterEpoch();
  }

  lemma QuarterEpoch()
    ensures Allotment(4) == TimeVal(0, 25_000)
  {
  }

  lemma FourShares(slots: seq<Slot>)
    requires |slots| == 2 && slots[0].share == 1 && slots[1].share == 3
    requires Schedulable(slots[0], 0) && Schedulable(slots[1], 0)
    ensures TotalShares(slots, 0) == 4
  {
    assert slots[..1][..0] == [];
    assert TotalShares(slots[..1], 0) == 1;
  }

  /** And with a total of 201 no run is ever charged, however long. */
  lemma NeverCharged(s: Slot, gpu: int)
    requires Schedulable(s, gpu) && s.penalty == -1 && s.allotted == Allotment(201)
    ensures Charge(s, gpu) == s
  {
    ChargeableThreshold(201);
  }

  // ---------- the timer of a slice ----------

  /** A wake hands its process the slot's allotment as the value of its interval timer; a value of zero would
      set no timer at all. */
  predicate TimerRuns(s: Slot) {
    Micros(s.allotted) > 0
  }

  /** An allotment changes only with a recompute of its own GPU: up to the first one, a process runs on the
      timer that its slot had before. */
  lemma {:induction false} TimerUntilRecompute(s: State, es: seq<TableEvent>, p: nat, g: Gpu)
    requires s.Valid() && p < MAX_CONTROLLER_COUNT && Undisturbed(s, es, p, g)
    requires Schedulable(s.slots[p], g) && Poised(s, p, g)
    requires Run(s, es, p, g).passes == 0
    ensures var slot := Run(s, es, p, g).now.slots[p];
            && Schedulable(slot, g) && Poised(Run(s, es, p, g).now, p, g)
            && slot.allotted == s.slots[p].allotted && (TimerRuns(slot) <==> TimerRuns(s.slots[p]))
  {
    if es != [] {
      TimerUntilRecompute(s, Front(es), p, g);
      StepOnSlot(Run(s, Front(es), p, g).now, Last(es), p, g);
    }
  }

  /** From a recompute on, the timer of a schedulable process runs exactly when the shares total at most
      100000, or, when they total 0, if it ran before. */
  lemma {:induction false} TimerAfterRecompute(slots: seq<Slot>, gpu: int, i: nat)
    requires i < |slots| && Schedulable(Recompute(slots, gpu)[i], gpu)
    ensures var total := TotalShares(ChargeAll(slots, gpu), gpu);
            TimerRuns(Recompute(slots, gpu)[i]) <==>
            if total == 0 then TimerRuns(slots[i]) else total <= EPOCH_LENGTH * 1000
  {
    var total := TotalShares(ChargeAll(slots, gpu), gpu);
    if total > 0 {
      QuotientAtLeast(EPOCH_LENGTH * 1000, total, 1);
    }
  }

  /** So the first process ever registered in a slot runs without a timer until its GPU's next recompute. */
  lemma FirstTimerIsOff(pid: int, g: Gpu, share: nat)
    ensures var s := Register(EmptyTable(), pid, g, share);
            Schedulable(s.slots[0], g) && Poised(s, 0, g) && !TimerRuns(s.slots[0])
  {
  }
}
