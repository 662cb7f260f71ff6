/** What each step of the fair-share scheduler does to the table, field by field and in microseconds. */
module FairShareSteps {
  import opened TimeVals
  import opened SchedCommons
  import opened FairShare

  // ---------- charging ----------

  /** Whole milliseconds, rounded, of a time in microseconds. */
  function Rounded(micros: int): int {
    (micros + 500) / 1000
  }

  /** Charging touches penalty and state only. An active slot of the GPU that is not serving a penalty gets
      the quotient of time run and time allotted; a waiting one becomes active. */
  lemma ChargeMeans(s: Slot, gpu: int)
    ensures var r := Charge(s, gpu);
            && r == s.(penalty := r.penalty, state := r.state)
            && (s.gpu != gpu ==> r == s)
            && r.state == (if s.gpu == gpu && s.state == Waiting && s.penalty == -1 then Active else s.state)
            && (s.state != Active ==> r.penalty == s.penalty)
            && (s.gpu == gpu && s.state == Active && s.penalty == 0 ==> r.penalty == -1)
            && (s.penalty > 0 || s.penalty < -1 ==> r.penalty == s.penalty)
            && (s.penalty == -1 && Rounded(Micros(s.allotted)) == 0 ==> r.penalty == -1)
  {
    MillisRounds(s.allotted);
  }

  /** The number of epochs charged, 0 being written as -1. */
  lemma ChargeQuotient(s: Slot, gpu: int, k: int)
    requires s.gpu == gpu && s.state == Active && s.penalty == -1 && Rounded(Micros(s.allotted)) > 0
    requires k == if Charge(s, gpu).penalty == -1 then 0 else Charge(s, gpu).penalty
    ensures 0 <= k && Charge(s, gpu).penalty != 0
    ensures k * Rounded(Micros(s.allotted)) <= Rounded(Micros(s.ran)) < (k + 1) * Rounded(Micros(s.allotted))
  {
    MillisRounds(s.allotted);
    MillisRounds(s.ran);
  }

  /** For example: 1.1 seconds on an allotment of 25 milliseconds are 44 epochs. */
  lemma FortyFourEpochs(s: Slot, gpu: int)
    requires s.gpu == gpu && s.state == Active && s.penalty == -1
    requires s.allotted == TimeVal(0, 25_000) && s.ran == TimeVal(1, 100_000)
    ensures Charge(s, gpu).penalty == 44
  {
    SecondIsMillion(0, 25_000);
    SecondIsMillion(1, 100_000);
    ChargeQuotient(s, gpu, if Charge(s, gpu).penalty == -1 then 0 else Charge(s, gpu).penalty);
  }

  // ---------- shares and allotments ----------

  /** A slot adds its share to the total if it is active on the GPU, and nothing otherwise. */
  lemma {:induction false} ShareCounts(slots: seq<Slot>, gpu: int, i: nat, x: Slot)
    requires i < |slots|
    ensures TotalShares(slots[i := x], gpu) == TotalShares(slots, gpu)
            - (if slots[i].gpu == gpu && slots[i].state == Active then slots[i].share else 0)
            + (if x.gpu == gpu && x.state == Active then x.share else 0)
  {
    var n := |slots| - 1;
    if i < n {
      ShareCounts(slots[..n], gpu, i, x);
      assert slots[i := x][..n] == slots[..n][i := x];
    } else {
      assert slots[i := x][..n] == slots[..n];
    }
  }

  lemma {:induction false} NoShares(slots: seq<Slot>, gpu: int)
    requires forall i :: 0 <= i < |slots| ==> !(slots[i].gpu == gpu && slots[i].state == Active)
    ensures TotalShares(slots, gpu) == 0
  {
    if slots != [] {
      NoShares(slots[..|slots| - 1], gpu);
    }
  }

  /** A recompute charges every slot; if the shares then total anything, each active slot of the GPU is allotted
      the largest number of microseconds of which that many fit in 100 milliseconds, and no other slot is. */
  lemma RecomputeMeans(slots: seq<Slot>, gpu: int, i: nat)
    requires i < |slots|
    ensures |ChargeAll(slots, gpu)| == |slots| && ChargeAll(slots, gpu)[i] == Charge(slots[i], gpu)
    ensures var total, r, c := TotalShares(ChargeAll(slots, gpu), gpu), Recompute(slots, gpu)[i], Charge(slots[i], gpu);
            && r == c.(allotted := r.allotted)
            && (total == 0 || c.gpu != gpu || c.state != Active ==> r == c)
            && (total > 0 && c.gpu == gpu && c.state == Active ==>
                  && r.allotted.sec == 0
                  && total * r.allotted.usec <= 100_000 < total * (r.allotted.usec + 1))
  {
    var total := TotalShares(ChargeAll(slots, gpu), gpu);
    if total > 0 {
      AllotmentDivides(total);
    }
  }

  lemma AllotmentDivides(total: nat)
    requires total > 0
    ensures Allotment(total).sec == 0
    ensures total * Allotment(total).usec <= 100_000 < total * (Allotment(total).usec + 1)
  {
  }

  // ---------- the control thread ----------

  /** The scan starts from a slot that is active on the GPU and has no penalty left by reading its pid; any other
      slot it passes over, taking one from its penalty if it is active there. */
  lemma ScanMeans(s: State, g: Gpu)
    requires s.Valid()
    ensures var h := s.heads[g]; var slot, r := s.slots[h], ScanStep(s, g);
            var mine := slot.gpu == g && slot.state == Active;
            && (s.count == 0 || s.turns[g] != Idle ==> r == s)
            && (s.count != 0 && s.turns[g] == Idle && mine && slot.penalty <= 0 ==>
                  r == s.(turns := s.turns[g := Picked(slot.pid)]))
            && (s.count != 0 && s.turns[g] == Idle && !(mine && slot.penalty <= 0) ==>
                  Advanced(s, r, g, if mine then slot.(penalty := slot.penalty - 1) else slot))
  {
    AdvanceMeans(s, g, Skip(s.slots[s.heads[g]], g));
  }

  /** The head has moved on by one round the ring of 500 slots, over a slot left as `visited`, and a recompute
      has been made exactly if it has come back to slot 0. */
  predicate Advanced(s: State, r: State, g: Gpu, visited: Slot)
    requires s.Valid()
  {
    var h := s.heads[g];
    var slots := s.slots[h := visited];
    && r.count == s.count && r.turns == s.turns[g := Idle]
    && r.heads == s.heads[g := if h == 499 then 0 else h + 1]
    && r.slots == if h == 499 then Recompute(slots, g) else slots
  }

  lemma AdvanceMeans(s: State, g: Gpu, visited: Slot)
    requires s.Valid()
    ensures Advanced(s, Advance(s, g, visited), g, visited)
  {
  }

  /** The pid read is woken if the slot is still active, and otherwise nobody. */
  lemma WakeMeans(s: State, g: Gpu)
    requires s.Valid()
    ensures var r, slot := WakeStep(s, g), s.slots[s.heads[g]];
            && r == s.(turns := r.turns) && (forall h :: 0 <= h < NUM_GPUS && h != g ==> r.turns[h] == s.turns[h])
            && (!s.turns[g].Picked? ==> r.turns[g] == s.turns[g])
            && (s.turns[g].Picked? && slot.state == Active ==> r.turns[g] == Running(s.turns[g].pid))
            && (s.turns[g].Picked? && slot.state != Active ==> r.turns[g] == Missed)
  {
  }

  /** The end of a slice records the time, and the paging that ended it if the process had been woken. */
  lemma EndMeans(s: State, g: Gpu, o: Outcome)
    requires s.Valid()
    ensures var r, slot := EndStep(s, g, o), s.slots[s.heads[g]];
            && (s.turns[g].Idle? || s.turns[g].Picked? ==> r == s)
            && (s.turns[g].Missed? ==> Advanced(s, r, g, slot.(ran := o.elapsed)))
            && (s.turns[g].Running? && o.EndOfInterval? ==> Advanced(s, r, g, slot.(ran := o.elapsed)))
            && (s.turns[g].Running? && o.PagingBegan? ==>
                  Advanced(s, r, g, slot.(ran := o.elapsed, state := Paging)))
  {
    AdvanceMeans(s, g, Finish(s.slots[s.heads[g]], s.turns[g].Running?, o));
  }

  // ---------- the listener and the pager ----------

  /** Adding changes nothing if a slot has the pid or the handlers failed to install; otherwise the slot at the
      count gets the process, active and without penalty, but keeps its times, and the count moves on. */
  lemma AddMeans(s: State, pid: int, gpu: int, share: nat, err: int)
    requires s.Valid()
    ensures var r, known, n := AddStep(s, pid, gpu, share, err), exists i :: 0 <= i < |s.slots| && s.slots[i].pid == pid, s.count;
            && (known || err != 0 ==> r == s)
            && (!known && err == 0 ==>
                  && r.heads == s.heads && r.turns == s.turns && r.count == (if n == 499 then 0 else n + 1)
                  && (forall i :: 0 <= i < 500 && i != n ==> r.slots[i] == s.slots[i])
                  && r.slots[n].pid == pid && r.slots[n].share == share && r.slots[n].state == Active
                  && r.slots[n].penalty == 0 && r.slots[n].gpu == gpu
                  && r.slots[n].allotted == s.slots[n].allotted && r.slots[n].ran == s.slots[n].ran)
  {
    if exists i :: 0 <= i < |s.slots| && s.slots[i].pid == pid {
      var i :| 0 <= i < |s.slots| && s.slots[i].pid == pid;
      assert PidOf(s.slots[i]) == pid;
    }
  }

  /** Removing empties and deactivates the first slot with the pid on the GPU, if there is one, and touches
      nothing else. */
  lemma RemoveMeans(s: State, pid: int, gpu: int)
    requires s.Valid()
    ensures (forall i :: 0 <= i < |s.slots| ==> !(s.slots[i].pid == pid && s.slots[i].gpu == gpu)) ==>
              RemoveStep(s, pid, gpu) == s
    ensures forall i :: 0 <= i < |s.slots| && IsFirst(s.slots, pid, gpu, i) ==>
              RemoveStep(s, pid, gpu) == s.(slots := s.slots[i := s.slots[i].(pid := 0, state := Inactive)])
  {
    forall i | 0 <= i < |s.slots| && IsFirst(s.slots, pid, gpu, i)
      ensures FirstIndex(s.slots, Bound(pid, gpu), 0) == i
    {
      FirstIs(s.slots, Bound(pid, gpu), i);
    }
  }

  /** Slot i is the first with that pid on that GPU. */
  predicate IsFirst(slots: seq<Slot>, pid: int, gpu: int, i: nat)
    requires i < |slots|
  {
    && slots[i].pid == pid && slots[i].gpu == gpu
    && forall j :: 0 <= j < i ==> !(slots[j].pid == pid && slots[j].gpu == gpu)
  }

  lemma FirstIs(slots: seq<Slot>, p: Slot -> bool, i: nat)
    requires i < |slots| && p(slots[i]) && forall j :: 0 <= j < i ==> !p(slots[j])
    ensures FirstIndex(slots, p, 0) == i
  {
  }

  /** The pager marks the first active slot of its victim, or slot 0. */
  lemma VictimMeans(slots: seq<Slot>, pid: int)
    requires |slots| == MAX_CONTROLLER_COUNT
    ensures var v := VictimIndex(slots, pid);
            && (v != 0 ==> slots[v].state == Active && slots[v].pid == pid)
            && forall j :: 0 <= j < |slots| && slots[j].state == Active && slots[j].pid == pid ==>
                 v <= j && slots[v].state == Active && slots[v].pid == pid
  {
    var i := FirstIndex(slots, ActiveAs(pid), 0);
    forall j | 0 <= j < |slots| && slots[j].state == Active && slots[j].pid == pid ensures i <= j {
      assert ActiveAs(pid)(slots[j]);
    }
  }

  lemma MarkMeans(s: State, i: nat, state: ProcState)
    requires s.Valid() && i < MAX_CONTROLLER_COUNT
    ensures var r := SetState(s, i, state);
            && r == s.(slots := r.slots) && |r.slots| == |s.slots| && r.slots[i] == s.slots[i].(state := state)
            && forall j :: 0 <= j < |s.slots| && j != i ==> r.slots[j] == s.slots[j]
  {
  }
}
