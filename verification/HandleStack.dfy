/** The client's stack of fat-cubin handles: one row for each registered fat binary, holding the handle that
    each backend node returned for it. */
module HandleStack {
  const MAX_FATCUBIN_HANDLES := 1000
  const MAX_BACKEND_NODES := 100
  const FAT_MAGIC := 0x1ee55a01
  const FAT_MAGIC2 := 0x466243b1

  predicate Recognised(magic: int) {
    magic == FAT_MAGIC || magic == FAT_MAGIC2
  }

  /** The rows of the table, of which the first `counter` are in use. */
  datatype Stack = Stack(rows: seq<seq<nat>>, counter: nat)

  /** A registration has the handles that the nodes return for it. */
  datatype Event = Register(magic: int, obtained: seq<nat>) | Unregister | UseTop

  predicate Possible(s: Stack, e: Event) {
    match e
    case Register(_, _) => s.counter < |s.rows|
    case _ => 0 < s.counter <= |s.rows|
  }

  /** An unrecognised magic takes a row without writing it. */
  function Next(s: Stack, e: Event): Stack
    requires Possible(s, e)
  {
    match e
    case Register(magic, obtained) =>
      Stack(if Recognised(magic) then s.rows[s.counter := obtained] else s.rows, s.counter + 1)
    case Unregister => Stack(s.rows, s.counter - 1)
    case UseTop => s
  }

  function Top(s: Stack): seq<nat>
    requires 0 < s.counter <= |s.rows|
  {
    s.rows[s.counter - 1]
  }

  /** The calls made for a row: handle i goes to node i. */
  function Calls(row: seq<nat>): (r: seq<(nat, nat)>)
    ensures |r| == |row| && forall i :: 0 <= i < |row| ==> r[i] == (i, row[i])
  {
    seq(|row|, i requires 0 <= i < |row| => (i, row[i]))
  }

  /** 3.2 and 4.0 binaries are recognised, and nothing else is. */
  lemma MagicMeans(magic: int)
    ensures Recognised(magic) <==> magic == 0x1ee5_5a01 || magic == 0x4662_43b1
  {
  }

  /** A registration moves the counter and, if recognised, puts the handles into the row the counter was at; an
      unregistration moves it back; the other rows stay. */
  lemma NextMeans(s: Stack, e: Event)
    requires Possible(s, e) && s.counter <= |s.rows|
    ensures |Next(s, e).rows| == |s.rows|
    ensures Next(s, e).counter == (if e.Register? then s.counter + 1 else if e.Unregister? then s.counter - 1 else s.counter)
    ensures forall r :: 0 <= r < |s.rows| ==>
              Next(s, e).rows[r] == if e.Register? && Recognised(e.magic) && r == s.counter then e.obtained else s.rows[r]
  {
  }

  // ---------- runs ----------

  predicate Runs(s: Stack, es: seq<Event>)
    decreases |es|, 0
  {
    es == [] ||
    var front := es[..|es| - 1];
    Runs(s, front) && Possible(Run(s, front), es[|es| - 1])
  }

  function Run(s: Stack, es: seq<Event>): Stack
    requires Runs(s, es)
    decreases |es|, 1
  {
    if es == [] then s else Next(Run(s, es[..|es| - 1]), es[|es| - 1])
  }

  predicate AllRecognised(es: seq<Event>) {
    forall i :: 0 <= i < |es| && es[i].Register? ==> Recognised(es[i].magic)
  }

  /** The rows of handles that the nodes have returned. */
  function Obtained(es: seq<Event>): multiset<seq<nat>> {
    if es == [] then multiset{}
    else
      var e := es[|es| - 1];
      Obtained(es[..|es| - 1]) +
      if e.Register? && Recognised(e.magic) then multiset{e.obtained} else multiset{}
  }

  /** The rows of handles that have been given back, handle i of a row to node i. */
  function Released(s: Stack, es: seq<Event>): multiset<seq<nat>>
    requires Runs(s, es)
    decreases |es|
  {
    if es == [] then multiset{}
    else
      var front := es[..|es| - 1];
      Released(s, front) + if es[|es| - 1].Unregister? then multiset{Top(Run(s, front))} else multiset{}
  }

  function Registrations(es: seq<Event>): nat {
    if es == [] then 0 else Registrations(es[..|es| - 1]) + if es[|es| - 1].Register? then 1 else 0
  }

  lemma OneMoreRow(rows: seq<seq<nat>>, k: nat)
    requires k < |rows|
    ensures multiset(rows[..k + 1]) == multiset(rows[..k]) + multiset{rows[k]}
  {
    assert rows[..k + 1] == rows[..k] + [rows[k]];
  }

  /** Every handle obtained has been released or is on the stack, after any step. */
  lemma StepConserves(t: Stack, e: Event, obtained: multiset<seq<nat>>, released: multiset<seq<nat>>)
    requires t.counter <= |t.rows| && Possible(t, e) && (e.Register? ==> Recognised(e.magic))
    requires obtained == released + multiset(t.rows[..t.counter])
    ensures var u := Next(t, e);
            && u.counter <= |u.rows|
            && obtained + (if e.Register? then multiset{e.obtained} else multiset{})
               == released + (if e.Unregister? then multiset{Top(t)} else multiset{}) + multiset(u.rows[..u.counter])
  {
    var u := Next(t, e);
    if e.Register? {
      OneMoreRow(u.rows, t.counter);
      assert u.rows[..t.counter] == t.rows[..t.counter];
    } else if e.Unregister? {
      OneMoreRow(t.rows, u.counter);
    }
  }

  lemma {:induction false} Conservation(s: Stack, es: seq<Event>)
    requires s.counter == 0 && Runs(s, es) && AllRecognised(es)
    ensures var t := Run(s, es);
            t.counter <= |t.rows| && Obtained(es) == Released(s, es) + multiset(t.rows[..t.counter])
  {
    if es != [] {
      var front, e := es[..|es| - 1], es[|es| - 1];
      Conservation(s, front);
      StepConserves(Run(s, front), e, Obtained(front), Released(s, front));
    }
  }

  lemma RecognisedSoFar(es: seq<Event>)
    requires es != []
    ensures var front, e := es[..|es| - 1], es[|es| - 1];
            AllRecognised(es) <==> AllRecognised(front) && (e.Register? ==> Recognised(e.magic))
  {
    assert es == es[..|es| - 1] + [es[|es| - 1]];
  }

  /** Every registration makes one release necessary, but only those with a recognised magic obtain
      handles. */
  lemma {:induction false} Counting(s: Stack, es: seq<Event>)
    requires s.counter == 0 && Runs(s, es)
    ensures Run(s, es).counter + |Released(s, es)| == Registrations(es)
    ensures |Obtained(es)| <= Registrations(es)
    ensures |Obtained(es)| == Registrations(es) <==> AllRecognised(es)
  {
    if es != [] {
      Counting(s, es[..|es| - 1]);
      RecognisedSoFar(es);
    }
  }

  /** Once the stack is empty again, every handle has been released exactly once, and nothing else has,
      exactly when every fat binary had a recognised magic. */
  lemma ReleasedOnceIff(s: Stack, es: seq<Event>)
    requires s.counter == 0 && Runs(s, es) && Run(s, es).counter == 0
    ensures Released(s, es) == Obtained(es) <==> AllRecognised(es)
  {
    Counting(s, es);
    if AllRecognised(es) {
      Conservation(s, es);
      assert Run(s, es).rows[..0] == [];
    }
  }

  /** For example: a fat binary of another format obtains nothing, but the handle left in its row is
      released. */
  lemma UnrecognisedMagic(s: Stack, obtained: seq<nat>) returns (es: seq<Event>)
    requires s.counter == 0 && s.rows != []
    ensures es == [Register(0, obtained), Unregister] && Runs(s, es) && Run(s, es).counter == 0
    ensures Obtained(es) == multiset{} && Released(s, es) == multiset{s.rows[0]}
  {
    es := [Register(0, obtained), Unregister];
    OneEvent(s, es[0]);
    OneMoreEvent(s, [es[0]], es[1]);
    assert Top(Run(s, [es[0]])) == s.rows[0];
  }

  lemma OneMoreEvent(s: Stack, es: seq<Event>, e: Event)
    requires Runs(s, es) && Possible(Run(s, es), e)
    ensures Runs(s, es + [e]) && Run(s, es + [e]) == Next(Run(s, es), e)
    ensures Released(s, es + [e]) ==
            Released(s, es) + if e.Unregister? then multiset{Top(Run(s, es))} else multiset{}
    ensures Obtained(es + [e]) ==
            Obtained(es) + if e.Register? && Recognised(e.magic) then multiset{e.obtained} else multiset{}
  {
    assert (es + [e])[..|es|] == es;
  }

  lemma OneEvent(s: Stack, e: Event)
    requires Possible(s, e)
    ensures Runs(s, [e]) && Run(s, [e]) == Next(s, e)
    ensures Released(s, [e]) == if e.Unregister? then multiset{Top(s)} else multiset{}
    ensures Obtained([e]) == if e.Register? && Recognised(e.magic) then multiset{e.obtained} else multiset{}
  {
    OneMoreEvent(s, [], e);
    assert [] + [e] == [e];
  }

  // ---------- the handles of each node ----------

  /** The handles that calls carry to a node. */
  function HandlesFor(calls: seq<(nat, nat)>, node: nat): multiset<nat> {
    if calls == [] then multiset{}
    else
      var last := calls[|calls| - 1];
      HandlesFor(calls[..|calls| - 1], node) + if last.0 == node then multiset{last.1} else multiset{}
  }

  lemma {:induction false} OneHandlePerNode(calls: seq<(nat, nat)>, node: nat)
    requires forall i :: 0 <= i < |calls| ==> calls[i].0 == i
    ensures HandlesFor(calls, node) == if node < |calls| then multiset{calls[node].1} else multiset{}
  {
    if calls != [] {
      OneHandlePerNode(calls[..|calls| - 1], node);
    }
  }

  /** All rows have one handle for each node. */
  predicate ForNodes(s: Stack, es: seq<Event>, nodes: nat) {
    && (forall r :: 0 <= r < |s.rows| ==> |s.rows[r]| == nodes)
    && forall i :: 0 <= i < |es| && es[i].Register? ==> |es[i].obtained| == nodes
  }

  /** The handles that a node has returned. */
  function ObtainedFrom(es: seq<Event>, node: nat): multiset<nat> {
    if es == [] then multiset{}
    else
      var e := es[|es| - 1];
      ObtainedFrom(es[..|es| - 1], node) +
      if e.Register? && Recognised(e.magic) && node < |e.obtained| then multiset{e.obtained[node]} else multiset{}
  }

  /** The handles that the calls of all unregistrations have carried to a node. */
  function ReleasedAt(s: Stack, es: seq<Event>, node: nat): multiset<nat>
    requires Runs(s, es)
    decreases |es|
  {
    if es == [] then multiset{}
    else
      var front := es[..|es| - 1];
      ReleasedAt(s, front, node) +
      if es[|es| - 1].Unregister? then HandlesFor(Calls(Top(Run(s, front))), node) else multiset{}
  }

  /** The handles of a node in the rows in use. */
  function HeldFor(rows: seq<seq<nat>>, node: nat): multiset<nat> {
    if rows == [] then multiset{}
    else
      var last := rows[|rows| - 1];
      HeldFor(rows[..|rows| - 1], node) + if node < |last| then multiset{last[node]} else multiset{}
  }

  lemma OneMoreHeld(rows: seq<seq<nat>>, k: nat, node: nat)
    requires k < |rows|
    ensures HeldFor(rows[..k + 1], node) ==
            HeldFor(rows[..k], node) + if node < |rows[k]| then multiset{rows[k][node]} else multiset{}
  {
    assert rows[..k + 1][..k] == rows[..k];
  }

  lemma PushHeld(rows: seq<seq<nat>>, k: nat, row: seq<nat>, node: nat)
    requires k < |rows|
    ensures HeldFor(rows[k := row][..k + 1], node) ==
            HeldFor(rows[..k], node) + if node < |row| then multiset{row[node]} else multiset{}
  {
    OneMoreHeld(rows[k := row], k, node);
    assert rows[k := row][..k] == rows[..k];
  }

  lemma PopHeld(rows: seq<seq<nat>>, k: nat, node: nat)
    requires k < |rows|
    ensures HeldFor(rows[..k + 1], node) == HeldFor(rows[..k], node) + HandlesFor(Calls(rows[k]), node)
  {
    OneMoreHeld(rows, k, node);
    OneHandlePerNode(Calls(rows[k]), node);
  }

  lemma StepConservesAt(t: Stack, e: Event, node: nat, obtained: multiset<nat>, released: multiset<nat>)
    requires t.counter <= |t.rows| && Possible(t, e) && (e.Register? ==> Recognised(e.magic))
    requires obtained == released + HeldFor(t.rows[..t.counter], node)
    ensures var u := Next(t, e);
            && u.counter <= |u.rows|
            && obtained + (if e.Register? && node < |e.obtained| then multiset{e.obtained[node]} else multiset{})
               == released + (if e.Unregister? then HandlesFor(Calls(Top(t)), node) else multiset{})
                  + HeldFor(u.rows[..u.counter], node)
  {
    match e {
      case Register(_, row) => PushHeld(t.rows, t.counter, row, node);
      case Unregister => PopHeld(t.rows, t.counter - 1, node);
      case UseTop =>
    }
  }

  /** What a node has returned has been given back to that node, or is held for it, at every moment. */
  lemma {:induction false} ConservationAt(s: Stack, es: seq<Event>, node: nat)
    requires s.counter == 0 && Runs(s, es) && AllRecognised(es)
    ensures var t := Run(s, es);
            t.counter <= |t.rows| &&
            ObtainedFrom(es, node) == ReleasedAt(s, es, node) + HeldFor(t.rows[..t.counter], node)
  {
    if es != [] {
      var front, e := es[..|es| - 1], es[|es| - 1];
      ConservationAt(s, front, node);
      RecognisedSoFar(es);
      StepConservesAt(Run(s, front), e, node, ObtainedFrom(front, node), ReleasedAt(s, front, node));
    }
  }

  lemma {:induction false} RowsForNodes(s: Stack, es: seq<Event>, nodes: nat)
    requires s.counter == 0 && Runs(s, es) && ForNodes(s, es, nodes)
    ensures forall r :: 0 <= r < |Run(s, es).rows| ==> |Run(s, es).rows[r]| == nodes
  {
    if es != [] {
      RowsForNodes(s, es[..|es| - 1], nodes);
    }
  }

  lemma OneReleasedPerNode(s: Stack, es: seq<Event>, nodes: nat, node: nat)
    requires s.counter == 0 && Runs(s, es) && ForNodes(s, es, nodes) && node < nodes && Possible(Run(s, es), Unregister)
    ensures |HandlesFor(Calls(Top(Run(s, es))), node)| == 1
  {
    RowsForNodes(s, es, nodes);
    OneHandlePerNode(Calls(Top(Run(s, es))), node);
  }

  lemma {:induction false} CountingAt(s: Stack, es: seq<Event>, nodes: nat, node: nat)
    requires s.counter == 0 && Runs(s, es) && ForNodes(s, es, nodes) && node < nodes
    ensures Run(s, es).counter + |ReleasedAt(s, es, node)| == Registrations(es)
    ensures |ObtainedFrom(es, node)| <= Registrations(es)
    ensures |ObtainedFrom(es, node)| == Registrations(es) <==> AllRecognised(es)
  {
    if es != [] {
      var front := es[..|es| - 1];
      CountingAt(s, front, nodes, node);
      RecognisedSoFar(es);
      if es[|es| - 1].Unregister? {
        OneReleasedPerNode(s, front, nodes, node);
      }
    }
  }

  /** Once the stack is empty again, every node has got back exactly the handles that it returned, each once and
      by a call to that node, exactly when every fat binary had a recognised magic. */
  lemma ReleasedAtIff(s: Stack, es: seq<Event>, nodes: nat, node: nat)
    requires s.counter == 0 && Runs(s, es) && Run(s, es).counter == 0 && ForNodes(s, es, nodes) && node < nodes
    ensures ReleasedAt(s, es, node) == ObtainedFrom(es, node) <==> AllRecognised(es)
  {
    CountingAt(s, es, nodes, node);
    if AllRecognised(es) {
      ConservationAt(s, es, node);
      assert Run(s, es).rows[..0] == [];
    }
  }

  // ---------- the most recent live registration ----------

  /** The handles of the registration that, read backwards, is the first one left after `skip` others:
      a later unregistration takes away the latest registration before it. */
  function LatestLive(es: seq<Event>, skip: nat): seq<nat> {
    if es == [] then []
    else
      var front := es[..|es| - 1];
      match es[|es| - 1]
      case Register(_, obtained) => if skip == 0 then obtained else LatestLive(front, skip - 1)
      case Unregister => LatestLive(front, skip + 1)
      case UseTop => LatestLive(front, skip)
  }

  lemma {:induction false} RowIsLatestLive(s: Stack, es: seq<Event>, skip: nat)
    requires s.counter == 0 && Runs(s, es) && AllRecognised(es) && skip < Run(s, es).counter <= |s.rows|
    ensures |Run(s, es).rows| == |s.rows|
    ensures Run(s, es).rows[Run(s, es).counter - 1 - skip] == LatestLive(es, skip)
    decreases |es|
  {
    if es != [] {
      var front, e := es[..|es| - 1], es[|es| - 1];
      Bounded(s, front);
      match e {
        case Register(_, _) =>
          if skip > 0 {
            RowIsLatestLive(s, front, skip - 1);
          }
        case Unregister => RowIsLatestLive(s, front, skip + 1);
        case UseTop => RowIsLatestLive(s, front, skip);
      }
    }
  }

  lemma {:induction false} Bounded(s: Stack, es: seq<Event>)
    requires s.counter == 0 && Runs(s, es)
    ensures |Run(s, es).rows| == |s.rows| && Run(s, es).counter <= |s.rows|
  {
    if es != [] {
      Bounded(s, es[..|es| - 1]);
    }
  }

  /** Functions and variables are registered under the most recent live registration. */
  lemma TopIsLatestLive(s: Stack, es: seq<Event>)
    requires s.counter == 0 && Runs(s, es) && AllRecognised(es) && Possible(Run(s, es), UseTop)
    ensures Top(Run(s, es)) == LatestLive(es, 0)
  {
    Bounded(s, es);
    RowIsLatestLive(s, es, 0);
  }

  /** At every node, functions and variables are registered under the handle that this node returned for the
      most recent live registration. */
  lemma TopCallIsLatestLive(s: Stack, es: seq<Event>, node: nat)
    requires s.counter == 0 && Runs(s, es) && AllRecognised(es) && Possible(Run(s, es), UseTop)
    requires node < |Top(Run(s, es))|
    ensures node < |LatestLive(es, 0)| && Calls(Top(Run(s, es)))[node] == (node, LatestLive(es, 0)[node])
  {
    TopIsLatestLive(s, es);
  }

  // ---------- the table ----------

  class HandleTable {
    const nodes: nat
    const table: array2<nat>
    var counter: nat

    ghost predicate Valid()
      reads this
    {
      nodes <= MAX_BACKEND_NODES == table.Length1 && counter <= MAX_FATCUBIN_HANDLES == table.Length0
    }

    ghost function Row(r: nat): (row: seq<nat>)
      requires Valid() && r < MAX_FATCUBIN_HANDLES
      reads this, table
      ensures |row| == nodes && forall i :: 0 <= i < nodes ==> row[i] == table[r, i]
    {
      seq(nodes, i requires 0 <= i < nodes && r < table.Length0 && nodes <= table.Length1 reads table => table[r, i])
    }

    ghost function View(): (s: Stack)
      requires Valid()
      reads this, table
      ensures |s.rows| == MAX_FATCUBIN_HANDLES && s.counter == counter
      ensures forall r :: 0 <= r < MAX_FATCUBIN_HANDLES ==> s.rows[r] == Row(r)
    {
      Stack(seq(MAX_FATCUBIN_HANDLES, r requires Valid() && 0 <= r < MAX_FATCUBIN_HANDLES reads this, table => Row(r)), counter)
    }

    constructor (nodes: nat)
      requires nodes <= MAX_BACKEND_NODES
      ensures Valid() && this.nodes == nodes && View().counter == 0 && fresh(table)
    {
      this.nodes := nodes;
      table := new nat[MAX_FATCUBIN_HANDLES, MAX_BACKEND_NODES]((_, _) => 0);
      counter := 0;
    }

    /** __cudaRegisterFatBinary, given what each node returns. The counter has no upper check. */
    method RegisterFatBinary(magic: int, obtained: seq<nat>)
      requires Valid() && counter < MAX_FATCUBIN_HANDLES && |obtained| == nodes
      modifies this`counter, table
      ensures Valid() && View() == Next(old(View()), Register(magic, obtained))
    {
      counter := counter + 1;
      if magic == FAT_MAGIC || magic == FAT_MAGIC2 {
        ghost var before := old(View().rows);
        var index := 0;
        while index < nodes
          invariant index <= nodes && counter == old(counter) + 1
          invariant forall i :: 0 <= i < index ==> table[counter - 1, i] == obtained[i]
          invariant forall r, i :: 0 <= r < MAX_FATCUBIN_HANDLES && 0 <= i < nodes && r != counter - 1 ==>
                      table[r, i] == old(table[r, i])
        {
          table[counter - 1, index] := obtained[index];
          index := index + 1;
        }
        assert Row(counter - 1) == obtained;
        forall r | 0 <= r < MAX_FATCUBIN_HANDLES
          ensures View().rows[r] == before[counter - 1 := obtained][r]
        {
          assert r != counter - 1 ==> Row(r) == before[r];
        }
        assert View().rows == before[counter - 1 := obtained];
      } else {
        SameRows(old(View().rows));
      }
    }

    /** The rows do not depend on the counter. */
    lemma SameRows(rows: seq<seq<nat>>)
      requires Valid() && |rows| == MAX_FATCUBIN_HANDLES
      requires forall r :: 0 <= r < MAX_FATCUBIN_HANDLES ==> |rows[r]| == nodes
      requires forall r, i :: 0 <= r < MAX_FATCUBIN_HANDLES && 0 <= i < nodes ==> rows[r][i] == table[r, i]
      ensures View().rows == rows
    {
      forall r | 0 <= r < MAX_FATCUBIN_HANDLES ensures View().rows[r] == rows[r] {
        assert Row(r) == rows[r];
      }
    }

    /** The handles under which a function or a variable is registered at the nodes. */
    method TopCalls() returns (calls: seq<(nat, nat)>)
      requires Valid() && counter > 0
      ensures calls == Calls(Top(View()))
      ensures |calls| == nodes && forall i :: 0 <= i < nodes ==> calls[i] == (i, Top(View())[i])
    {
      calls := [];
      var index := 0;
      while index < nodes
        invariant index <= nodes && calls == Calls(Top(View()))[..index]
      {
        calls := calls + [(index, table[counter - 1, index])];
        index := index + 1;
      }
    }

    /** __cudaUnregisterFatBinary releases the handles of the top row. */
    method UnregisterFatBinary() returns (calls: seq<(nat, nat)>)
      requires Valid() && counter > 0
      modifies this`counter
      ensures Valid() && View() == Next(old(View()), Unregister)
      ensures calls == Calls(Top(old(View())))
      ensures |calls| == nodes && forall i :: 0 <= i < nodes ==> calls[i] == (i, Top(old(View()))[i])
    {
      calls := TopCalls();
      counter := counter - 1;
      SameRows(old(View().rows));
    }
  }
}
