/** The client's global numbering of the devices of all its backend nodes. */
module DeviceTable {
  const MAX_BACKEND_NODES := 100
  const MAX_BACKEND_DEVICES := 1000

  /** The (node, local device) pairs in the order of the nodes. */
  function Devices(counts: seq<nat>): seq<(nat, nat)> {
    if counts == [] then []
    else
      var n := |counts| - 1;
      Devices(counts[..n]) + seq(counts[n], l => (n, l))
  }

  /** The number of devices on the first i nodes. */
  function Before(counts: seq<nat>, i: nat): nat
    requires i <= |counts|
  {
    if i == 0 then 0 else Before(counts, i - 1) + counts[i - 1]
  }

  lemma {:induction false} DevicesBefore(counts: seq<nat>, i: nat)
    requires i <= |counts|
    ensures |Devices(counts[..i])| == Before(counts, i)
    ensures Devices(counts[..i]) <= Devices(counts)
    decreases |counts|, i
  {
    if i == |counts| {
      assert counts[..i] == counts;
      if i > 0 {
        DevicesBefore(counts, i - 1);
      }
    } else {
      var front := counts[..|counts| - 1];
      DevicesBefore(front, i);
      assert front[..i] == counts[..i];
      BeforeOfPrefix(counts, i, |front|);
    }
  }

  lemma {:induction false} BeforeOfPrefix(counts: seq<nat>, i: nat, n: nat)
    requires i <= n <= |counts|
    ensures Before(counts[..n], i) == Before(counts, i)
  {
    if i > 0 {
      BeforeOfPrefix(counts, i - 1, n);
    }
  }

  /** Global number k belongs to exactly the pair it is computed from, and every pair has a number: the
      two directions of a bijection. Nodes without devices are skipped. */
  lemma {:induction false} NumberToPair(counts: seq<nat>, k: nat)
    requires k < |Devices(counts)|
    ensures var (node, l) := Devices(counts)[k];
            node < |counts| && l < counts[node] && Before(counts, node) + l == k
  {
    var n := |counts| - 1;
    DevicesBefore(counts, n);
    assert counts[..n][..n] == counts[..n];
    if k < |Devices(counts[..n])| {
      NumberToPair(counts[..n], k);
      var node := Devices(counts[..n])[k].0;
      BeforeOfPrefix(counts, node, n);
    }
  }

  lemma {:induction false} PairToNumber(counts: seq<nat>, node: nat, l: nat)
    requires node < |counts| && l < counts[node]
    ensures var k := Before(counts, node) + l;
            k < |Devices(counts)| && Devices(counts)[k] == (node, l)
  {
    DevicesBefore(counts, node);
    DevicesBefore(counts, node + 1);
    assert counts[..node + 1][..node] == counts[..node];
    assert Devices(counts[..node + 1]) == Devices(counts[..node]) + seq(counts[node], j => (node, j));
  }

  lemma NumberingIsBijection(counts: seq<nat>)
    ensures forall j, k :: 0 <= j < k < |Devices(counts)| ==> Devices(counts)[j] != Devices(counts)[k]
    ensures forall node: nat, l: nat ::
              (node, l) in Devices(counts) <==> node < |counts| && l < counts[node]
  {
    forall j, k | 0 <= j < k < |Devices(counts)| ensures Devices(counts)[j] != Devices(counts)[k] {
      NumberToPair(counts, j);
      NumberToPair(counts, k);
    }
    forall node: nat, l: nat
      ensures (node, l) in Devices(counts) <==> node < |counts| && l < counts[node]
    {
      if node < |counts| && l < counts[node] {
        PairToNumber(counts, node, l);
      }
      if (node, l) in Devices(counts) {
        var k :| 0 <= k < |Devices(counts)| && Devices(counts)[k] == (node, l);
        NumberToPair(counts, k);
      }
    }
  }

  /** The global tables of the client. */
  class Tables {
    var devices: nat                 // BACKEND_DEVICES
    const devicesInNode: array<nat>
    const devToIndex: array<nat>
    const devToLocaldev: array<nat>
    const cumulative: array<nat>

    ghost predicate Shaped()
    {
      && devicesInNode.Length == MAX_BACKEND_NODES
      && devToIndex.Length == devToLocaldev.Length == MAX_BACKEND_DEVICES
      && cumulative.Length == MAX_BACKEND_DEVICES + 1
      && devToIndex != devToLocaldev && devicesInNode != devToIndex && devicesInNode != devToLocaldev
      && cumulative != devToIndex && cumulative != devToLocaldev && cumulative != devicesInNode
    }

    /** The tables hold the numbering of `counts`. */
    ghost predicate Numbers(counts: seq<nat>)
      reads this, devToIndex, devToLocaldev, cumulative
    {
      && Shaped() && |counts| <= MAX_BACKEND_DEVICES
      && devices == |Devices(counts)| <= MAX_BACKEND_DEVICES
      && (forall k :: 0 <= k < devices ==> (devToIndex[k], devToLocaldev[k]) == Devices(counts)[k])
      && forall i :: 0 <= i <= |counts| ==> cumulative[i] == Before(counts, i)
    }

    constructor ()
      ensures Shaped() && devices == 0 && cumulative[0] == 0
      ensures fresh(devicesInNode) && fresh(devToIndex) && fresh(devToLocaldev) && fresh(cumulative)
    {
      devices := 0;
      devicesInNode := new nat[MAX_BACKEND_NODES](_ => 0);
      devToIndex := new nat[MAX_BACKEND_DEVICES](_ => 0);
      devToLocaldev := new nat[MAX_BACKEND_DEVICES](_ => 0);
      cumulative := new nat[MAX_BACKEND_DEVICES + 1](_ => 0);
    }

    /** One node: its devices get the next numbers. */
    method NumberNode(counts: seq<nat>, i: nat, first: nat) returns (k: nat)
      requires Shaped() && i < |counts| <= MAX_BACKEND_NODES
      requires devices == first == Before(counts, i) && first + counts[i] <= MAX_BACKEND_DEVICES
      modifies this`devices, devicesInNode, devToIndex, devToLocaldev
      ensures k == devices == first + counts[i]
      ensures devicesInNode[..] == old(devicesInNode[..])[i := counts[i]]
      ensures forall j :: 0 <= j < first ==>
                devToIndex[j] == old(devToIndex[j]) && devToLocaldev[j] == old(devToLocaldev[j])
      ensures forall l :: 0 <= l < counts[i] ==> (devToIndex[first + l], devToLocaldev[first + l]) == (i, l)
    {
      devicesInNode[i] := counts[i];
      devices := devices + devicesInNode[i];
      k := first;
      while k < devices
        invariant first <= k <= devices == first + counts[i] && devicesInNode[i] == counts[i]
        invariant forall j :: 0 <= j < first ==>
                    devToIndex[j] == old(devToIndex[j]) && devToLocaldev[j] == old(devToLocaldev[j])
        invariant forall l :: 0 <= l < k - first ==> (devToIndex[first + l], devToLocaldev[first + l]) == (i, l)
        invariant devicesInNode[..] == old(devicesInNode[..])[i := counts[i]]
      {
        devToIndex[k] := i;
        devToLocaldev[k] := k - (devices - devicesInNode[i]);
        k := k + 1;
      }
    }

    /** The first i nodes have been numbered. */
    ghost predicate NumbersTo(counts: seq<nat>, i: nat)
      requires i <= |counts|
      reads this, devicesInNode, devToIndex, devToLocaldev
    {
      && Shaped() && i <= MAX_BACKEND_NODES
      && devices == |Devices(counts[..i])| <= MAX_BACKEND_DEVICES
      && (forall j :: 0 <= j < devices ==> (devToIndex[j], devToLocaldev[j]) == Devices(counts[..i])[j])
      && forall j :: 0 <= j < i ==> devicesInNode[j] == counts[j]
    }

    method NumberNext(counts: seq<nat>, i: nat, first: nat) returns (k: nat)
      requires i < |counts| <= MAX_BACKEND_NODES && NumbersTo(counts, i) && first == devices
      requires |Devices(counts[..i + 1])| <= MAX_BACKEND_DEVICES
      modifies this`devices, devicesInNode, devToIndex, devToLocaldev
      ensures NumbersTo(counts, i + 1) && k == devices
    {
      assert counts[..i + 1][..i] == counts[..i];
      DevicesBefore(counts, i);
      ghost var before := Devices(counts[..i]);
      assert Devices(counts[..i + 1]) == before + seq(counts[i], l => (i, l));
      k := NumberNode(counts, i, first);
      forall j | 0 <= j < k ensures (devToIndex[j], devToLocaldev[j]) == Devices(counts[..i + 1])[j] {
        if j >= first {
          var l := j - first;
          assert (devToIndex[first + l], devToLocaldev[first + l]) == (i, l);
        }
      }
    }

    method NumberAll(counts: seq<nat>)
      requires Shaped() && devices == 0
      requires |counts| <= MAX_BACKEND_NODES && |Devices(counts)| <= MAX_BACKEND_DEVICES
      modifies this`devices, devicesInNode, devToIndex, devToLocaldev
      ensures NumbersTo(counts, |counts|)
    {
      var k := 0;
      for i := 0 to |counts|
        invariant NumbersTo(counts, i) && k == devices
      {
        DevicesBefore(counts, i + 1);
        k := NumberNext(counts, i, k);
      }
    }

    method Accumulate(counts: seq<nat>)
      requires Shaped() && |counts| <= MAX_BACKEND_NODES && cumulative[0] == 0
      requires forall j :: 0 <= j < |counts| ==> devicesInNode[j] == counts[j]
      modifies cumulative
      ensures forall i :: 0 <= i <= |counts| ==> cumulative[i] == Before(counts, i)
    {
      for i := 1 to |counts| + 1
        invariant forall j :: 0 <= j < i ==> cumulative[j] == Before(counts, j)
      {
        cumulative[i] := cumulative[i - 1] + devicesInNode[i - 1];
      }
    }

    /** The first call of __cudaRegisterFatBinary; `counts` is what the nodes answer when asked. */
    method Build(counts: seq<nat>)
      requires Shaped() && devices == 0 && cumulative[0] == 0
      requires |counts| <= MAX_BACKEND_NODES && |Devices(counts)| <= MAX_BACKEND_DEVICES
      modifies this`devices, devicesInNode, devToIndex, devToLocaldev, cumulative
      ensures Numbers(counts)
    {
      NumberAll(counts);
      assert counts[..|counts|] == counts;
      Accumulate(counts);
    }
  }
}
