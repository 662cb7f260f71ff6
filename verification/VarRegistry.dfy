/** The client's table of registered variables: for each fat-cubin handle, the host variables registered
    under it, so that a symbol given as a pointer or as a name can be told apart. */
module VarRegistry {
  import opened Wrappers

  /** Addresses are numbers, NULL is 0. */
  const NULL := 0

  datatype Var = Var(hostVar: nat, deviceName: string)

  type Table = map<nat, seq<Var>>

  /** g_vars_insert; a NULL handle or value is refused. */
  function Inserted(t: Table, handle: nat, value: Option<Var>): Table {
    if handle == NULL || value.None? then t
    else t[handle := (if handle in t then t[handle] else []) + [value.value]]
  }

  function Removed(t: Table, handle: nat): Table {
    if handle == NULL then t else t - {handle}
  }

  // ---------- histories ----------

  datatype Op = Insert(handle: nat, value: Option<Var>) | Remove(handle: nat)

  function Run(ops: seq<Op>): Table {
    if ops == [] then map[]
    else
      var t := Run(ops[..|ops| - 1]);
      match ops[|ops| - 1]
      case Insert(h, v) => Inserted(t, h, v)
      case Remove(h) => Removed(t, h)
  }

  /** Operation i put the variable in, and its handle has not been removed since. */
  ghost predicate LiveInsert(ops: seq<Op>, i: nat, h: nat, v: Var) {
    && i < |ops| && ops[i] == Insert(h, Some(v)) && h != NULL
    && forall j :: i < j < |ops| ==> ops[j] != Remove(h)
  }

  ghost predicate Live(ops: seq<Op>, h: nat, v: Var) {
    exists i: nat :: LiveInsert(ops, i, h, v)
  }

  predicate Holds(t: Table, h: nat, v: Var) {
    h in t && v in t[h]
  }

  /** The table holds exactly the variables whose handle was not removed after they were inserted. */
  lemma {:induction false} LiveIff(ops: seq<Op>, h: nat, v: Var)
    ensures Holds(Run(ops), h, v) <==> Live(ops, h, v)
  {
    if ops != [] {
      var n := |ops| - 1;
      var front, last := ops[..n], ops[n];
      LiveIff(front, h, v);
      if i: nat :| LiveInsert(front, i, h, v) && last != Remove(h) {
        assert LiveInsert(ops, i, h, v);
      }
      if last == Insert(h, Some(v)) && h != NULL {
        assert LiveInsert(ops, n, h, v);
      }
      if i: nat :| LiveInsert(ops, i, h, v) && i < n {
        assert LiveInsert(front, i, h, v);
      }
    }
  }

  lemma {:induction false} NullHasNone(ops: seq<Op>)
    ensures NULL !in Run(ops)
  {
    if ops != [] {
      NullHasNone(ops[..|ops| - 1]);
    }
  }

  /** A handle's array holds the variables inserted since it was last removed, in the order in which they came:
      `at` says by which operations. */
  lemma {:induction false} ArrayInOrder(ops: seq<Op>, h: nat) returns (at: seq<nat>)
    requires h in Run(ops)
    ensures |at| == |Run(ops)[h]| && forall j, k :: 0 <= j < k < |at| ==> at[j] < at[k]
    ensures forall k :: 0 <= k < |at| ==> LiveInsert(ops, at[k], h, Run(ops)[h][k])
    ensures forall i, v :: LiveInsert(ops, i, h, v) ==> i in at
  {
    NullHasNone(ops);
    var n := |ops| - 1;
    var front, last := ops[..n], ops[n];
    var inserts := last.Insert? && last.handle == h && last.value.Some?;
    forall i: nat, v | i < n ensures LiveInsert(ops, i, h, v) <==> LiveInsert(front, i, h, v) {
      assert ops[i] == front[i];
    }
    if h in Run(front) {
      at := ArrayInOrder(front, h);
    } else {
      at := [];
      forall i, v ensures !LiveInsert(front, i, h, v) {
        LiveIff(front, h, v);
      }
    }
    if inserts {
      assert LiveInsert(ops, n, h, last.value.value);
      at := at + [n];
    }
  }

  // ---------- searches ----------

  /** The first entry with the host variable, or with the name, or the end. */
  function FirstHost(vs: seq<Var>, symbol: nat): (i: nat)
    ensures i <= |vs| && (i < |vs| ==> vs[i].hostVar == symbol)
    ensures forall j :: 0 <= j < i ==> vs[j].hostVar != symbol
  {
    if vs == [] || vs[0].hostVar == symbol then 0 else 1 + FirstHost(vs[1..], symbol)
  }

  function FirstName(vs: seq<Var>, name: string): (i: nat)
    ensures i <= |vs| && (i < |vs| ==> vs[i].deviceName == name)
    ensures forall j :: 0 <= j < i ==> vs[j].deviceName != name
  {
    if vs == [] || vs[0].deviceName == name then 0 else 1 + FirstName(vs[1..], name)
  }

  /** The order in which the hash table happens to visit its keys. */
  ghost predicate Visits(order: seq<nat>, t: Table) {
    && (forall i :: 0 <= i < |order| ==> order[i] in t)
    && (forall i, j :: 0 <= i < j < |order| ==> order[i] != order[j])
    && forall h :: h in t ==> h in order
  }

  ghost predicate HasHost(t: Table, symbol: nat) {
    exists h, v :: Holds(t, h, v) && v.hostVar == symbol
  }

  predicate Named(vs: seq<Var>, name: string) {
    FirstName(vs, name) < |vs|
  }

  /** The host variable found under a handle that has the name. */
  function HostOf(vs: seq<Var>, name: string): nat
    requires Named(vs, name)
  {
    vs[FirstName(vs, name)].hostVar
  }

  /** The host variable of the first handle, in the order given, that has the name. */
  function FirstNamed(t: Table, order: seq<nat>, name: string): nat
    requires forall i :: 0 <= i < |order| ==> order[i] in t
  {
    if order == [] then NULL
    else if Named(t[order[0]], name) then HostOf(t[order[0]], name)
    else FirstNamed(t, order[1..], name)
  }

  /** What g_vars_find returns for a symbol at an address where the characters `text` are. */
  ghost function Found(t: Table, order: seq<nat>, symbol: nat, text: string): nat
    requires Visits(order, t)
  {
    if symbol == NULL then NULL
    else if HasHost(t, symbol) then symbol
    else FirstNamed(t, order, text)
  }

  lemma {:induction false} FirstNamedMeans(t: Table, order: seq<nat>, name: string)
    requires forall i :: 0 <= i < |order| ==> order[i] in t
    ensures (exists i :: 0 <= i < |order| && Named(t[order[i]], name)) ==>
              exists i, v :: 0 <= i < |order| && v in t[order[i]] && v.deviceName == name &&
                             FirstNamed(t, order, name) == v.hostVar
    ensures (forall i :: 0 <= i < |order| ==> !Named(t[order[i]], name)) ==> FirstNamed(t, order, name) == NULL
  {
    if order != [] {
      var vs := t[order[0]];
      if Named(vs, name) {
        assert vs[FirstName(vs, name)] in t[order[0]];
      } else {
        FirstNamedMeans(t, order[1..], name);
        assert forall i :: 0 < i < |order| ==> order[i] == order[1..][i - 1];
      }
    }
  }

  /** It is the first entry with the name under the first handle that has one. */
  lemma {:induction false} FirstInOrder(t: Table, order: seq<nat>, name: string, i: nat, k: nat)
    requires (forall j :: 0 <= j < |order| ==> order[j] in t) && i < |order| && k < |t[order[i]]|
    requires t[order[i]][k].deviceName == name && forall l :: 0 <= l < k ==> t[order[i]][l].deviceName != name
    requires forall j, l :: 0 <= j < i && 0 <= l < |t[order[j]]| ==> t[order[j]][l].deviceName != name
    ensures FirstNamed(t, order, name) == t[order[i]][k].hostVar
  {
    if i > 0 {
      assert !Named(t[order[0]], name);
      FirstInOrder(t, order[1..], name, i - 1, k);
    } else {
      assert FirstName(t[order[0]], name) == k;
    }
  }

  ghost predicate HasName(t: Table, name: string) {
    exists h, v :: Holds(t, h, v) && v.deviceName == name
  }

  /** The symbol itself if it is a registered host variable, else a host variable registered under that
      name, else NULL. */
  lemma FoundMeans(t: Table, order: seq<nat>, symbol: nat, text: string)
    requires Visits(order, t) && symbol != NULL
    ensures HasHost(t, symbol) ==> Found(t, order, symbol, text) == symbol
    ensures !HasHost(t, symbol) && HasName(t, text) ==>
              exists h, v :: Holds(t, h, v) && v.deviceName == text && Found(t, order, symbol, text) == v.hostVar
    ensures !HasHost(t, symbol) && !HasName(t, text) ==> Found(t, order, symbol, text) == NULL
  {
    FirstNamedMeans(t, order, text);
    if HasName(t, text) {
      var h, v :| Holds(t, h, v) && v.deviceName == text;
      var i :| 0 <= i < |order| && order[i] == h;
      assert Named(t[order[i]], text);
      var j, w :| 0 <= j < |order| && w in t[order[j]] && w.deviceName == text && FirstNamed(t, order, text) == w.hostVar;
      assert Holds(t, order[j], w);
    } else {
      forall i | 0 <= i < |order| ensures !Named(t[order[i]], text) {
        var vs := t[order[i]];
        if Named(vs, text) {
          assert Holds(t, order[i], vs[FirstName(vs, text)]);
        }
      }
    }
  }

  /** g_vars_find over any history of the table, in terms of the history alone. */
  lemma FoundInHistory(ops: seq<Op>, order: seq<nat>, symbol: nat, text: string)
    requires Visits(order, Run(ops)) && symbol != NULL
    ensures var r := Found(Run(ops), order, symbol, text);
            if exists h, v :: Live(ops, h, v) && v.hostVar == symbol then r == symbol
            else if exists h, v :: Live(ops, h, v) && v.deviceName == text then
              exists h, v :: Live(ops, h, v) && v.deviceName == text && r == v.hostVar
            else r == NULL
  {
    var t := Run(ops);
    FoundMeans(t, order, symbol, text);
    forall h, v ensures Holds(t, h, v) <==> Live(ops, h, v) {
      LiveIff(ops, h, v);
    }
  }

  // ---------- independence of the visiting order ----------

  /** All handles that have the name lead to the same host variable. */
  predicate NameAgrees(t: Table, name: string) {
    forall g, h :: g in t && h in t && Named(t[g], name) && Named(t[h], name) ==>
      HostOf(t[g], name) == HostOf(t[h], name)
  }

  lemma {:induction false} FirstNamedIs(t: Table, order: seq<nat>, name: string, h: nat)
    requires NameAgrees(t, name) && forall i :: 0 <= i < |order| ==> order[i] in t
    requires h in order && Named(t[h], name)
    ensures FirstNamed(t, order, name) == HostOf(t[h], name)
  {
    if !Named(t[order[0]], name) {
      FirstNamedIs(t, order[1..], name, h);
    }
  }

  lemma {:induction false} Enumerate(keys: set<nat>) returns (order: seq<nat>)
    ensures forall i :: 0 <= i < |order| ==> order[i] in keys
    ensures forall i, j :: 0 <= i < j < |order| ==> order[i] != order[j]
    ensures forall h :: h in keys ==> h in order
  {
    if keys == {} {
      order := [];
    } else {
      var h :| h in keys;
      var rest := Enumerate(keys - {h});
      order := [h] + rest;
    }
  }

  /** Some visiting order starts with h. */
  lemma VisitFirst(t: Table, h: nat) returns (order: seq<nat>)
    requires h in t
    ensures Visits(order, t) && order[0] == h
  {
    var rest := Enumerate(t.Keys - {h});
    order := [h] + rest;
    assert forall g :: g in t ==> g == h || g in rest;
  }

  ghost predicate OrderFree(t: Table, symbol: nat, text: string) {
    forall o, p :: Visits(o, t) && Visits(p, t) ==> Found(t, o, symbol, text) == Found(t, p, symbol, text)
  }

  /** The result does not depend on the visiting order exactly when the symbol is NULL or a host variable,
      or the handles that have the name agree; unique names are enough for that. */
  lemma OrderFreeIff(t: Table, symbol: nat, text: string)
    ensures OrderFree(t, symbol, text) <==> symbol == NULL || HasHost(t, symbol) || NameAgrees(t, text)
  {
    if symbol != NULL && !HasHost(t, symbol) {
      if NameAgrees(t, text) {
        forall o, p | Visits(o, t) && Visits(p, t) ensures FirstNamed(t, o, text) == FirstNamed(t, p, text) {
          if h :| h in t && Named(t[h], text) {
            FirstNamedIs(t, o, text, h);
            FirstNamedIs(t, p, text, h);
          } else {
            FirstNamedMeans(t, o, text);
            FirstNamedMeans(t, p, text);
          }
        }
      } else {
        var g, h :| g in t && h in t && Named(t[g], text) && Named(t[h], text) &&
                    HostOf(t[g], text) != HostOf(t[h], text);
        var o := VisitFirst(t, g);
        var p := VisitFirst(t, h);
        assert Found(t, o, symbol, text) != Found(t, p, symbol, text);
      }
    }
  }

  /** For example: the same name under two handles for two host variables. */
  lemma NameTwice(name: string) returns (ops: seq<Op>)
    ensures ops == [Insert(1, Some(Var(10, name))), Insert(2, Some(Var(20, name)))]
    ensures !OrderFree(Run(ops), 30, name)
  {
    var first, second := Insert(1, Some(Var(10, name))), Insert(2, Some(Var(20, name)));
    ops := [first, second];
    assert ops[..|ops| - 1] == [first] && [first][..0] == [];
    assert [] + [Var(10, name)] == [Var(10, name)] && [] + [Var(20, name)] == [Var(20, name)];
    assert Run([first]) == map[1 := [Var(10, name)]];
    var t := Run(ops);
    assert t == map[1 := [Var(10, name)], 2 := [Var(20, name)]];
    assert Named(t[1], name) && HostOf(t[1], name) == 10 && Named(t[2], name) && HostOf(t[2], name) == 20;
    assert !NameAgrees(t, name);
    OrderFreeIff(t, 30, name);
  }

  /** The assumption CUDA makes of global variables: a name belongs to one host variable. */
  ghost predicate NamesUnique(t: Table) {
    forall g, h, v, w :: Holds(t, g, v) && Holds(t, h, w) && v.deviceName == w.deviceName ==>
      v.hostVar == w.hostVar
  }

  lemma UniqueNamesAgree(t: Table, name: string)
    requires NamesUnique(t)
    ensures NameAgrees(t, name)
  {
    forall g, h | g in t && h in t && Named(t[g], name) && Named(t[h], name)
      ensures HostOf(t[g], name) == HostOf(t[h], name)
    {
      assert Holds(t, g, t[g][FirstName(t[g], name)]);
      assert Holds(t, h, t[h][FirstName(t[h], name)]);
    }
  }

  // ---------- the table ----------

  class Registry {
    var table: Table    // regHostVarsTab

    constructor ()
      ensures table == Run([])
    {
      table := map[];
    }

    method Insert(handle: nat, value: Option<Var>)
      modifies this
      ensures table == Inserted(old(table), handle, value)
    {
      if handle == NULL || value.None? {
        return;
      }
      if handle !in table {
        table := table[handle := []];
      }
      table := table[handle := table[handle] + [value.value]];
    }

    method Remove(handle: nat)
      modifies this
      ensures table == Removed(old(table), handle)
    {
      if handle != NULL {
        table := table - {handle};
      }
    }

    /** l_g_vars_find_hostVar for one handle after the other. */
    method FindHost(symbol: nat, order: seq<nat>) returns (found: bool)
      requires Visits(order, table)
      ensures found <==> HasHost(table, symbol)
    {
      for i := 0 to |order|
        invariant forall k :: 0 <= k < i ==> forall v :: v in table[order[k]] ==> v.hostVar != symbol
      {
        var vs := table[order[i]];
        for j := 0 to |vs|
          invariant forall l :: 0 <= l < j ==> vs[l].hostVar != symbol
        {
          if vs[j].hostVar == symbol {
            assert Holds(table, order[i], vs[j]);
            return true;
          }
        }
      }
      found := false;
    }

    /** l_g_vars_find_deviceName for one handle after the other. */
    method FindName(text: string, order: seq<nat>) returns (host: nat)
      requires Visits(order, table)
      ensures host == FirstNamed(table, order, text)
    {
      for i := 0 to |order|
        invariant FirstNamed(table, order[i..], text) == FirstNamed(table, order, text)
      {
        var vs := table[order[i]];
        assert order[i..][0] == order[i] && order[i..][1..] == order[i + 1..];
        for j := 0 to |vs|
          invariant forall l :: 0 <= l < j ==> vs[l].deviceName != text
        {
          if vs[j].deviceName == text {
            assert FirstName(vs, text) == j;
            return vs[j].hostVar;
          }
        }
      }
      host := NULL;
    }

    /** g_vars_find */
    method Find(symbol: nat, text: string, order: seq<nat>) returns (result: nat)
      requires Visits(order, table)
      ensures result == Found(table, order, symbol, text)
    {
      if symbol == NULL {
        return NULL;
      }
      var found := FindHost(symbol, order);
      if found {
        return symbol;
      }
      result := FindName(text, order);
    }
  }
}
