/** `free_switch_list` of `App/switch/switch.c`: three nested walks, each of which reads a cell before it frees it.
    A freed cell may hold anything, so no walk can rest on what it held. */
module ConfigFree {
  import opened Allocation
  import opened CText
  import opened Sequences
  import opened SwitchList
  import opened ConfigTree
  import opened ConfigLoad

  /** The cells from index `i` on are linked as before. */
  ghost predicate Rest<T>(cells: seq<Cell<T>>, i: nat)
    reads cells
    requires i <= |cells|
  {
    forall k :: i <= k < |cells| ==> cells[k].next == NextIn(cells, k)
  }

  function NextIn<T>(cells: seq<Cell<T>>, k: nat): Cell?<T> {
    if k + 1 < |cells| then cells[k + 1] else null
  }

  lemma WholeRest<T>(cells: seq<Cell<T>>)
    requires Chained(cells)
    ensures Rest(cells, 0) && Distinct(cells) && CellSet(cells[..0]) == {} && cells[..|cells|] == cells
  {
    forall k: nat | k < |cells| ensures cells[k].next == NextIn(cells, k) {
      NextOf(cells, k);
    }
  }

  lemma RestNext<T>(cells: seq<Cell<T>>, i: nat)
    requires i < |cells| && Rest(cells, i)
    ensures cells[i].next == if i + 1 < |cells| then cells[i + 1] else null
  {
  }

  lemma OneMoreCell<T>(cells: seq<Cell<T>>, i: nat)
    requires Distinct(cells) && i < |cells|
    ensures CellSet(cells[..i + 1]) == CellSet(cells[..i]) + {cells[i]} && cells[i] !in CellSet(cells[..i])
    ensures cells[i] in CellSet(cells)
  {
    assert cells[..i + 1] == cells[..i] + [cells[i]];
  }

  /** The innermost walk. */
  method FreeSchedule(head: Cell<PortValues>, heap: Allocator,
                      ghost cells: seq<Cell<PortValues>>, ghost items: seq<PortValues>)
    requires ListOf(head, cells, items) && CellSet(cells) <= heap.live
    modifies cells, heap
    ensures heap.live == old(heap.live) - CellSet(cells)
  {
    hide CellSet, Distinct, NextIn;
    WholeRest(cells);
    var current: Cell?<PortValues> := head;
    ghost var i := 0;
    while current != null
      invariant i <= |cells| && Rest(cells, i) && current == if i < |cells| then cells[i] else null
      invariant heap.live == old(heap.live) - CellSet(cells[..i])
      decreases |cells| - i
    {
      OneMoreCell(cells, i);
      var aux := current;
      assert aux in heap.live;
      RestNext(cells, i);
      current := current.next;
      Later(cells, i);
      heap.Release(aux);
      i := i + 1;
    }
  }

  lemma Later<T>(cells: seq<Cell<T>>, i: nat)
    requires Distinct(cells) && i < |cells|
    ensures forall k :: i < k < |cells| ==> cells[k] != cells[i]
  {
  }

  // ----- ports -----

  /** The ports from index `i` on are as before. */
  ghost predicate PortsRest(x: PortCells, confs: seq<PortConf>, i: nat)
    reads x.cells, ValueCells(x.values)
    requires i <= |x.cells| == |x.ports| == |x.values| == |confs|
  {
    && Rest(x.cells, i)
    && forall k :: i <= k < |confs| ==> x.cells[k].data == Some(x.ports[k]) && PortIs(x.ports[k], x.values[k], confs[k])
  }

  lemma WholePorts(list: Cell<Port>, x: PortCells, confs: seq<PortConf>)
    requires PortsAre(list, x, confs) && confs != []
    ensures |x.cells| == |x.ports| == |x.values| == |confs| && x.cells[0] == list && PortsRest(x, confs, 0)
    ensures Distinct(x.cells) && Apart(x.values) && CellSet(x.cells[..0]) == {} && ValueCells(x.values[..0]) == {}
    ensures x.cells[..|x.cells|] == x.cells && x.values[..|x.values|] == x.values
  {
    hide PortIs;
    WholeRest(x.cells);
  }

  lemma OneMoreSchedule(values: seq<seq<Cell<PortValues>>>, i: nat)
    requires Apart(values) && i < |values|
    ensures ValueCells(values[..i + 1]) == ValueCells(values[..i]) + CellSet(values[i])
    ensures ValueCells(values[..i]) !! CellSet(values[i]) && CellSet(values[i]) <= ValueCells(values)
    ensures forall k, c :: i < k < |values| && c in values[k] ==> c !in values[i]
  {
    assert values[..i + 1] == values[..i] + [values[i]];
    MoreValueCells(values[..i], values[i]);
    forall c | c in values[i] ensures c in ValueCells(values) && c !in ValueCells(values[..i]) {
      var j :| 0 <= j < |values[i]| && values[i][j] == c;
    }
  }

  /** The walk over the ports of a switch. */
  method FreePorts(head: Cell<Port>, heap: Allocator, ghost x: PortCells, ghost confs: seq<PortConf>)
    requires PortsAre(head, x, confs) && confs != []
    requires CellSet(x.cells) <= heap.live && ValueCells(x.values) <= heap.live
    modifies x.cells, ValueCells(x.values), heap
    ensures heap.live == old(heap.live) - CellSet(x.cells) - ValueCells(x.values)
  {
    hide PortsAre, ValueCells, Distinct, PortsRest, Apart;
    PortsAllocated(x);
    WholePorts(head, x, confs);
    var current: Cell?<Port> := head;
    ghost var i := 0;
    while current != null
      invariant i <= |x.cells| && PortsRest(x, confs, i) && current == if i < |x.cells| then x.cells[i] else null
      invariant heap.live == old(heap.live) - CellSet(x.cells[..i]) - ValueCells(x.values[..i])
      decreases |x.cells| - i
    {
      OneMoreCell(x.cells, i);
      OneMoreSchedule(x.values, i);
      current := FreePort(current, heap, x, confs, i);
      i := i + 1;
    }
  }

  /** One port: its schedule, and then the port. */
  method FreePort(aux: Cell<Port>, heap: Allocator, ghost x: PortCells, ghost confs: seq<PortConf>, ghost i: nat)
    returns (next: Cell?<Port>)
    requires |x.cells| == |x.ports| == |x.values| == |confs| && i < |x.cells| && aux == x.cells[i]
    requires PortsRest(x, confs, i) && Distinct(x.cells) && Apart(x.values)
    requires aux in heap.live && CellSet(x.values[i]) <= heap.live
    modifies aux, x.values[i], heap
    ensures PortsRest(x, confs, i + 1) && next == if i + 1 < |x.cells| then x.cells[i + 1] else null
    ensures heap.live == old(heap.live) - CellSet(x.values[i]) - {aux}
  {
    hide ValueCells, ListOf, Distinct, Apart, NextIn;
    PortsAllocated(x);
    OneMoreSchedule(x.values, i);
    next := aux.next;
    RestNext(x.cells, i);
    Later(x.cells, i);
    assert PortIs(x.ports[i], x.values[i], confs[i]);
    assert forall k, j :: i < k < |confs| && 0 <= j < |x.values[k]| ==> x.values[k][j] !in x.values[i];
    FreeSchedule(aux.data.value.values, heap, x.values[i], confs[i].values);
    heap.Release(aux);
    forall k | i < k < |confs| ensures PortIs(x.ports[k], x.values[k], confs[k]) {
      assert old(PortIs(x.ports[k], x.values[k], confs[k]));
      assert forall c :: c in x.values[k] ==> unchanged(c);
    }
    assert forall k :: i < k < |confs| ==> unchanged(x.cells[k]);
  }

  // ----- switches -----

  /** The switches from index `i` on are as before. */
  ghost predicate SwitchesRest(y: SwitchCells, confs: seq<SwitchConf>, i: nat)
    reads y.cells, PortCellsOf(y.ports), ValueCellsOf(y.ports)
    requires i <= |y.cells| == |y.switches| == |y.ports| == |confs|
  {
    && Rest(y.cells, i)
    && forall k :: i <= k < |confs| ==>
         y.cells[k].data == Some(y.switches[k]) && SwitchIs(y.switches[k], y.ports[k], confs[k])
  }

  lemma WholeSwitches(list: Cell<Switch>, y: SwitchCells, confs: seq<SwitchConf>)
    requires SwitchesAre(list, y, confs) && confs != []
    ensures |y.cells| == |y.switches| == |y.ports| == |confs| && y.cells[0] == list && SwitchesRest(y, confs, 0)
    ensures Distinct(y.cells) && AllApart(y.ports) && y.cells[..|y.cells|] == y.cells && y.ports[..|y.ports|] == y.ports
    ensures FreedCells(y, 0) == {}
  {
    hide SwitchIs;
    WholeRest(y.cells);
  }

  /** The cells of the first `i` switches. */
  ghost function FreedCells(y: SwitchCells, i: nat): set<object>
    requires i <= |y.cells| && i <= |y.ports|
  {
    AllCells(SwitchCells(y.cells[..i], [], y.ports[..i]))
  }

  lemma OneMoreSwitch(y: SwitchCells, i: nat)
    requires i < |y.cells| == |y.ports| && Distinct(y.cells) && AllApart(y.ports)
    ensures FreedCells(y, i + 1) == FreedCells(y, i) + {y.cells[i]} + CellSet(y.ports[i].cells) + ValueCells(y.ports[i].values)
    ensures y.cells[i] !in FreedCells(y, i) && CellSet(y.ports[i].cells) !! FreedCells(y, i)
    ensures ValueCells(y.ports[i].values) !! FreedCells(y, i)
  {
    hide ValueCells;
    OneMoreCell(y.cells, i);
    assert y.ports[..i + 1] == y.ports[..i] + [y.ports[i]];
    MorePortCells(y.ports[..i], y.ports[i]);
    forall c | c in PortCellsOf(y.ports[..i]) ensures c !in y.ports[i].cells {
      var k, j :| 0 <= k < i && 0 <= j < |y.ports[k].cells| && y.ports[k].cells[j] == c;
      assert c in CellSet(y.ports[k].cells);
    }
    forall c | c in ValueCellsOf(y.ports[..i]) ensures c !in ValueCells(y.ports[i].values) {
      var k :| 0 <= k < i && c in ValueCells(y.ports[k].values);
    }
  }

  lemma LaterPorts(ports: seq<PortCells>, i: nat)
    requires AllApart(ports) && i < |ports|
    ensures forall k, j :: i < k < |ports| && 0 <= j < |ports[k].cells| ==> ports[k].cells[j] !in ports[i].cells
    ensures forall k, c :: i < k < |ports| && c in ValueCells(ports[k].values) ==> c !in ValueCells(ports[i].values)
  {
    hide ValueCells;
    forall k, j | i < k < |ports| && 0 <= j < |ports[k].cells| ensures ports[k].cells[j] !in ports[i].cells {
      assert ports[k].cells[j] in CellSet(ports[k].cells);
    }
  }

  /** One switch: its ports, and then the switch. */
  method FreeSwitch(aux: Cell<Switch>, heap: Allocator, ghost y: SwitchCells, ghost confs: seq<SwitchConf>, ghost i: nat)
    returns (next: Cell?<Switch>)
    requires |y.cells| == |y.switches| == |y.ports| == |confs| && i < |y.cells| && aux == y.cells[i]
    requires SwitchesRest(y, confs, i) && Distinct(y.cells) && AllApart(y.ports) && confs[i].ports != []
    requires aux in heap.live && CellSet(y.ports[i].cells) <= heap.live && ValueCells(y.ports[i].values) <= heap.live
    modifies aux, y.ports[i].cells, ValueCells(y.ports[i].values), heap
    ensures SwitchesRest(y, confs, i + 1) && next == if i + 1 < |y.cells| then y.cells[i + 1] else null
    ensures heap.live == old(heap.live) - CellSet(y.ports[i].cells) - ValueCells(y.ports[i].values) - {aux}
  {
    hide ValueCells, PortsAre, Distinct, NextIn;
    SwitchesAllocated(y);
    next := aux.next;
    RestNext(y.cells, i);
    Later(y.cells, i);
    assert SwitchIs(y.switches[i], y.ports[i], confs[i]);
    LaterPorts(y.ports, i);
    FreePorts(aux.data.value.ports, heap, y.ports[i], confs[i].ports);
    heap.Release(aux);
    forall k | i < k < |confs| ensures SwitchIs(y.switches[k], y.ports[k], confs[k]) {
      ghost var z := y.ports[k];
      assert old(SwitchIs(y.switches[k], z, confs[k]));
      assert forall c :: c in z.cells ==> unchanged(c);
      assert forall c :: c in ValueCells(z.values) ==> unchanged(c);
    }
    assert forall k :: i < k < |confs| ==> unchanged(y.cells[k]);
  }

  /** `free_switch_list`: every cell of the nested lists is freed, and nothing else. */
  method FreeSwitches(head: Cell<Switch>, heap: Allocator, ghost y: SwitchCells, ghost confs: seq<SwitchConf>)
    requires SwitchesAre(head, y, confs) && confs != [] && AllCells(y) <= heap.live
    requires forall i :: 0 <= i < |confs| ==> confs[i].ports != []
    modifies AllCells(y), heap
    ensures heap.live == old(heap.live) - AllCells(y)
  {
    hide SwitchesAre, Distinct, SwitchesRest, AllApart, FreedCells, ValueCells;
    SwitchesAllocated(y);
    WholeSwitches(head, y, confs);
    var current: Cell?<Switch> := head;
    ghost var i := 0;
    while current != null
      invariant i <= |y.cells| && SwitchesRest(y, confs, i) && current == if i < |y.cells| then y.cells[i] else null
      invariant heap.live == old(heap.live) - FreedCells(y, i)
      decreases |y.cells| - i
    {
      OneMoreSwitch(y, i);
      CellsWithin(y, i);
      current := FreeSwitch(current, heap, y, confs, i);
      i := i + 1;
    }
    FreedAll(y);
  }

  lemma CellsWithin(y: SwitchCells, i: nat)
    requires i < |y.cells| == |y.ports|
    ensures y.cells[i] in AllCells(y) && (forall c :: c in y.ports[i].cells ==> c in AllCells(y))
    ensures CellSet(y.ports[i].cells) <= AllCells(y) && ValueCells(y.ports[i].values) <= AllCells(y)
  {
    hide ValueCells;
    assert y.cells[i] in CellSet(y.cells);
    forall c | c in y.ports[i].cells ensures c in PortCellsOf(y.ports) {
      var j :| 0 <= j < |y.ports[i].cells| && y.ports[i].cells[j] == c;
    }
    assert forall c :: c in ValueCells(y.ports[i].values) ==> c in ValueCellsOf(y.ports);
  }

  lemma FreedAll(y: SwitchCells)
    requires |y.cells| == |y.ports|
    ensures FreedCells(y, |y.cells|) == AllCells(y)
  {
    assert y.cells[..|y.cells|] == y.cells && y.ports[..|y.ports|] == y.ports;
  }
}
