/** Reading a configuration into linked lists: the accessors of `App/json/json.c` over linked nodes, `read_values`
    and `read_json` of `App/Client/Main.c`, and the walk `json_foreach` that calls the latter on every node. */
module ConfigLoad {
  import opened Allocation
  import opened CText
  import opened JsonLex
  import opened JsonTree
  import opened JsonHeap
  import opened JsonFree
  import opened Numerals
  import opened SwitchList
  import opened ConfigTree

  datatype Port = Port(number: int, values: Cell<PortValues>)
  datatype Switch = Switch(name: string, ports: Cell<Port>)

  // ----- accessors -----

  /** `json_node` */
  method GetNamed(root: Node?, name: string, ghost s: Lcrs<Node>, ghost parent: Node?)
    returns (node: Node?, ghost t: Lcrs<Node>)
    requires Linked(s, root, parent)
    ensures Linked(t, node, root) && DataTree(t) == NodeNamed(DataTree(s), name)
    ensures node == null <==> NodeNamed(DataTree(s), name).Nil?
    ensures node != null ==> node.Data() == NodeNamed(DataTree(s), name).data
  {
    node, t := null, Nil;
    if root != null {
      node, t := root.left, s.left;
      while node != null
        invariant Linked(t, node, root) && Named(DataTree(t), name) == NodeNamed(DataTree(s), name)
        decreases t
      {
        if node.name == Some(name) { return; }
        node, t := node.right, t.right;
      }
    }
  }

  /** `json_item` */
  method GetItem(root: Node?, item: nat, ghost s: Lcrs<Node>, ghost parent: Node?)
    returns (node: Node?, ghost t: Lcrs<Node>)
    requires Linked(s, root, parent)
    ensures Linked(t, node, root) && DataTree(t) == ItemAt(DataTree(s), item)
    ensures node == null <==> ItemAt(DataTree(s), item).Nil?
    ensures node != null ==> node.Data() == ItemAt(DataTree(s), item).data
  {
    node, t := null, Nil;
    if root != null {
      node, t := root.left, s.left;
      var count := 0;
      while node != null
        invariant count <= item && Linked(t, node, root)
        invariant Nth(DataTree(t), item - count) == ItemAt(DataTree(s), item)
        decreases t
      {
        if count == item { return; }
        count := count + 1;
        node, t := node.right, t.right;
      }
    }
  }

  /** `json_items` */
  method GetCount(root: Node?, ghost s: Lcrs<Node>, ghost parent: Node?) returns (count: nat)
    requires Linked(s, root, parent)
    ensures count == Count(First(DataTree(s)))
  {
    count := 0;
    if root != null {
      var node := root.left;
      ghost var t := s.left;
      while node != null
        invariant Linked(t, node, root) && count + Count(DataTree(t)) == Count(First(DataTree(s)))
        decreases t
      {
        node, t := node.right, t.right;
        count := count + 1;
      }
    }
  }

  /** `json_is_real` */
  method TestReal(node: Node?, ghost s: Lcrs<Node>, ghost parent: Node?) returns (r: bool)
    requires Linked(s, node, parent)
    ensures r == IsReal(DataTree(s))
  {
    r := node != null && node.kind == Number && node.value.Some? && Unsigned(node.value.value);
  }

  /** `json_real` */
  method GetReal(node: Node?, ghost s: Lcrs<Node>, ghost parent: Node?) returns (r: nat)
    requires Linked(s, node, parent)
    ensures r == Real(DataTree(s))
  {
    if node == null || node.value.None? {
      r := 0;
    } else {
      r := Strtoul(node.value.value);
    }
  }

  // ----- one entry of a schedule, and a schedule -----

  method ReadPair(node: Node, current: PortValues, ghost s: Lcrs<Node>, ghost parent: Node?) returns (r: PortValues)
    requires Linked(s, node, parent)
    ensures r == Updated(current, DataTree(s))
  {
    hide Linked, DataTree, ItemAt, IsReal, Real;
    Allocated(Nodes(s));
    r := current;
    var data, t := GetItem(node, 0, s, parent);
    Allocated(Nodes(t));
    var unsigned := TestReal(data, t, node);
    if unsigned {
      var n := GetReal(data, t, node);
      r := r.(period := Some(n));
    }
    data, t := GetItem(node, 1, s, parent);
    Allocated(Nodes(t));
    unsigned := TestReal(data, t, node);
    if unsigned {
      var n := GetReal(data, t, node);
      r := r.(gates := Some(AsInt(n)));
    }
  }

  /** `read_values` */
  method ReadValues(root: Node?, list: Cell<PortValues>, heap: Allocator,
                    ghost s: Lcrs<Node>, ghost parent: Node?, ghost tree: Lcrs<Info>)
    returns (ghost cells: seq<Cell<PortValues>>)
    requires Linked(s, root, parent) && DataTree(s) == tree && ListOf(list, [list], [])
    requires list in heap.live
    modifies list, heap
    ensures ListOf(list, cells, ValuesFrom(ItemAt(tree, 0), UNSET))
    ensures heap.live == old(heap.live) + CellSet(cells)
    ensures forall i :: 0 < i < |cells| ==> fresh(cells[i])
  {
    hide Linked, DataTree, Nodes, ListOf, ItemAt, Updated, ValuesFrom;
    Allocated(Nodes(s));
    ghost var all := ValuesFrom(ItemAt(tree, 0), UNSET);
    var node, t := GetItem(root, 0, s, parent);
    Allocated(Nodes(t));
    cells := [list];
    assert CellSet(cells) == {list};
    ghost var items: seq<PortValues> := [];
    var current := UNSET;
    assert items + all == all;
    while node != null
      invariant Linked(t, node, root) && ListOf(list, cells, items)
      invariant items + ValuesFrom(DataTree(t), current) == all
      invariant cells != [] && cells[0] == list && forall i :: 0 < i < |cells| ==> fresh(cells[i])
      invariant forall n :: n in Nodes(t) ==> allocated(n)
      invariant heap.live == old(heap.live) + CellSet(cells)
      decreases t
    {
      FirstOf(t, node, root);
      ValuesStep(items, DataTree(t), current, all);
      current := ReadPair(node, current, t, root);
      node, t := node.right, t.right;
      ghost var before := cells;
      cells := Push(list, current, heap, cells, items);
      MoreCells(before, cells);
      items := items + [current];
    }
    NoMore(t, root, items, current, all);
  }

  lemma MoreCells<T>(cells: seq<Cell<T>>, more: seq<Cell<T>>)
    requires cells <= more
    ensures CellSet(cells) <= CellSet(more)
  {
    forall i | 0 <= i < |cells| ensures cells[i] in more { assert more[i] == cells[i]; }
  }

  lemma FirstOf(t: Lcrs<Node>, node: Node, parent: Node?)
    requires Linked(t, node, parent)
    ensures t.Bin? && t.data == node && Linked(t.left, node.left, node) && Linked(t.right, node.right, parent)
    ensures DataTree(t) == Bin(node.Data(), DataTree(t.left), DataTree(t.right))
    ensures Nodes(t) == {node} + Nodes(t.left) + Nodes(t.right)
  {
  }

  lemma ValuesStep(items: seq<PortValues>, t: Lcrs<Info>, current: PortValues, all: seq<PortValues>)
    requires t.Bin? && items + ValuesFrom(t, current) == all
    ensures items + [Updated(current, t)] + ValuesFrom(t.right, Updated(current, t)) == all
  {
  }

  lemma NoMore(t: Lcrs<Node>, parent: Node?, items: seq<PortValues>, current: PortValues, all: seq<PortValues>)
    requires Linked(t, null, parent) && items + ValuesFrom(DataTree(t), current) == all
    ensures items == all
  {
  }

  // ----- ports -----

  /** A port record and the schedule that its list holds. */
  ghost predicate PortIs(port: Port, cells: seq<Cell<PortValues>>, conf: PortConf)
    reads cells
  {
    port.number == conf.number && ListOf(port.values, cells, conf.values)
  }

  /** The cells of a port list, its records, and the cells of their schedules. */
  datatype PortCells = PortCells(cells: seq<Cell<Port>>, ports: seq<Port>, values: seq<seq<Cell<PortValues>>>)

  ghost function ValueCells(values: seq<seq<Cell<PortValues>>>): set<Cell<PortValues>> {
    set i, j | 0 <= i < |values| && 0 <= j < |values[i]| :: values[i][j]
  }

  /** No cell is in two of the lists. */
  ghost predicate Apart<T>(lists: seq<seq<T>>) {
    forall i, j, c :: 0 <= i < j < |lists| && c in lists[i] ==> c !in lists[j]
  }

  ghost predicate PortsAre(list: Cell<Port>, x: PortCells, confs: seq<PortConf>)
    reads x.cells, ValueCells(x.values)
  {
    && ListOf(list, x.cells, x.ports) && |x.ports| == |x.values| == |confs| && Apart(x.values)
    && forall i :: 0 <= i < |confs| ==> PortIs(x.ports[i], x.values[i], confs[i])
  }

  /** The body of the loop of `read_json`: a port with its schedule, all of it new. */
  method ReadPort(node: Node?, heap: Allocator, ghost s: Lcrs<Node>, ghost parent: Node?, ghost tree: Lcrs<Info>)
    returns (port: Port, ghost cells: seq<Cell<PortValues>>)
    requires Linked(s, node, parent) && DataTree(s) == tree
    modifies heap
    ensures PortIs(port, cells, PortAt(tree))
    ensures heap.live == old(heap.live) + CellSet(cells)
    ensures forall i :: 0 <= i < |cells| ==> fresh(cells[i])
  {
    hide Linked, DataTree, Nodes, ListOf, ItemAt, NodeNamed, Real, ValuesFrom;
    Allocated(Nodes(s));
    var list := new Cell(heap);
    var number, t := GetNamed(node, "port_number", s, parent);
    Allocated(Nodes(t));
    var n := GetReal(number, t, node);
    var values, u := GetNamed(node, "values", s, parent);
    assert DataTree(s) == tree;
    cells := ReadValues(values, list, heap, u, node, NodeNamed(tree, "values"));
    port := Port(AsInt(n), list);
    FirstCell(list, cells, ValuesFrom(ItemAt(NodeNamed(tree, "values"), 0), UNSET));
  }

  lemma FirstCell<T>(list: Cell<T>, cells: seq<Cell<T>>, items: seq<T>)
    requires ListOf(list, cells, items)
    ensures cells != [] && cells[0] == list
  {
  }

  lemma {:induction false} PortsByIndex(chain: Lcrs<Info>, i: nat)
    ensures |PortsFrom(chain)| == Count(chain)
    ensures i < Count(chain) ==> PortsFrom(chain)[i] == PortAt(Nth(chain, i))
  {
    if chain.Bin? {
      PortsByIndex(chain.right, if i == 0 then 0 else i - 1);
    }
  }

  lemma PortsStep(t: Lcrs<Info>, i: nat)
    requires i < Count(First(t))
    ensures |PortsFrom(First(t))| == Count(First(t))
    ensures PortsFrom(First(t))[..i + 1] == PortsFrom(First(t))[..i] + [PortAt(ItemAt(t, i))]
  {
    PortsByIndex(First(t), i);
  }

  /** One more port in the list. */
  method PushPort(list: Cell<Port>, port: Port, heap: Allocator, ghost cells: seq<Cell<PortValues>>, ghost conf: PortConf,
                  ghost x: PortCells, ghost confs: seq<PortConf>) returns (ghost x': PortCells)
    requires PortsAre(list, x, confs) && PortIs(port, cells, conf)
    requires (forall c :: c in cells ==> c !in ValueCells(x.values)) && CellSet(x.cells) <= heap.live
    modifies x.cells, heap
    ensures heap.live == old(heap.live) + CellSet(x'.cells)
    ensures PortsAre(list, x', confs + [conf]) && x'.ports == x.ports + [port] && x'.values == x.values + [cells]
    ensures x.cells <= x'.cells && forall i :: |x.cells| <= i < |x'.cells| ==> fresh(x'.cells[i])
  {
    hide ListOf, Apart;
    OneMoreApart(x.values, cells);
    ghost var cs := Push(list, port, heap, x.cells, x.ports);
    x' := PortCells(cs, x.ports + [port], x.values + [cells]);
    assert forall i :: 0 <= i < |confs| ==> PortIs(x.ports[i], x.values[i], confs[i]);
    assert PortIs(port, cells, conf);
  }

  lemma OneMoreApart(values: seq<seq<Cell<PortValues>>>, cells: seq<Cell<PortValues>>)
    requires Apart(values) && forall c :: c in cells ==> c !in ValueCells(values)
    ensures Apart(values + [cells])
  {
    var more := values + [cells];
    forall i, j, c | 0 <= i < j < |more| && c in more[i] ensures c !in more[j] {
      if j == |values| {
        var k :| 0 <= k < |values[i]| && values[i][k] == c;
        assert c in ValueCells(values);
      }
    }
  }

  /** One round of the loop of `read_json` over the ports. */
  method AddPort(node: Node?, i: nat, list: Cell<Port>, heap: Allocator, ghost x: PortCells, ghost confs: seq<PortConf>,
                 ghost s: Lcrs<Node>, ghost parent: Node?, ghost tree: Lcrs<Info>) returns (ghost x': PortCells)
    requires Linked(s, node, parent) && DataTree(s) == tree && PortsAre(list, x, confs)
    requires CellSet(x.cells) <= heap.live && ValueCells(x.values) <= heap.live
    modifies x.cells, heap
    ensures PortsAre(list, x', confs + [PortAt(ItemAt(tree, i))])
    ensures heap.live == old(heap.live) + CellSet(x'.cells) + ValueCells(x'.values)
    ensures CellSet(x.cells) <= CellSet(x'.cells) && ValueCells(x.values) <= ValueCells(x'.values)
    ensures x.cells <= x'.cells && forall k :: |x.cells| <= k < |x'.cells| ==> fresh(x'.cells[k])
    ensures forall c :: c in ValueCells(x'.values) ==> c in ValueCells(x.values) || fresh(c)
  {
    hide Linked, DataTree, Nodes, ListOf, PortIs, ItemAt, PortAt, PortsAre, ValueCells, Apart;
    Allocated(Nodes(s));
    PortsAllocated(x);
    var item, t := GetItem(node, i, s, parent);
    var port, cells := ReadPort(item, heap, t, node, ItemAt(tree, i));
    x' := PushPort(list, port, heap, cells, PortAt(ItemAt(tree, i)), x, confs);
    MoreCells(x.cells, x'.cells);
    MoreValueCells(x.values, cells);
  }

  /** The loop of `read_json` over the ports. */
  method ReadPorts(node: Node?, list: Cell<Port>, heap: Allocator,
                   ghost s: Lcrs<Node>, ghost parent: Node?, ghost tree: Lcrs<Info>) returns (ghost x: PortCells)
    requires Linked(s, node, parent) && DataTree(s) == tree && ListOf(list, [list], [])
    requires list in heap.live
    modifies list, heap
    ensures PortsAre(list, x, PortsFrom(First(tree)))
    ensures heap.live == old(heap.live) + CellSet(x.cells) + ValueCells(x.values)
    ensures forall i :: 0 < i < |x.cells| ==> fresh(x.cells[i])
    ensures forall c :: c in ValueCells(x.values) ==> fresh(c)
  {
    hide Linked, DataTree, Nodes, ListOf, PortIs, ItemAt, PortAt, PortsFrom, PortsAre, Count, First, ValueCells, Apart;
    Allocated(Nodes(s));
    ghost var all := PortsFrom(First(tree));
    x := PortCells([list], [], []);
    NoPorts(list, x, all);
    PortsByIndex(First(tree), 0);
    var i := 0;
    while true
      invariant Linked(s, node, parent) && DataTree(s) == tree
      invariant i <= Count(First(tree)) == |all| && PortsAre(list, x, all[..i])
      invariant x.cells != [] && x.cells[0] == list && forall k :: 0 < k < |x.cells| ==> fresh(x.cells[k])
      invariant forall c :: c in ValueCells(x.values) ==> fresh(c)
      invariant heap.live == old(heap.live) + CellSet(x.cells) + ValueCells(x.values)
      decreases |all| - i
    {
      PortsAllocated(x);
      var n := GetCount(node, s, parent);
      if i >= n { break; }
      PortsStep(tree, i);
      x := AddPort(node, i, list, heap, x, all[..i], s, parent, tree);
      i := i + 1;
    }
    assert all[..i] == all;
  }

  lemma PortsAllocated(x: PortCells)
    ensures forall c :: c in x.cells ==> allocated(c)
    ensures forall c :: c in ValueCells(x.values) ==> allocated(c)
    ensures forall k, c :: 0 <= k < |x.values| && c in x.values[k] ==> allocated(c)
  {
  }

  lemma NoPorts(list: Cell<Port>, x: PortCells, all: seq<PortConf>)
    requires ListOf(list, [list], []) && x == PortCells([list], [], [])
    ensures PortsAre(list, x, all[..0]) && ValueCells(x.values) == {} && CellSet(x.cells) == {list}
  {
  }

  lemma MoreValueCells(values: seq<seq<Cell<PortValues>>>, cells: seq<Cell<PortValues>>)
    ensures ValueCells(values + [cells]) == ValueCells(values) + CellSet(cells)
  {
    var more := values + [cells];
    forall c | c in ValueCells(values) ensures c in ValueCells(more) {
      var i, j :| 0 <= i < |values| && 0 <= j < |values[i]| && values[i][j] == c;
      assert more[i][j] == c;
    }
    forall c | c in cells ensures c in ValueCells(more) {
      var j :| 0 <= j < |cells| && cells[j] == c;
      assert more[|values|][j] == c;
    }
  }

  // ----- switches -----

  ghost predicate SwitchIs(sw: Switch, x: PortCells, conf: SwitchConf)
    reads x.cells, ValueCells(x.values)
  {
    sw.name == conf.name && PortsAre(sw.ports, x, conf.ports)
  }

  /** The cells of a switch list, its records, and the cells of their ports. */
  datatype SwitchCells = SwitchCells(cells: seq<Cell<Switch>>, switches: seq<Switch>, ports: seq<PortCells>)

  ghost function PortCellsOf(ports: seq<PortCells>): set<Cell<Port>> {
    set i, j | 0 <= i < |ports| && 0 <= j < |ports[i].cells| :: ports[i].cells[j]
  }

  ghost function ValueCellsOf(ports: seq<PortCells>): set<Cell<PortValues>> {
    set i, c | 0 <= i < |ports| && c in ValueCells(ports[i].values) :: c
  }

  /** All the cells of the nested lists. */
  ghost function AllCells(y: SwitchCells): set<object> {
    var switches: set<object> := CellSet(y.cells);
    var ports: set<object> := PortCellsOf(y.ports);
    var values: set<object> := ValueCellsOf(y.ports);
    switches + ports + values
  }

  /** No two switches share a cell. */
  ghost predicate AllApart(ports: seq<PortCells>) {
    forall i, j :: 0 <= i < j < |ports| ==>
      && CellSet(ports[i].cells) !! CellSet(ports[j].cells)
      && ValueCells(ports[i].values) !! ValueCells(ports[j].values)
  }

  ghost predicate SwitchesAre(list: Cell<Switch>, y: SwitchCells, confs: seq<SwitchConf>)
    reads y.cells, PortCellsOf(y.ports), ValueCellsOf(y.ports)
  {
    && ListOf(list, y.cells, y.switches) && |y.switches| == |y.ports| == |confs| && AllApart(y.ports)
    && forall i :: 0 <= i < |confs| ==> SwitchIs(y.switches[i], y.ports[i], confs[i])
  }

  lemma SwitchesAllocated(y: SwitchCells)
    ensures forall c :: c in y.cells ==> allocated(c)
    ensures forall c :: c in PortCellsOf(y.ports) ==> allocated(c)
    ensures forall c :: c in ValueCellsOf(y.ports) ==> allocated(c)
    ensures forall i, c :: 0 <= i < |y.ports| && c in y.ports[i].cells ==> allocated(c)
    ensures forall i, c :: 0 <= i < |y.ports| && c in ValueCells(y.ports[i].values) ==> allocated(c)
  {
  }

  lemma PortsFirstCell(list: Cell<Port>, x: PortCells, confs: seq<PortConf>)
    requires PortsAre(list, x, confs)
    ensures x.cells != [] && x.cells[0] == list
  {
  }

  lemma MoreAllApart(ports: seq<PortCells>, x: PortCells)
    requires AllApart(ports)
    requires forall c :: c in x.cells ==> c !in PortCellsOf(ports)
    requires forall c :: c in ValueCells(x.values) ==> c !in ValueCellsOf(ports)
    ensures AllApart(ports + [x])
  {
    hide ValueCells;
    var more := ports + [x];
    forall i, j | 0 <= i < j < |more|
      ensures CellSet(more[i].cells) !! CellSet(more[j].cells)
      ensures ValueCells(more[i].values) !! ValueCells(more[j].values)
    {
      if j == |ports| {
        forall c | c in more[i].cells ensures c in PortCellsOf(ports) {
          var k :| 0 <= k < |ports[i].cells| && ports[i].cells[k] == c;
        }
        assert forall c :: c in ValueCells(more[i].values) ==> c in ValueCellsOf(ports);
      }
    }
  }

  lemma MorePortCells(ports: seq<PortCells>, x: PortCells)
    ensures PortCellsOf(ports + [x]) == PortCellsOf(ports) + CellSet(x.cells)
    ensures ValueCellsOf(ports + [x]) == ValueCellsOf(ports) + ValueCells(x.values)
  {
    hide ValueCells;
    var more := ports + [x];
    forall c | c in PortCellsOf(ports) ensures c in PortCellsOf(more) {
      var i, j :| 0 <= i < |ports| && 0 <= j < |ports[i].cells| && ports[i].cells[j] == c;
      assert more[i].cells[j] == c;
    }
    forall c | c in x.cells ensures c in PortCellsOf(more) {
      var j :| 0 <= j < |x.cells| && x.cells[j] == c;
      assert more[|ports|].cells[j] == c;
    }
    forall c | c in ValueCellsOf(ports) ensures c in ValueCellsOf(more) {
      var i :| 0 <= i < |ports| && c in ValueCells(ports[i].values);
      assert c in ValueCells(more[i].values);
    }
    forall c | c in ValueCells(x.values) ensures c in ValueCellsOf(more) {
      assert c in ValueCells(more[|ports|].values);
    }
  }

  /** One more switch in the list. */
  method PushSwitch(list: Cell<Switch>, sw: Switch, heap: Allocator, ghost x: PortCells, ghost conf: SwitchConf,
                    ghost y: SwitchCells, ghost confs: seq<SwitchConf>) returns (ghost y': SwitchCells)
    requires SwitchesAre(list, y, confs) && SwitchIs(sw, x, conf)
    requires forall c :: c in x.cells ==> c !in PortCellsOf(y.ports)
    requires forall c :: c in ValueCells(x.values) ==> c !in ValueCellsOf(y.ports)
    requires AllCells(y) <= heap.live && CellSet(x.cells) <= heap.live && ValueCells(x.values) <= heap.live
    modifies y.cells, heap
    ensures SwitchesAre(list, y', confs + [conf])
    ensures heap.live == old(heap.live) + AllCells(y')
    ensures AllCells(y) <= AllCells(y') && CellSet(x.cells) <= AllCells(y') && ValueCells(x.values) <= AllCells(y')
    ensures forall c :: c in AllCells(y') ==> c in AllCells(y) + CellSet(x.cells) + ValueCells(x.values) || fresh(c)
    ensures y.cells <= y'.cells && forall i :: |y.cells| <= i < |y'.cells| ==> fresh(y'.cells[i])
  {
    hide ListOf, PortsAre, AllApart;
    SwitchesAllocated(y);
    PortsAllocated(x);
    MoreAllApart(y.ports, x);
    MorePortCells(y.ports, x);
    ghost var cs := Push(list, sw, heap, y.cells, y.switches);
    MoreCells(y.cells, cs);
    assert forall c :: c in cs ==> c in y.cells || fresh(c);
    y' := SwitchCells(cs, y.switches + [sw], y.ports + [x]);
    forall i | 0 <= i < |confs| ensures SwitchIs(y.switches[i], y.ports[i], confs[i]) {
      ghost var z := y.ports[i];
      assert old(SwitchIs(y.switches[i], z, confs[i]));
      assert forall c :: c in z.cells ==> unchanged(c);
      assert forall c :: c in ValueCells(z.values) ==> unchanged(c);
    }
    assert SwitchIs(sw, x, conf);
  }

  /** A switch with its ports, all of it new. */
  method ReadSwitch(name: string, portList: Node?, heap: Allocator,
                    ghost s: Lcrs<Node>, ghost parent: Node?, ghost tree: Lcrs<Info>)
    returns (sw: Switch, ghost x: PortCells)
    requires Linked(s, portList, parent) && DataTree(s) == tree && |name| < MAX_SWITCH_NAME_LENGTH
    modifies heap
    ensures heap.live == old(heap.live) + CellSet(x.cells) + ValueCells(x.values)
    ensures SwitchIs(sw, x, SwitchConf(name, PortsFrom(First(tree))))
    ensures forall c :: c in x.cells ==> fresh(c)
    ensures forall c :: c in ValueCells(x.values) ==> fresh(c)
  {
    hide Linked, DataTree, Nodes, ListOf, PortsAre, PortsFrom, First, ValueCells;
    Allocated(Nodes(s));
    var list := new Cell(heap);
    x := ReadPorts(portList, list, heap, s, parent, tree);
    sw := Switch(name, list);
    PortsFirstCell(list, x, PortsFrom(First(tree)));
  }

  /** `read_json`; the answer is no where it ends the program. */
  method ReadJson(node: Node?, list: Cell<Switch>, heap: Allocator, ghost y: SwitchCells,
                  ghost confs: seq<SwitchConf>, ghost s: Lcrs<Node>, ghost parent: Node?, ghost tree: Lcrs<Info>)
    returns (ok: bool, ghost y': SwitchCells)
    requires Linked(s, node, parent) && DataTree(s) == tree && ShortName(tree) && SwitchesAre(list, y, confs)
    requires AllCells(y) <= heap.live
    modifies y.cells, heap
    ensures ok <==> Read(tree).Some?
    ensures ok ==> SwitchesAre(list, y', confs + Read(tree).value)
    ensures ok ==> heap.live == old(heap.live) + AllCells(y') && AllCells(y) <= AllCells(y')
    ensures ok ==> forall c :: c in AllCells(y') ==> c in AllCells(y) || fresh(c)
    ensures y.cells <= y'.cells && forall i :: |y.cells| <= i < |y'.cells| ==> fresh(y'.cells[i])
  {
    hide Linked, Nodes, NodeNamed, SwitchesAre, SwitchIs, PortsFrom, First, PortCellsOf, ValueCellsOf, AllCells;
    Allocated(Nodes(s));
    SwitchesAllocated(y);
    ok, y' := true, y;
    var dataSwitch, t := GetNamed(node, "switch", s, parent);
    KindOf(t, dataSwitch, node);
    if dataSwitch != null && dataSwitch.kind == String {
      var name := if dataSwitch.value.Some? then dataSwitch.value.value else "";
      var dataPortList, u := GetNamed(node, "port_list", s, parent);
      KindOf(u, dataPortList, node);
      if dataPortList != null && dataPortList.kind == Array {
        var sw, x := ReadSwitch(name, dataPortList, heap, u, node, NodeNamed(tree, "port_list"));
        y' := PushSwitch(list, sw, heap, x, SwitchConf(name, PortsFrom(First(NodeNamed(tree, "port_list")))), y, confs);
      } else {
        ok := false;
      }
    } else {
      assert confs + [] == confs;
    }
  }

  lemma KindOf(t: Lcrs<Node>, node: Node?, parent: Node?)
    requires Linked(t, node, parent)
    ensures node == null ==> DataTree(t) == Nil
    ensures node != null ==> DataTree(t).Bin? && DataTree(t).data == node.Data()
  {
  }

  /** `json_foreach` with `read_json` */
  method ForEach(node: Node?, list: Cell<Switch>, heap: Allocator, ghost y: SwitchCells,
                 ghost confs: seq<SwitchConf>, ghost s: Lcrs<Node>, ghost parent: Node?, ghost tree: Lcrs<Info>)
    returns (ok: bool, ghost y': SwitchCells)
    requires Linked(s, node, parent) && DataTree(s) == tree && ShortNames(tree) && SwitchesAre(list, y, confs)
    requires AllCells(y) <= heap.live
    modifies y.cells, heap
    ensures ok <==> Walk(tree).Some?
    ensures ok ==> SwitchesAre(list, y', confs + Walk(tree).value)
    ensures ok ==> heap.live == old(heap.live) + AllCells(y') && AllCells(y) <= AllCells(y')
    ensures ok ==> forall c :: c in AllCells(y') ==> c in AllCells(y) || fresh(c)
    ensures y.cells <= y'.cells && forall i :: |y.cells| <= i < |y'.cells| ==> fresh(y'.cells[i])
    decreases s
  {
    hide Linked, Nodes, DataTree, Read, Walk, ShortNames, SwitchesAre, PortCellsOf, ValueCellsOf, AllCells;
    ok, y' := true, y;
    if node == null {
      WalkNull(s, parent, confs);
      return;
    }
    Allocated(Nodes(s));
    FirstOf(s, node, parent);
    WalkStep(tree, confs);
    ok, y' := ReadJson(node, list, heap, y, confs, s, parent, tree);
    if !ok { return; }
    ok, y' := ForEach(node.left, list, heap, y', confs + Read(tree).value, s.left, node, tree.left);
    if !ok { return; }
    ok, y' := ForEach(node.right, list, heap, y', confs + Read(tree).value + Walk(tree.left).value,
                      s.right, parent, tree.right);
  }

  lemma WalkNull(s: Lcrs<Node>, parent: Node?, confs: seq<SwitchConf>)
    requires Linked(s, null, parent)
    ensures Walk(DataTree(s)) == Some([]) && confs + [] == confs
  {
  }

  lemma WalkStep(t: Lcrs<Info>, confs: seq<SwitchConf>)
    requires t.Bin? && ShortNames(t)
    ensures ShortName(t) && ShortNames(t.left) && ShortNames(t.right)
    ensures Walk(t).Some? <==> Read(t).Some? && Walk(t.left).Some? && Walk(t.right).Some?
    ensures Walk(t).Some? ==>
      confs + Walk(t).value == confs + Read(t).value + Walk(t.left).value + Walk(t.right).value
  {
    hide Read, ShortName;
    if Walk(t).Some? {
      Gather(confs, Read(t).value, Walk(t.left).value, Walk(t.right).value);
    }
  }

  lemma Gather<T>(a: seq<T>, b: seq<T>, c: seq<T>, d: seq<T>)
    ensures a + (b + (c + d)) == a + b + c + d
  {
  }

  /** What `main` does with the text of a configuration: the list of its switches, if the text is one value and no
      switch lacks its ports. The nodes of the text are given back, except for those that a reopened group has lost. */
  method LoadConfig(text: string, heap: Allocator)
    returns (list: Cell<Switch>, ok: bool, ghost y: SwitchCells, ghost cut: set<Node>)
    requires Parse(text).Some? ==> ShortNames(Parse(text).value)
    modifies heap
    ensures ok <==> Parse(text).Some? && Walk(Parse(text).value).Some?
    ensures ok ==> SwitchesAre(list, y, Walk(Parse(text).value).value)
    ensures ok ==> heap.live == old(heap.live) + AllCells(y) + cut && (cut != {} <==> Reopens(text))
    ensures ok ==> forall c :: c in AllCells(y) ==> fresh(c)
  {
    hide Parse, Reopens, Linked, DataTree, Nodes, Walk, ShortNames, SwitchesAre, PortCellsOf, ValueCellsOf, AllCells;
    list := new Cell(heap);
    y := SwitchCells([list], [], []);
    NoSwitchYet(list, y);
    SwitchesAllocated(y);
    var node, shape, lost := ParseText(text, heap);
    cut := lost;
    ok := false;
    if node != null {
      ghost var tree := Parse(text).value;
      Allocated(Nodes(shape));
      ok, y := ForEach(node, list, heap, y, [], shape, null, tree);
      if ok {
        assert [] + Walk(tree).value == Walk(tree).value;
        SwitchesAllocated(y);
        Free(node, heap, shape);
      }
    }
  }

  lemma NoSwitchYet(list: Cell<Switch>, y: SwitchCells)
    requires ListOf(list, [list], []) && y == SwitchCells([list], [], [])
    ensures SwitchesAre(list, y, []) && AllCells(y) == {list}
  {
    assert CellSet(y.cells) == {list};
  }

  // ----- where the lists hold what -----

  lemma PortsListed(list: Cell<Port>, x: PortCells, confs: seq<PortConf>)
    requires PortsAre(list, x, confs) && confs != []
    ensures |x.cells| == |confs| == |x.values| && x.cells[0] == list && Chained(x.cells)
  {
  }

  lemma PortInCell(list: Cell<Port>, x: PortCells, confs: seq<PortConf>, i: nat)
    requires PortsAre(list, x, confs) && i < |confs|
    ensures |x.cells| == |x.ports| == |confs| == |x.values|
    ensures x.cells[i].data.Some? && PortIs(x.cells[i].data.value, x.values[i], confs[i])
    ensures x.cells[i].next == if i + 1 < |x.cells| then x.cells[i + 1] else null
  {
    hide PortIs;
    NextOf(x.cells, i);
    assert x.cells[i].data == Some(x.ports[i]);
  }

  lemma SwitchesListed(list: Cell<Switch>, y: SwitchCells, confs: seq<SwitchConf>)
    requires SwitchesAre(list, y, confs) && confs != []
    ensures |y.cells| == |confs| == |y.ports| && y.cells[0] == list
    ensures Chained(y.cells) && AllApart(y.ports)
  {
  }

  lemma SwitchInCell(list: Cell<Switch>, y: SwitchCells, confs: seq<SwitchConf>, i: nat)
    requires SwitchesAre(list, y, confs) && i < |confs|
    ensures |y.cells| == |confs| == |y.ports|
    ensures y.cells[i].data.Some? && SwitchIs(y.cells[i].data.value, y.ports[i], confs[i])
    ensures y.cells[i].next == if i + 1 < |y.cells| then y.cells[i + 1] else null
  {
    hide SwitchIs;
    NextOf(y.cells, i);
    assert y.cells[i].data == Some(y.switches[i]);
  }
}
