/** The lists of `App/switch/switch.c`. Its three list types have the same shape and the same operations, so one
    class serves for all: a cell with a size, whose first cell with size 0 stands for the empty list. */
module SwitchList {
  import opened Allocation
  import opened CText

  class Cell<T> {
    var data: Option<T>  // None: not yet written
    var size: nat
    var next: Cell?<T>

    /** `switch_create_list`, `switch_create_port_list`, `switch_create_port_values_list` */
    constructor (heap: Allocator)
      modifies heap
      ensures ListOf(this, [this], [])
      ensures heap.live == old(heap.live) + {this} && this !in old(heap.live)
    {
      data, size, next := None, 0, null;
      new;
      heap.live := heap.live + {this};
    }
  }

  /** The cells in order, each linked to the next, the last to none. */
  ghost predicate Chained<T>(cells: seq<Cell<T>>)
    reads cells
  {
    && (forall i, j :: 0 <= i < j < |cells| ==> cells[i] != cells[j])
    && (forall i :: 0 <= i < |cells| - 1 ==> cells[i].next == cells[i + 1])
    && (cells != [] ==> cells[|cells| - 1].next == null)
  }

  /** The list that starts at `head` holds `items`, and its cells count from 1. */
  ghost predicate ListOf<T>(head: Cell<T>, cells: seq<Cell<T>>, items: seq<T>)
    reads cells
  {
    && cells != [] && cells[0] == head && Chained(cells)
    && (items == [] ==> |cells| == 1 && head.size == 0)
    && (items != [] ==> |cells| == |items|)
    && (items != [] ==> forall i :: 0 <= i < |cells| ==> cells[i].size == i + 1 && cells[i].data == Some(items[i]))
  }

  ghost function CellSet<T>(cells: seq<Cell<T>>): set<Cell<T>> {
    set c | c in cells
  }

  /** `switch_push`, `port_push`, `port_values_push` */
  method Push<T>(head: Cell<T>, data: T, heap: Allocator, ghost cells: seq<Cell<T>>, ghost items: seq<T>)
    returns (ghost cells': seq<Cell<T>>)
    requires ListOf(head, cells, items) && CellSet(cells) <= heap.live
    modifies cells, heap
    ensures ListOf(head, cells', items + [data])
    ensures heap.live == old(heap.live) + CellSet(cells')
    ensures cells <= cells' && forall i :: |cells| <= i < |cells'| ==> fresh(cells'[i])
  {
    if head.size == 0 {
      head.data, head.next, head.size := Some(data), null, 1;
      return cells;
    }
    var current := head;
    ghost var i := 0;
    while current.next != null
      invariant 0 <= i < |cells| && current == cells[i]
      invariant ListOf(head, cells, items)
      decreases |cells| - i
      modifies {}
    {
      i := i + 1;
      current := current.next;
    }
    NextOf(cells, i);
    cells' := Link(current, data, heap, cells);
    assert cells' == cells + [cells'[|cells|]];
    assert forall k :: 0 <= k < |cells| ==> cells'[k] == cells[k] && cells[k].data == Some(items[k]);
  }

  /** The new cell behind the last one. */
  method Link<T>(last: Cell<T>, data: T, heap: Allocator, ghost cells: seq<Cell<T>>)
    returns (ghost cells': seq<Cell<T>>)
    requires cells != [] && Chained(cells) && last == cells[|cells| - 1]
    modifies last`next, heap
    ensures |cells'| == |cells| + 1 && cells <= cells' && Chained(cells') && fresh(cells'[|cells|])
    ensures heap.live == old(heap.live) + {cells'[|cells|]}
    ensures cells'[|cells|].size == last.size + 1 && cells'[|cells|].data == Some(data)
  {
    CellsAllocated(cells);
    var cell := new Cell(heap);
    cell.size, cell.data, cell.next := last.size + 1, Some(data), null;
    assert forall k :: 0 <= k < |cells| ==> cells[k] != cell;
    last.next := cell;
    cells' := cells + [cell];
    assert forall k :: 0 <= k < |cells| - 1 ==> cells[k].next == old(cells[k].next);
  }

  lemma NextOf<T>(cells: seq<Cell<T>>, i: nat)
    requires Chained(cells) && i < |cells|
    ensures cells[i].next == if i + 1 < |cells| then cells[i + 1] else null
  {
  }

  lemma CellsAllocated<T>(cells: seq<Cell<T>>)
    ensures forall i :: 0 <= i < |cells| ==> allocated(cells[i])
  {
  }
}
