/** `json_free`: the tree is taken down in place, without recursion and without a stack, by clearing the
    child pointers on the way down and following the parent pointers on the way up. */
module JsonFree {
  import opened Allocation
  import opened JsonTree
  import opened JsonHeap

  /** Children first, then the node, then its siblings to the right. */
  ghost function Postorder(s: Lcrs<Node>): seq<Node> {
    match s
    case Nil => []
    case Bin(n, l, r) => Postorder(l) + [n] + Postorder(r)
  }

  /** The order in which the recursive version frees the nodes. */
  ghost function RecursiveOrder(s: Lcrs<Node>): seq<Node> {
    match s
    case Nil => []
    case Bin(n, l, r) => RecursiveOrder(l) + RecursiveOrder(r) + [n]
  }

  /** Both versions free the same nodes, each of them once. */
  lemma {:induction false} SameNodesFreed(s: Lcrs<Node>)
    ensures multiset(Postorder(s)) == multiset(RecursiveOrder(s))
  {
    if s.Bin? {
      SameNodesFreed(s.left);
      SameNodesFreed(s.right);
    }
  }

  /** The ancestors of the current node, each with the chain to its right that is still to be taken down. */
  datatype Pending = Done | Above(node: Node, rest: Lcrs<Node>, up: Pending)

  ghost function PendingNodes(p: Pending): set<Node> {
    match p
    case Done => {}
    case Above(n, rest, up) => {n} + Nodes(rest) + PendingNodes(up)
  }

  ghost function PendingTop(p: Pending): Node? {
    match p
    case Done => null
    case Above(n, _, _) => n
  }

  /** Ancestors have lost their child pointer; their other links are as they were. */
  ghost predicate PendingLinked(p: Pending)
    reads PendingNodes(p)
  {
    match p
    case Done => true
    case Above(n, rest, up) =>
      && n.left == null && n.parent == PendingTop(up)
      && n !in Nodes(rest) + PendingNodes(up) && Nodes(rest) !! PendingNodes(up)
      && Linked(rest, n.right, PendingTop(up)) && PendingLinked(up)
  }

  ghost function PendingOrder(p: Pending): seq<Node> {
    match p
    case Done => []
    case Above(n, rest, up) => [n] + Postorder(rest) + PendingOrder(up)
  }

  /** What is left to do: the chain at the current node, then the ancestors. */
  ghost function Remaining(cur: Lcrs<Node>, todo: Pending): seq<Node> {
    Postorder(cur) + PendingOrder(todo)
  }

  ghost predicate Invariant(node: Node?, cur: Lcrs<Node>, todo: Pending)
    reads Nodes(cur), PendingNodes(todo)
  {
    && Linked(cur, node, PendingTop(todo)) && PendingLinked(todo) && Nodes(cur) !! PendingNodes(todo)
    && (cur == Nil ==> todo == Done)
  }

  lemma LinkedHead(s: Lcrs<Node>, at: Node?, parent: Node?)
    requires Linked(s, at, parent)
    ensures if at == null then s == Nil else s.Bin? && s.data == at && at.parent == parent && at in Nodes(s)
  {
  }

  lemma InvariantAtEnds(root: Node?, shape: Lcrs<Node>)
    requires Linked(shape, root, null)
    ensures Invariant(root, shape, Done) && Remaining(shape, Done) == Postorder(shape)
    ensures Remaining(Nil, Done) == [] && Nodes(Nil) == {} && PendingNodes(Done) == {}
  {
  }

  /** The next state when the current node has no child (any more), and is freed. */
  ghost function AfterFree(cur: Lcrs<Node>, todo: Pending): (Lcrs<Node>, Pending)
    requires cur.Bin?
  {
    if cur.right.Bin? then (cur.right, todo)
    else if todo.Above? then (Bin(todo.node, Nil, todo.rest), todo.up)
    else (Nil, Done)
  }

  lemma NodesAfterFree(node: Node, cur: Lcrs<Node>, todo: Pending)
    requires Invariant(node, cur, todo) && node.left == null
    ensures cur.Bin?
    ensures var (cur', todo') := AfterFree(cur, todo);
      Nodes(cur') + PendingNodes(todo') == Nodes(cur) + PendingNodes(todo) - {node}
  {
    hide PendingLinked;
    LinkedHead(cur.left, node.left, node);
    var rest := Nodes(cur.right) + PendingNodes(todo);
    assert Nodes(cur) + PendingNodes(todo) == {node} + rest && node !in rest;
    assert {node} + rest - {node} == rest;
    var (cur', todo') := AfterFree(cur, todo);
    if cur.right.Nil? && todo.Above? {
      assert Nodes(cur') == {todo.node} + Nodes(todo.rest);
    }
    assert Nodes(cur') + PendingNodes(todo') == rest;
  }

  lemma OrderAfterFree(node: Node, cur: Lcrs<Node>, todo: Pending)
    requires Invariant(node, cur, todo) && node.left == null
    ensures cur.Bin?
    ensures var (cur', todo') := AfterFree(cur, todo); Remaining(cur, todo) == [node] + Remaining(cur', todo')
  {
    hide PendingLinked, Nodes, PendingNodes;
    var (cur', todo') := AfterFree(cur, todo);
    LinkedHead(cur.left, node.left, node);
    assert Postorder(cur) == [node] + Postorder(cur.right);
    if !cur.right.Bin? && todo.Above? {
      assert Postorder(cur') == [todo.node] + Postorder(todo.rest);
    }
  }

  lemma FreeStep(node: Node, cur: Lcrs<Node>, todo: Pending)
    requires Invariant(node, cur, todo) && node.left == null
    ensures cur.Bin? && cur.data == node && node.parent == PendingTop(todo)
    ensures var (cur', todo') := AfterFree(cur, todo);
      && Invariant(if node.right != null then node.right else node.parent, cur', todo')
      && Remaining(cur, todo) == [node] + Remaining(cur', todo')
      && Nodes(cur') + PendingNodes(todo') == Nodes(cur) + PendingNodes(todo) - {node}
  {
    hide Remaining;
    NodesAfterFree(node, cur, todo);
    OrderAfterFree(node, cur, todo);
    LinkedHead(cur.left, node.left, node);
    LinkedHead(cur.right, node.right, PendingTop(todo));
  }

  /** Going down to the first child, before the child pointer is cleared. */
  lemma DescendStep(node: Node, cur: Lcrs<Node>, todo: Pending)
    requires Invariant(node, cur, todo) && node.left != null
    ensures cur.Bin? && cur.data == node && cur.left.Bin? && Linked(cur.left, node.left, node)
    ensures node.parent == PendingTop(todo) && Linked(cur.right, node.right, PendingTop(todo)) && PendingLinked(todo)
    ensures node !in Nodes(cur.left) + Nodes(cur.right) + PendingNodes(todo)
    ensures Nodes(cur.left) !! Nodes(cur.right) && Nodes(cur.left) + Nodes(cur.right) !! PendingNodes(todo)
    ensures var todo' := Above(node, cur.right, todo);
      && Remaining(cur, todo) == Remaining(cur.left, todo')
      && Nodes(cur.left) + PendingNodes(todo') == Nodes(cur) + PendingNodes(todo)
  {
    hide PendingLinked;
    LinkedHead(cur.left, node.left, node);
    SameOrder(Postorder(cur.left), node, Postorder(cur.right), PendingOrder(todo));
  }

  lemma SameOrder(a: seq<Node>, n: Node, b: seq<Node>, c: seq<Node>)
    ensures (a + [n] + b) + c == a + ([n] + b + c)
  {
  }

  lemma Descended(node: Node, next: Node, left: Lcrs<Node>, right: Lcrs<Node>, todo: Pending)
    requires node.left == null && node.parent == PendingTop(todo) && left.Bin?
    requires Linked(left, next, node) && Linked(right, node.right, PendingTop(todo)) && PendingLinked(todo)
    requires node !in Nodes(left) + Nodes(right) + PendingNodes(todo)
    requires Nodes(left) !! Nodes(right) && Nodes(left) + Nodes(right) !! PendingNodes(todo)
    ensures Invariant(next, left, Above(node, right, todo))
  {
  }

  /** `json_free`: every node that hangs on the root is freed, all other blocks stay, and a node is read only while it
      is live. */
  method Free(root: Node?, heap: Allocator, ghost shape: Lcrs<Node>)
    requires Linked(shape, root, null) && Nodes(shape) <= heap.live
    modifies Nodes(shape), heap
    ensures heap.live == old(heap.live) - Nodes(shape)
    ensures heap.released == old(heap.released) + Postorder(shape)
  {
    hide Linked, PendingLinked, Postorder, PendingOrder, Nodes, PendingNodes, AfterFree, Remaining;
    var node := root;
    ghost var cur, todo := shape, Done;
    ghost var order: seq<Node> := [];
    InvariantAtEnds(root, shape);
    while node != null
      invariant Invariant(node, cur, todo)
      invariant order + Remaining(cur, todo) == Postorder(shape) && heap.released == old(heap.released) + order
      invariant Nodes(cur) + PendingNodes(todo) <= Nodes(shape)
      invariant heap.live == old(heap.live) - (Nodes(shape) - (Nodes(cur) + PendingNodes(todo)))
      decreases |Remaining(cur, todo)|, cur
    {
      LinkedHead(cur, node, PendingTop(todo));
      assert node in heap.live;
      var next := node.left;
      if next == null { FreeStep(node, cur, todo); } else { DescendStep(node, cur, todo); }
      node.left := null;
      if next == null {
        next := if node.right != null then node.right else node.parent;
        heap.Release(node);
        order := order + [node];
        var after := AfterFree(cur, todo);
        cur, todo := after.0, after.1;
      } else {
        Descended(node, next, cur.left, cur.right, todo);
        cur, todo := cur.left, Above(node, cur.right, todo);
      }
      node := next;
    }
    LinkedHead(cur, node, PendingTop(todo));
    assert order + [] == order;
  }

  /** The recursive version that the source keeps in a comment: the same blocks are freed, in another order. */
  method FreeRecursively(node: Node?, heap: Allocator, ghost shape: Lcrs<Node>, ghost parent: Node?)
    requires Linked(shape, node, parent) && Nodes(shape) <= heap.live
    modifies Nodes(shape), heap
    ensures heap.live == old(heap.live) - Nodes(shape)
    ensures heap.released == old(heap.released) + RecursiveOrder(shape)
    decreases shape
  {
    if node != null {
      assert node in heap.live;
      Allocated(Nodes(shape));
      FreeRecursively(node.left, heap, shape.left, node);
      assert node in heap.live;
      FreeRecursively(node.right, heap, shape.right, parent);
      heap.Release(node);
    }
  }

  /** `json_parse`: an accepted text leaves its tree. A rejected one leaves nothing of the tree; only nodes that a
      reopened group has lost stay behind, and there are some if and only if a group was reopened. */
  method ParseText(t: string, heap: Allocator) returns (r: Node?, ghost shape: Lcrs<Node>, ghost cut: set<Node>)
    modifies heap
    ensures match Parse(t)
      case None => r == null && heap.live == old(heap.live) + cut
      case Some(tree) =>
        && r != null && Linked(shape, r, null) && DataTree(shape) == tree
        && heap.live == old(heap.live) + Nodes(shape) + cut
    ensures Nodes(shape) !! cut && (cut != {} <==> Reopens(t))
    ensures (forall n :: n in Nodes(shape) ==> fresh(n)) && (forall n :: n in cut ==> fresh(n))
  {
    hide Linked, Parse, Reopens, DataTree, Nodes;
    var node := new Node(heap);
    r, shape, cut := Build(node, t, heap);
    LinkedHead(shape, node, null);
    if r == null {
      Free(node, heap, shape);
    }
  }
}
