/** The linked nodes of `App/json/json.c`, and building the tree in place. A ghost tree of nodes says how the nodes
    are linked; its data, read off the nodes, is the value tree. */
module JsonHeap {
  import opened CText
  import opened Allocation
  import opened JsonLex
  import opened JsonTree

  class Node {
    var kind: Kind
    var name: Option<string>
    var value: Option<string>
    var left: Node?
    var right: Node?
    var parent: Node?

    /** `json_create` */
    constructor (heap: Allocator)
      modifies heap
      ensures kind == Empty && name == None && value == None
      ensures left == null && right == null && parent == null
      ensures heap.live == old(heap.live) + {this} && this !in old(heap.live) && heap.released == old(heap.released)
    {
      kind, name, value := Empty, None, None;
      left, right, parent := null, null, null;
      new;
      heap.live := heap.live + {this};
    }

    ghost function Data(): Info
      reads this
    {
      Info(kind, name, value)
    }
  }

  // ----- how the nodes are linked -----

  ghost function Nodes(s: Lcrs<Node>): set<Node> {
    match s
    case Nil => {}
    case Bin(n, l, r) => {n} + Nodes(l) + Nodes(r)
  }

  ghost function PathNodes(p: Path<Node>): set<Node> {
    match p
    case Top => {}
    case Child(n, up) => {n} + PathNodes(up)
    case Sibling(n, kids, up) => {n} + Nodes(kids) + PathNodes(up)
  }

  ghost function ParentNode(p: Path<Node>): Node? {
    match Parent(p)
    case None => null
    case Some(n) => n
  }

  /** `at` is the first node of the chain `s`, whose nodes all have the parent `parent`. */
  ghost predicate Linked(s: Lcrs<Node>, at: Node?, parent: Node?)
    reads Nodes(s)
  {
    match s
    case Nil => at == null
    case Bin(n, l, r) =>
      && at == n && n.parent == parent
      && n !in Nodes(l) + Nodes(r) && Nodes(l) !! Nodes(r)
      && Linked(l, n.left, n) && Linked(r, n.right, parent)
  }

  /** The nodes of a path are linked so that `hole` is the node at its lower end. */
  ghost predicate PathLinked(p: Path<Node>, hole: Node)
    reads PathNodes(p)
  {
    match p
    case Top => true
    case Child(n, up) =>
      && n.left == hole && n.right == null && n.parent == ParentNode(up)
      && n !in PathNodes(up) && PathLinked(up, n)
    case Sibling(n, kids, up) =>
      && n.right == hole && n.parent == ParentNode(up)
      && n !in Nodes(kids) + PathNodes(up) && Nodes(kids) !! PathNodes(up)
      && Linked(kids, n.left, n) && PathLinked(up, n)
  }

  ghost function CursorNodes(c: Cursor<Node>): set<Node> {
    {c.at} + Nodes(c.kids) + PathNodes(c.path)
  }

  ghost predicate CursorLinked(c: Cursor<Node>)
    reads CursorNodes(c)
  {
    && c.at.right == null && c.at.parent == ParentNode(c.path)
    && c.at !in Nodes(c.kids) + PathNodes(c.path) && Nodes(c.kids) !! PathNodes(c.path)
    && Linked(c.kids, c.at.left, c.at) && PathLinked(c.path, c.at)
  }

  /** The first node on the way up, from a node `n` with path `p`. */
  ghost function RootOf(p: Path<Node>, n: Node): Node
    decreases p
  {
    match p
    case Top => n
    case Child(m, up) => RootOf(up, m)
    case Sibling(m, _, up) => RootOf(up, m)
  }

  // ----- the value tree in the nodes -----

  ghost function DataTree(s: Lcrs<Node>): Lcrs<Info>
    reads Nodes(s)
  {
    match s
    case Nil => Nil
    case Bin(n, l, r) => Bin(n.Data(), DataTree(l), DataTree(r))
  }

  ghost function DataPath(p: Path<Node>): Path<Info>
    reads PathNodes(p)
  {
    match p
    case Top => Top
    case Child(n, up) => Child(n.Data(), DataPath(up))
    case Sibling(n, kids, up) => Sibling(n.Data(), DataTree(kids), DataPath(up))
  }

  ghost function DataCursor(c: Cursor<Node>): Cursor<Info>
    reads CursorNodes(c)
  {
    Cursor(c.at.Data(), DataTree(c.kids), DataPath(c.path))
  }

  lemma {:induction false} DataParent(p: Path<Node>)
    ensures match Parent(p)
      case None => Parent(DataPath(p)) == None
      case Some(n) => n in PathNodes(p) && Parent(DataPath(p)) == Some(n.Data())
  {
    if p.Sibling? { DataParent(p.up); }
  }

  /** The parent pointer of the last sibling leads to the cursor that the value builder goes up to. */
  lemma {:induction false} AscendLinked(t: Lcrs<Node>, p: Path<Node>, first: Node)
    requires t.Bin? && Linked(t, first, ParentNode(p)) && PathLinked(p, first) && Nodes(t) !! PathNodes(p)
    requires ParentNode(p) != null
    ensures var c := Ascend(t, p).value;
      && c.at == ParentNode(p) && CursorLinked(c) && CursorNodes(c) == Nodes(t) + PathNodes(p)
      && RootOf(c.path, c.at) == RootOf(p, first)
      && Ascend(DataTree(t), DataPath(p)) == Some(DataCursor(c))
    decreases p
  {
    match p
    case Child(n, up) =>
    case Sibling(n, kids, up) => AscendLinked(Bin(n, kids, t), up, n);
  }

  /** Together with its path a chain is one linked tree. */
  lemma {:induction false} PlugLinked(t: Lcrs<Node>, p: Path<Node>, first: Node)
    requires t.Bin? && Linked(t, first, ParentNode(p)) && PathLinked(p, first) && Nodes(t) !! PathNodes(p)
    ensures Linked(Plug(t, p), RootOf(p, first), null) && Nodes(Plug(t, p)) == Nodes(t) + PathNodes(p)
    decreases p
  {
    match p
    case Top =>
    case Child(n, up) => PlugLinked(Bin(n, t, Nil), up, n);
    case Sibling(n, kids, up) => PlugLinked(Bin(n, kids, t), up, n);
  }

  // ----- json_build -----

  /** `json_set_name` */
  method AssignName(node: Node, t: string, x: Lexeme) returns (ok: bool)
    requires x.left <= x.right
    modifies node`name
    ensures ok == SetName(t, old(node.Data()), x).Some?
    ensures node.Data() == if ok then SetName(t, old(node.Data()), x).value else old(node.Data())
  {
    if At(t, x.left) != '"' || At(t, x.right) != '"' { return false; }
    var s := Copy(t, x.left, x.right - x.left + 1);
    node.name := Some(s);
    ok := true;
  }

  /** `json_set_value` */
  method AssignValue(node: Node, t: string, x: Lexeme) returns (ok: bool)
    requires x.left <= x.right < |t|
    modifies node`kind, node`value
    ensures ok == SetValue(t, old(node.Data()), x).Some?
    ensures node.Data() == if ok then SetValue(t, old(node.Data()), x).value else old(node.Data())
  {
    hide Decoded, StrtodEnd;
    var size := x.right - x.left + 1;
    var word := t[x.left..x.right + 1];
    if t[x.left] == '"' && t[x.right] == '"' {
      node.kind := String;
    } else if size == 4 && word == "null" {
      node.kind := Null;
    } else if size == 4 && word == "true" {
      node.kind := Boolean;
    } else if size == 5 && word == "false" {
      node.kind := Boolean;
    } else {
      if StrtodEnd(t, x.left) <= x.right { return false; }
      node.kind := Number;
    }
    var s := Copy(t, x.left, size);
    node.value := Some(s);
    ok := true;
  }

  /** Nodes that a ghost tree mentions exist, so a new node is none of them. */
  lemma Allocated(ns: set<Node>)
    ensures forall n :: n in ns ==> allocated(n)
  {
  }

  /** The node is given its value, or is a group and has no text of its own. */
  method Finish(node: Node, t: string, x: Lexeme, ghost c: Cursor<Node>) returns (ok: bool)
    requires x.left <= x.right <= x.token <= |t| && (x.left != x.token ==> x.right < x.token)
    requires CursorLinked(c) && c.at == node
    modifies node`kind, node`value
    ensures ok == Settle(t, old(node.Data()), x).Some?
    ensures node.Data() == if ok then Settle(t, old(node.Data()), x).value else old(node.Data())
    ensures CursorLinked(c) && DataCursor(c) == old(DataCursor(c)).(at := node.Data())
  {
    hide SetValue;
    Allocated(CursorNodes(c));
    if node.kind == Empty {
      if x.left == x.token { return false; }
      ok := AssignValue(node, t, x);
    } else {
      ok := x.left == x.token;
    }
  }

  /** A new first child for the current node; a group that was closed before loses its children. */
  method AddChild(node: Node, k: Kind, heap: Allocator, ghost c: Cursor<Node>)
    returns (child: Node, ghost c': Cursor<Node>)
    requires CursorLinked(c) && c.at == node
    modifies node, heap
    ensures heap.live == old(heap.live) + {child} && heap.released == old(heap.released)
    ensures fresh(child) && c' == Cursor(child, Nil, Child(node, c.path)) && CursorLinked(c')
    ensures DataCursor(c') == Cursor(BLANK, Nil, Child(old(node.Data()).(kind := k), old(DataPath(c.path))))
  {
    Allocated(CursorNodes(c));
    child := new Node(heap);
    node.kind := k;
    node.left := child;
    child.parent := node;
    c' := Cursor(child, Nil, Child(node, c.path));
  }

  /** A new right sibling for the current node. */
  method AddSibling(node: Node, heap: Allocator, ghost c: Cursor<Node>)
    returns (next: Node, ghost c': Cursor<Node>)
    requires CursorLinked(c) && c.at == node
    modifies node, heap
    ensures heap.live == old(heap.live) + {next} && heap.released == old(heap.released)
    ensures fresh(next) && c' == Cursor(next, Nil, Sibling(node, c.kids, c.path)) && CursorLinked(c')
    ensures DataCursor(c')
         == Cursor(BLANK, Nil, Sibling(old(node.Data()), old(DataTree(c.kids)), old(DataPath(c.path))))
  {
    Allocated(CursorNodes(c));
    next := new Node(heap);
    node.right := next;
    next.parent := node.parent;
    c' := Cursor(next, Nil, Sibling(node, c.kids, c.path));
  }

  /** How a round of the loop of `json_build` ends. */
  datatype Verdict = Stop | Go | Success

  /** What a round of the loop has done, in terms of the value builder. */
  ghost predicate Follows(v: Verdict, d: Cursor<Info>, next: nat, o: Outcome) {
    match o
    case Reject => v.Stop?
    case Continue(d', next') => v.Go? && d == d' && next == next'
    case Accept(tree) => v.Success? && d.path.Top? && tree == Bin(d.at, d.kids, Nil)
  }

  /** `{` and `[` */
  method OnOpen(t: string, node: Node, pos: nat, x: Lexeme, heap: Allocator, ghost c: Cursor<Node>)
    returns (v: Verdict, node': Node, ghost c': Cursor<Node>)
    requires pos <= |t| && Lex(t, pos) == Some(x) && (At(t, x.token) == '{' || At(t, x.token) == '[')
    requires CursorLinked(c) && c.at == node && CursorNodes(c) <= heap.live
    modifies node, heap
    ensures heap.live == old(heap.live) + CursorNodes(c') && heap.released == old(heap.released)
    ensures CursorNodes(c) <= CursorNodes(c') <==> !Reopening(t, old(DataCursor(c)), pos)
    ensures c'.at == node' && CursorLinked(c') && RootOf(c'.path, c'.at) == RootOf(c.path, c.at)
    ensures forall n :: n in CursorNodes(c') ==> n in CursorNodes(c) || fresh(n)
    ensures Follows(v, DataCursor(c'), x.token + 1, Step(t, old(DataCursor(c)), pos))
  {
    hide Lex, Settle, SetName, Ascend;
    DataParent(c.path);
    Allocated(CursorNodes(c));
    if x.left != x.token || (node.parent != null && node.parent.kind == Object && node.name == None) {
      return Stop, node, c;
    }
    node', c' := AddChild(node, TokenKind(At(t, x.token)), heap, c);
    v := Go;
  }

  /** `:` */
  method OnColon(t: string, node: Node, pos: nat, x: Lexeme, ghost c: Cursor<Node>) returns (v: Verdict)
    requires pos <= |t| && Lex(t, pos) == Some(x) && At(t, x.token) == ':'
    requires CursorLinked(c) && c.at == node
    modifies node
    ensures CursorLinked(c)
    ensures Follows(v, DataCursor(c), x.token + 1, Step(t, old(DataCursor(c)), pos))
  {
    hide Lex, Settle, SetName, Ascend;
    DataParent(c.path);
    Allocated(CursorNodes(c));
    if node.parent == null || node.parent.kind != Object || node.name != None { return Stop; }
    LexemeInRange(t, pos);
    var ok := AssignName(node, t, x);
    v := if ok then Go else Stop;
  }

  lemma LexemeInRange(t: string, pos: nat)
    requires pos <= |t| && Lex(t, pos).Some?
    ensures var x := Lex(t, pos).value;
      && x.left <= x.right <= x.token <= |t| && (x.left != x.token ==> x.right < x.token)
      && (IsToken(At(t, x.token)) || At(t, x.token) == '\0')
  {
  }

  /** `,` */
  method OnComma(t: string, node: Node, pos: nat, x: Lexeme, heap: Allocator, ghost c: Cursor<Node>)
    returns (v: Verdict, node': Node, ghost c': Cursor<Node>)
    requires pos <= |t| && Lex(t, pos) == Some(x) && At(t, x.token) == ','
    requires CursorLinked(c) && c.at == node && CursorNodes(c) <= heap.live
    modifies node, heap
    ensures heap.live == old(heap.live) + CursorNodes(c') && heap.released == old(heap.released)
    ensures CursorNodes(c) <= CursorNodes(c')
    ensures c'.at == node' && CursorLinked(c') && RootOf(c'.path, c'.at) == RootOf(c.path, c.at)
    ensures forall n :: n in CursorNodes(c') ==> n in CursorNodes(c) || fresh(n)
    ensures Follows(v, DataCursor(c'), x.token + 1, Step(t, old(DataCursor(c)), pos))
  {
    hide Lex, Settle, SetName, Ascend, Linked, PathLinked, DataTree, DataPath;
    DataParent(c.path);
    Allocated(CursorNodes(c));
    if node.parent == null || (node.parent.kind == Object && node.name == None) { return Stop, node, c; }
    LexemeInRange(t, pos);
    var ok := Finish(node, t, x, c);
    if !ok { return Stop, node, c; }
    node', c' := AddSibling(node, heap, c);
    v := Go;
  }

  /** `]` and `}` */
  method OnClose(t: string, node: Node, pos: nat, x: Lexeme, ghost c: Cursor<Node>)
    returns (v: Verdict, node': Node, ghost c': Cursor<Node>)
    requires pos <= |t| && Lex(t, pos) == Some(x) && (At(t, x.token) == ']' || At(t, x.token) == '}')
    requires CursorLinked(c) && c.at == node
    modifies node
    ensures c'.at == node' && CursorLinked(c') && RootOf(c'.path, c'.at) == RootOf(c.path, c.at)
    ensures CursorNodes(c') == CursorNodes(c)
    ensures Follows(v, DataCursor(c'), x.token + 1, Step(t, old(DataCursor(c)), pos))
  {
    hide Lex, SetValue, SetName, Ascend, Linked, PathLinked, DataTree, DataPath;
    DataParent(c.path);
    Allocated(CursorNodes(c));
    if node.parent == null || node.parent.kind != TokenKind(At(t, x.token)) { return Stop, node, c; }
    LexemeInRange(t, pos);
    FirstChild(c);
    if node.kind == Empty && x.left == x.token {
      if node.parent.left != node { return Stop, node, c; }
    } else {
      if node.kind == Empty && node.parent.kind == Object && node.name == None { return Stop, node, c; }
      var ok := Finish(node, t, x, c);
      if !ok { return Stop, node, c; }
    }
    AscendCursor(c);
    c' := Ascend(Bin(node, c.kids, Nil), c.path).value;
    node' := node.parent;
    v := Go;
  }

  lemma AscendCursor(c: Cursor<Node>)
    requires CursorLinked(c) && c.at.parent != null
    ensures ParentNode(c.path) in PathNodes(c.path) && Ascend(Bin(c.at, c.kids, Nil), c.path).Some?
    ensures var c' := Ascend(Bin(c.at, c.kids, Nil), c.path).value; var d := DataCursor(c);
      && c'.at == c.at.parent && CursorLinked(c') && CursorNodes(c') == CursorNodes(c)
      && RootOf(c'.path, c'.at) == RootOf(c.path, c.at)
      && Ascend(Bin(d.at, d.kids, Nil), d.path) == Some(DataCursor(c'))
  {
    hide Ascend, PathLinked, DataPath;
    AscendLinked(Bin(c.at, c.kids, Nil), c.path, c.at);
    DataParent(c.path);
  }

  /** The current node is its parent's left child exactly when no sibling comes before it. */
  lemma FirstChild(c: Cursor<Node>)
    requires CursorLinked(c) && c.at.parent != null
    ensures ParentNode(c.path) in PathNodes(c.path) && (c.at.parent.left == c.at <==> c.path.Child?)
    ensures c.path.Child? <==> DataPath(c.path).Child?
  {
    if c.path.Sibling? { FirstOfChain(c.path, c.at); }
  }

  lemma {:induction false} FirstOfChain(p: Path<Node>, hole: Node)
    requires PathLinked(p, hole) && ParentNode(p) != null
    ensures ParentNode(p) in PathNodes(p)
    ensures if p.Child? then ParentNode(p).left == hole else ParentNode(p).left in PathNodes(p)
    decreases p
  {
    match p
    case Child(n, up) =>
    case Sibling(n, kids, up) => FirstOfChain(up, n);
  }

  /** The end of the text */
  method OnEnd(t: string, node: Node, pos: nat, x: Lexeme, ghost c: Cursor<Node>) returns (v: Verdict)
    requires pos <= |t| && Lex(t, pos) == Some(x) && At(t, x.token) == '\0'
    requires CursorLinked(c) && c.at == node && (Parent(c.path).None? ==> c.path.Top?)
    modifies node
    ensures CursorLinked(c)
    ensures Follows(v, DataCursor(c), x.token + 1, Step(t, old(DataCursor(c)), pos))
  {
    hide Lex, Settle, SetName, Ascend;
    DataParent(c.path);
    Allocated(CursorNodes(c));
    LexemeInRange(t, pos);
    var ok := Finish(node, t, x, c);
    if !ok || node.parent != null { return Stop; }
    v := Success;
  }

  /** One round of the loop. On rejection the nodes are still linked as `c'` says. */
  method Round(t: string, node: Node, pos: nat, heap: Allocator, ghost c: Cursor<Node>)
    returns (v: Verdict, node': Node, next: nat, ghost c': Cursor<Node>)
    requires pos <= |t| && CursorLinked(c) && c.at == node && (Parent(c.path).None? ==> c.path.Top?)
    requires CursorNodes(c) <= heap.live
    modifies node, heap
    ensures heap.live == old(heap.live) + CursorNodes(c') && heap.released == old(heap.released)
    ensures CursorNodes(c) <= CursorNodes(c') <==> !Reopening(t, old(DataCursor(c)), pos)
    ensures c'.at == node' && CursorLinked(c') && RootOf(c'.path, c'.at) == RootOf(c.path, c.at)
    ensures forall n :: n in CursorNodes(c') ==> n in CursorNodes(c) || fresh(n)
    ensures Follows(v, DataCursor(c'), next, Step(t, old(DataCursor(c)), pos))
  {
    hide Lex, CursorLinked, CursorNodes, RootOf, DataCursor;
    Allocated(CursorNodes(c));
    var lexeme := Scan(t, pos);
    node', next, c' := node, pos, c;
    if lexeme == None { return Stop, node, pos, c; }
    var x := lexeme.value;
    LexemeInRange(t, pos);
    next := x.token + 1;
    match At(t, x.token)
    case '{' => v, node', c' := OnOpen(t, node, pos, x, heap, c);
    case '[' => v, node', c' := OnOpen(t, node, pos, x, heap, c);
    case ':' => v := OnColon(t, node, pos, x, c);
    case ',' => v, node', c' := OnComma(t, node, pos, x, heap, c);
    case ']' => v, node', c' := OnClose(t, node, pos, x, c);
    case '}' => v, node', c' := OnClose(t, node, pos, x, c);
    case _ => v := OnEnd(t, node, pos, x, c);
  }

  lemma RootedCursor(c: Cursor<Node>)
    requires Rooted(DataCursor(c).path)
    ensures Parent(c.path).None? ==> c.path.Top?
  {
    RootedTop(c.path);
  }

  lemma {:induction false} RootedTop(p: Path<Node>)
    requires Rooted(DataPath(p))
    ensures Parent(p).None? ==> p.Top?
  {
    if p.Sibling? { DataParent(p.up); }
  }

  lemma StartLinked(root: Node)
    requires root.Data() == BLANK && root.left == null && root.right == null && root.parent == null
    ensures CursorLinked(Cursor(root, Nil, Top)) && DataCursor(Cursor(root, Nil, Top)) == START
    ensures CursorNodes(Cursor(root, Nil, Top)) == {root}
  {
  }

  lemma WholeLinked(c: Cursor<Node>)
    requires CursorLinked(c)
    ensures Linked(Whole(c), RootOf(c.path, c.at), null) && Nodes(Whole(c)) == CursorNodes(c)
  {
    PlugLinked(Bin(c.at, c.kids, Nil), c.path, c.at);
  }

  lemma AcceptedTree(c: Cursor<Node>)
    ensures var d := DataCursor(c);
      && (d.path.Top? <==> c.path.Top?) && DataTree(Bin(c.at, c.kids, Nil)) == Bin(d.at, d.kids, Nil)
      && (d.path.Top? ==> Whole(c) == Bin(c.at, c.kids, Nil) && RootOf(c.path, c.at) == c.at)
  {
  }

  /** What is known of the whole text after some rounds; `cut` says whether a group was reopened in them. */
  ghost predicate Progress(t: string, v: Verdict, d: Cursor<Info>, pos: nat, cut: bool) {
    match v
    case Go =>
      pos <= |t| && Rooted(d.path)
      && Parse(t) == Run(t, d, pos).tree && (Reopens(t) <==> cut || Run(t, d, pos).reopened)
    case Stop => Parse(t) == None && (Reopens(t) <==> cut)
    case Success => d.path.Top? && Parse(t) == Some(Bin(d.at, d.kids, Nil)) && (Reopens(t) <==> cut)
  }

  lemma ProgressStart(t: string)
    ensures Progress(t, Go, START, 0, false)
  {
    hide Run;
  }

  lemma ProgressStep(t: string, d: Cursor<Info>, pos: nat, cut: bool, v: Verdict, d': Cursor<Info>, next: nat)
    requires Progress(t, Go, d, pos, cut) && Follows(v, d', next, Step(t, d, pos))
    ensures Progress(t, v, d', next, cut || Reopening(t, d, pos)) && (v.Go? ==> pos < next <= |t|)
  {
    hide Parse, Reopens, Reopening, Step;
    StepRooted(t, d, pos);
    RunStep(t, d, pos);
  }

  lemma RunStep(t: string, d: Cursor<Info>, pos: nat)
    requires pos <= |t|
    ensures match Step(t, d, pos)
      case Reject => Run(t, d, pos) == Built(None, false) && !Reopening(t, d, pos)
      case Accept(tree) => Run(t, d, pos) == Built(Some(tree), false) && !Reopening(t, d, pos)
      case Continue(d', next) =>
        && Run(t, d, pos).tree == Run(t, d', next).tree
        && (Run(t, d, pos).reopened <==> Reopening(t, d, pos) || Run(t, d', next).reopened)
  {
    hide Step, Lex;
  }

  lemma {:induction false} RootIsIn(p: Path<Node>, n: Node)
    ensures RootOf(p, n) in PathNodes(p) + {n}
    decreases p
  {
    match p
    case Top =>
    case Child(m, up) => RootIsIn(up, m);
    case Sibling(m, _, up) => RootIsIn(up, m);
  }

  lemma InCursor(c: Cursor<Node>)
    ensures c.at in CursorNodes(c) && RootOf(c.path, c.at) in CursorNodes(c)
  {
    RootIsIn(c.path, c.at);
  }

  lemma Lost(before: set<Node>, now: set<Node>)
    ensures before - now == {} <==> before <= now
  {
    forall n | n in before && n !in now ensures n in before - now { }
  }

  /** `json_build`: the root is returned exactly for the texts that the value builder accepts, with its tree. In
      any case the nodes that hang on the root form one linked tree, and the only other nodes that were created are
      those that reopened groups have lost; there are some if and only if a group was reopened. */
  method Build(root: Node, t: string, heap: Allocator) returns (r: Node?, ghost shape: Lcrs<Node>, ghost cut: set<Node>)
    requires root.Data() == BLANK && root.left == null && root.right == null && root.parent == null
    requires root in heap.live
    modifies root, heap
    ensures Linked(shape, root, null) && (forall n :: n in Nodes(shape) ==> n == root || fresh(n))
    ensures match Parse(t) case None => r == null case Some(tree) => r == root && DataTree(shape) == tree
    ensures heap.live == old(heap.live) + Nodes(shape) + cut && heap.released == old(heap.released)
    ensures Nodes(shape) !! cut && (forall n :: n in cut ==> fresh(n)) && (cut != {} <==> Reopens(t))
  {
    hide Step, Reopening, Linked, PathLinked, DataPath, CursorLinked, DataTree, Follows, CursorNodes, Parse, Reopens, Run,
      DataCursor, Rooted;
    var node, v := root, Go;
    var pos: nat := 0;
    ghost var c := Cursor(root, Nil, Top);
    cut := {};
    StartLinked(root);
    ProgressStart(t);
    while v.Go?
      invariant CursorLinked(c) && c.at == node && RootOf(c.path, c.at) == root && root in CursorNodes(c)
      invariant forall n :: n in CursorNodes(c) ==> n == root || fresh(n)
      invariant heap.live == old(heap.live) + CursorNodes(c) + cut && heap.released == old(heap.released)
      invariant CursorNodes(c) !! cut && (forall n :: n in cut ==> fresh(n))
      invariant Progress(t, v, DataCursor(c), pos, cut != {})
      decreases v.Go?, |t| - pos
    {
      RootedCursor(c);
      ghost var d, before, was := DataCursor(c), CursorNodes(c), cut;
      ghost var at: nat := pos;
      InCursor(c);
      v, node, pos, c := Round(t, node, pos, heap, c);
      InCursor(c);
      cut := cut + (before - CursorNodes(c));
      Lost(before, CursorNodes(c));
      ProgressStep(t, d, at, was != {}, v, DataCursor(c), pos);
    }
    shape := Whole(c);
    WholeLinked(c);
    AcceptedTree(c);
    r := if v.Success? then node else null;
  }
}
