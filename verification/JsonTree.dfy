/** The builder of `App/json/json.c` over values: a left-child/right-sibling tree, a cursor in it whose
    path plays the part of the parent pointers, and one transition per structural character. */
module JsonTree {
  import opened CText
  import opened JsonLex

  /** A node's `left` is its first child and its `right` is its next sibling. */
  datatype Lcrs<+D> = Nil | Bin(data: D, left: Lcrs<D>, right: Lcrs<D>)

  /** The way from the current node up to the root. The current node and all its ancestors are last
      siblings, so the path holds no tree to the right of it. */
  datatype Path<+D> =
    | Top
    | Child(parent: D, up: Path<D>)
    | Sibling(prev: D, kids: Lcrs<D>, up: Path<D>)

  datatype Cursor<+D> = Cursor(at: D, kids: Lcrs<D>, path: Path<D>)

  /** The fields of a node that are not links. */
  datatype Info = Info(kind: Kind, name: Option<string>, value: Option<string>)

  const BLANK := Info(Empty, None, None)

  /** The parent of a node that has this path. */
  function Parent<D>(p: Path<D>): Option<D> {
    match p
    case Top => None
    case Child(d, _) => Some(d)
    case Sibling(_, _, up) => Parent(up)
  }

  /** The cursor at the parent of the chain that ends in `t`. */
  function Ascend<D>(t: Lcrs<D>, p: Path<D>): (r: Option<Cursor<D>>)
    ensures r.Some? <==> Parent(p).Some?
    decreases p
  {
    match p
    case Top => None
    case Child(d, up) => Some(Cursor(d, t, up))
    case Sibling(d, kids, up) => Ascend(Bin(d, kids, t), up)
  }

  /** The whole tree that has `t` at the end of the path. */
  function Plug<D>(t: Lcrs<D>, p: Path<D>): Lcrs<D>
    decreases p
  {
    match p
    case Top => t
    case Child(d, up) => Plug(Bin(d, t, Nil), up)
    case Sibling(d, kids, up) => Plug(Bin(d, kids, t), up)
  }

  function Whole<D>(c: Cursor<D>): Lcrs<D> {
    Plug(Bin(c.at, c.kids, Nil), c.path)
  }

  function TokenKind(c: char): Kind {
    if c == '{' || c == '}' then Object
    else if c == '[' || c == ']' then Array
    else Empty
  }

  function SetName(t: string, d: Info, x: Lexeme): Option<Info> {
    if At(t, x.left) != '"' || At(t, x.right) != '"' then None
    else Some(d.(name := Some(Decoded(t, x.left, x.right + 1, Bare))))
  }

  function SetValue(t: string, d: Info, x: Lexeme): Option<Info>
    requires x.left <= x.right < |t|
  {
    match Classify(t, x.left, x.right)
    case None => None
    case Some(k) => Some(d.(kind := k, value := Some(Decoded(t, x.left, x.right + 1, Bare))))
  }

  /** A node is finished by the text before the structural character, or is a group and needs none. */
  function Settle(t: string, d: Info, x: Lexeme): Option<Info>
    requires x.left <= x.right <= x.token <= |t|
    requires x.left != x.token ==> x.right < x.token
  {
    if d.kind == Empty then
      if x.left == x.token then None else SetValue(t, d, x)
    else if x.left != x.token then None
    else Some(d)
  }

  predicate InObject(p: Path<Info>) {
    Parent(p).Some? && Parent(p).value.kind == Object
  }

  datatype Outcome = Reject | Continue(cursor: Cursor<Info>, next: nat) | Accept(tree: Lcrs<Info>)

  /** One round of the loop of `json_build` at index `pos`. */
  function Step(t: string, c: Cursor<Info>, pos: nat): (r: Outcome)
    requires pos <= |t|
    ensures r.Continue? ==> pos < r.next <= |t|
  {
    match Lex(t, pos)
    case None => Reject
    case Some(x) =>
      var ch := At(t, x.token);
      var inObject := InObject(c.path);
      if ch == '{' || ch == '[' then
        if x.left != x.token || (inObject && c.at.name.None?) then Reject
        else Continue(Cursor(BLANK, Nil, Child(c.at.(kind := TokenKind(ch)), c.path)), x.token + 1)
      else if ch == ':' then
        if !inObject || c.at.name.Some? then Reject
        else match SetName(t, c.at, x)
          case None => Reject
          case Some(d) => Continue(c.(at := d), x.token + 1)
      else if ch == ',' then
        if Parent(c.path).None? || (inObject && c.at.name.None?) then Reject
        else match Settle(t, c.at, x)
          case None => Reject
          case Some(d) => Continue(Cursor(BLANK, Nil, Sibling(d, c.kids, c.path)), x.token + 1)
      else if ch == ']' || ch == '}' then
        if Parent(c.path).None? || Parent(c.path).value.kind != TokenKind(ch) then Reject
        else if c.at.kind == Empty && x.left == x.token then
          if !c.path.Child? then Reject
          else Continue(Ascend(Bin(c.at, c.kids, Nil), c.path).value, x.token + 1)
        else if c.at.kind == Empty && inObject && c.at.name.None? then Reject
        else match Settle(t, c.at, x)
          case None => Reject
          case Some(d) => Continue(Ascend(Bin(d, c.kids, Nil), c.path).value, x.token + 1)
      else
        match Settle(t, c.at, x)
        case None => Reject
        case Some(d) => if Parent(c.path).None? then Accept(Bin(d, c.kids, Nil)) else Reject
  }

  /** An opening bracket for a node that has children already: they are cut off. */
  predicate Reopening(t: string, c: Cursor<Info>, pos: nat)
    requires pos <= |t|
  {
    && Step(t, c, pos).Continue? && c.kids.Bin?
    && Lex(t, pos).Some? && (At(t, Lex(t, pos).value.token) == '{' || At(t, Lex(t, pos).value.token) == '[')
  }

  /** What `json_build` makes of a text, and whether it reopened a group on the way. */
  datatype Built = Built(tree: Option<Lcrs<Info>>, reopened: bool)

  /** `json_build` from a cursor and an index on. */
  function Run(t: string, c: Cursor<Info>, pos: nat): Built
    requires pos <= |t|
    decreases |t| - pos
  {
    match Step(t, c, pos)
    case Reject => Built(None, false)
    case Continue(c', next) =>
      if Reopening(t, c, pos) then Run(t, c', next).(reopened := true) else Run(t, c', next)
    case Accept(tree) => Built(Some(tree), false)
  }

  const START := Cursor(BLANK, Nil, Top)

  /** `json_parse` */
  function Parse(t: string): Option<Lcrs<Info>> {
    Run(t, START, 0).tree
  }

  /** Somewhere on the way a node with children was opened again. */
  predicate Reopens(t: string) {
    Run(t, START, 0).reopened
  }

  // ----- what every step keeps -----

  /** The root has no siblings: only a node with a parent has one. */
  predicate Rooted<D>(p: Path<D>) {
    match p
    case Top => true
    case Child(_, up) => Rooted(up)
    case Sibling(_, _, up) => Parent(up).Some? && Rooted(up)
  }

  lemma {:induction false} AscendRooted<D>(t: Lcrs<D>, p: Path<D>)
    requires Rooted(p) && Parent(p).Some?
    ensures Rooted(Ascend(t, p).value.path)
    decreases p
  {
    if p.Sibling? { AscendRooted(Bin(p.prev, p.kids, t), p.up); }
  }

  lemma StepRooted(t: string, c: Cursor<Info>, pos: nat)
    requires pos <= |t| && Rooted(c.path)
    ensures var r := Step(t, c, pos); r.Continue? ==> Rooted(r.cursor.path)
  {
    hide Lex, Settle, SetName, Ascend;
    if Parent(c.path).Some? {
      forall d ensures Rooted(Ascend(Bin(d, c.kids, Nil), c.path).value.path) {
        AscendRooted(Bin(d, c.kids, Nil), c.path);
      }
    }
  }
}
