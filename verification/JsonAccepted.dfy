/** Exactly which texts `json_build` of `App/json/json.c` accepts, and with which tree: those of the accepted grammar. */
module JsonAccepted {
  import opened CText
  import opened JsonLex
  import opened JsonTree
  import opened JsonCompleteness
  import opened JsonLoose
  import opened JsonPieces
  import R = JsonReopen

  // ----- every text of the grammar is accepted -----

  lemma OpenTree(t: string, c: Cursor<Info>, pos: nat, q: nat)
    requires pos <= q < |t| && Lex(t, pos) == Some(Lexeme(q, q, q)) && (t[q] == '[' || t[q] == '{')
    requires InObject(c.path) ==> c.at.name.Some?
    ensures Run(t, c, pos).tree == Run(t, Cursor(BLANK, Nil, Child(c.at.(kind := TokenKind(t[q])), c.path)), q + 1).tree
  {
    hide Lex, Settle, SetName, Occurs;
  }

  /** From a fresh node the text of a slot leads to a node that the next structural character finishes. */
  lemma {:induction false} SlotRun(t: string, pos: nat, s: Slot, name: Option<string>, path: Path<Info>)
    returns (c: Cursor<Info>, p: nat, x: Lexeme)
    requires SlotOk(s) && Occurs(t, pos, ShowSlot(s)) && Closes(At(t, pos + |ShowSlot(s)|))
    requires InObject(path) ==> name.Some?
    ensures p <= |t| && Run(t, Cursor(Info(Empty, name, None), Nil, path), pos).tree == Run(t, c, p).tree
    ensures c.path == path && c.kids == SlotKids(s) && c.at.name == name
    ensures x.token == pos + |ShowSlot(s)| && Lex(t, p) == Some(x)
    ensures Settle(t, c.at, x) == Some(SlotInfo(name, s))
    decreases s, 1
  {
    hide Run, Lex, Settle, Occurs, IsBlank, Closes, WordOk, ShowWord, WordInfo;
    c := Cursor(Info(Empty, name, None), Nil, path);
    match s
    case Plain(before, word, after) =>
      p := pos;
      x := WordTaken(t, pos, before, word, after, name);
    case Groups(groups) =>
      c, p, x := TailRun(t, pos, groups, c);
  }

  /** The text of groups opened one after the other at the same node. */
  lemma {:induction false} TailRun(t: string, pos: nat, tail: Tail, c: Cursor<Info>)
    returns (c': Cursor<Info>, p: nat, x: Lexeme)
    requires TailOk(tail) && Occurs(t, pos, ShowTail(tail)) && Closes(At(t, pos + |ShowTail(tail)|))
    requires (InObject(c.path) ==> c.at.name.Some?) && (tail.End? ==> c.at.kind != Empty) && c.at.value.None?
    ensures p <= |t| && Run(t, c, pos).tree == Run(t, c', p).tree
    ensures c'.path == c.path && c'.kids == TailKids(c.kids, tail) && c'.at.name == c.at.name
    ensures x.token == pos + |ShowTail(tail)| && Lex(t, p) == Some(x)
    ensures Settle(t, c'.at, x) == Some(Info(TailKind(c.at.kind, tail), c.at.name, None))
    decreases tail, 0
  {
    hide Run, Lex, Settle, Occurs, IsBlank, Closes, GroupOk, ShowGroup, InnerKids;
    match tail
    case End(gap) =>
      c', p := c, pos;
      x := Lexeme(pos + |gap|, pos + |gap|, pos + |gap|);
      LexGap(t, pos, gap);
      SettleGroup(t, c.at, x.token);
    case Again(gap, group, rest) =>
      OccursSplit(t, pos, gap, ShowGroup(group) + ShowTail(rest));
      var q := pos + |gap|;
      OccursSplit(t, q, ShowGroup(group), ShowTail(rest));
      GroupBracket(t, q, group);
      LexGap(t, pos, gap);
      OpenTree(t, c, pos, q);
      var d := Info(group.kind, c.at.name, None);
      LooseGroupRun(t, q, group, d, c.path);
      c', p, x := TailRun(t, q + |ShowGroup(group)|, rest, Cursor(d, InnerKids(group.inner), c.path));
  }

  lemma GroupBracket(t: string, q: nat, g: Group)
    requires GroupOk(g) && Occurs(t, q, ShowGroup(g))
    ensures |ShowGroup(g)| == |ShowInner(g.inner)| + 2 && q + 1 + |ShowInner(g.inner)| < |t|
    ensures t[q] == (if g.kind == Object then '{' else '[') && TokenKind(t[q]) == g.kind && Closes(At(t, q))
    ensures t[q + 1 + |ShowInner(g.inner)|] == (if g.kind == Object then '}' else ']')
    ensures Occurs(t, q + 1, ShowInner(g.inner)) && g.kind != Empty
  {
    hide ShowInner, InnerOk;
    if g.kind == Object {
      Brackets(t, q, "{", ShowInner(g.inner), "}");
    } else {
      Brackets(t, q, "[", ShowInner(g.inner), "]");
    }
  }

  /** The text of a group, from behind its opening bracket. */
  lemma {:induction false} LooseGroupRun(t: string, q: nat, g: Group, d: Info, path: Path<Info>)
    requires GroupOk(g) && Occurs(t, q, ShowGroup(g)) && d.kind == g.kind
    ensures q + |ShowGroup(g)| <= |t|
    ensures Run(t, Cursor(BLANK, Nil, Child(d, path)), q + 1).tree
         == Run(t, Cursor(d, InnerKids(g.inner), path), q + |ShowGroup(g)|).tree
    decreases g, 0
  {
    hide Run, Lex, Occurs, IsBlank, Closes, KeyOk, ShowKey, ShowGroup, NameOf, EntriesOk, ShowEntries, EntryChain;
    GroupBracket(t, q, g);
    var e := q + 1 + |ShowInner(g.inner)|;
    CloseCloses(t, e);
    match g.inner
    case Nothing(gap) =>
      LexGap(t, q + 1, gap);
      EmptyGroupStep(t, BLANK, d, path, q + 1, e);
    case NoValue(key, gap) =>
      OccursSplit(t, q + 1, ShowKey(Some(key)), gap);
      var p := q + 1 + |ShowKey(Some(key))|;
      KeyRun(t, q + 1, key, Child(d, path));
      LexGap(t, p, gap);
      EmptyGroupStep(t, Info(Empty, NameOf(Some(key)), None), d, path, p, e);
    case Filled(entries) =>
      EntriesRun(t, q + 1, entries, Child(d, path));
  }

  lemma CloseCloses(t: string, e: nat)
    requires e < |t| && (t[e] == '}' || t[e] == ']')
    ensures Closes(At(t, e))
  {
  }

  lemma KeyRun(t: string, pos: nat, k: Key, path: Path<Info>)
    requires KeyOk(k) && InObject(path) && Occurs(t, pos, ShowKey(Some(k)))
    ensures pos + |ShowKey(Some(k))| <= |t|
    ensures Run(t, Cursor(BLANK, Nil, path), pos)
         == Run(t, Cursor(Info(Empty, NameOf(Some(k)), None), Nil, path), pos + |ShowKey(Some(k))|)
  {
    hide Run, Lex, Occurs, IsBlank, StringsOk, ShowStrings, ReadStrings, Decoded;
    var head := k.before + (ShowStrings(k.name) + k.after);
    OccursSplit(t, pos, head, ":");
    OccursAt(t, pos + |head|, ":", 0);
    var x := LexStrings(t, pos, k.before, k.name, k.after);
    NameStep(t, path, pos, x, Info(Empty, NameOf(Some(k)), None));
  }

  /** One member or item up to the structural character behind it. */
  lemma {:induction false} EntryRun(t: string, pos: nat, key: Option<Key>, s: Slot, path: Path<Info>)
    returns (c: Cursor<Info>, p: nat, x: Lexeme)
    requires SlotOk(s) && (key.Some? ==> KeyOk(key.value)) && (key.Some? <==> InObject(path))
    requires Occurs(t, pos, ShowKey(key) + ShowSlot(s)) && Closes(At(t, pos + |ShowKey(key) + ShowSlot(s)|))
    ensures p <= |t| && Run(t, Cursor(BLANK, Nil, path), pos).tree == Run(t, c, p).tree
    ensures c.path == path && c.kids == SlotKids(s) && c.at.name == NameOf(key)
    ensures x.token == pos + |ShowKey(key) + ShowSlot(s)| && Lex(t, p) == Some(x)
    ensures Settle(t, c.at, x) == Some(SlotInfo(NameOf(key), s))
    decreases s, 2
  {
    hide Run, Lex, Settle, Occurs, Closes, KeyOk, SlotOk, ShowSlot, SlotKids, SlotInfo;
    OccursSplit(t, pos, ShowKey(key), ShowSlot(s));
    if key.Some? { KeyRun(t, pos, key.value, path); }
    c, p, x := SlotRun(t, pos + |ShowKey(key)|, s, NameOf(key), path);
  }

  lemma {:induction false} EntriesRun(t: string, pos: nat, x: Entries, path: Path<Info>)
    requires Parent(path).Some? && EntriesOk(Parent(path).value.kind, x)
    requires Parent(path).value.kind == Object || Parent(path).value.kind == Array
    requires Occurs(t, pos, ShowEntries(x))
    requires At(t, pos + |ShowEntries(x)|) == if InObject(path) then '}' else ']'
    ensures pos + |ShowEntries(x)| < |t|
    ensures Run(t, Cursor(BLANK, Nil, path), pos).tree
         == Run(t, Ascend(EntryChain(x), path).value, pos + |ShowEntries(x)| + 1).tree
    decreases x, 0
  {
    hide Run, Lex, Settle, Occurs, KeyOk, ShowKey, SlotOk, ShowSlot, SlotKids, SlotInfo, ReadStrings;
    var d := SlotInfo(NameOf(x.key), x.slot);
    match x
    case Last(key, slot) =>
      var c, p, y := EntryRun(t, pos, key, slot, path);
      CloseStep(t, c, p, y, d);
    case More(key, slot, rest) =>
      Separated(t, pos, ShowKey(key) + ShowSlot(slot), ShowEntries(rest));
      var c, p, y := EntryRun(t, pos, key, slot, path);
      CommaStep(t, c, p, y, d);
      EntriesRun(t, y.token + 1, rest, Sibling(d, c.kids, path));
  }

  /** Every text of the grammar is accepted with its tree. */
  lemma ShownIsAccepted(s: Slot)
    requires SlotOk(s)
    ensures Parse(ShowSlot(s)) == Some(SlotTree(s))
  {
    var t := ShowSlot(s);
    assert Occurs(t, 0, t);
    hide Run, Lex, Settle, Occurs, SlotOk, ShowSlot, SlotInfo, SlotKids;
    var c, p, x := SlotRun(t, 0, s, None, Top);
    EndStep(t, c, p, x, SlotInfo(None, s));
  }

  // ----- every accepted text is one of the grammar -----

  /** From this place on the text is accepted. */
  predicate Accepted(t: string, c: Cursor<Info>, pos: nat) {
    pos <= |t| && '\0' !in t && Run(t, c, pos).tree.Some?
  }

  predicate OpensAt(t: string, q: nat) {
    q < |t| && (t[q] == '{' || t[q] == '[')
  }

  predicate ClosesAt(t: string, q: nat) {
    q < |t| && (t[q] == '}' || t[q] == ']')
  }

  /** A value ends here: at a comma, a closing bracket or the end of the text. */
  predicate EndsAt(t: string, q: nat) {
    q == |t| || ClosesAt(t, q) || (q < |t| && t[q] == ',')
  }

  lemma NextPiece(t: string, c: Cursor<Info>, pos: nat) returns (x: Lexeme)
    requires Accepted(t, c, pos)
    ensures Lex(t, pos) == Some(x) && pos <= x.left <= x.right <= x.token <= |t|
    ensures EndsAt(t, x.token) || OpensAt(t, x.token) || (x.token < |t| && t[x.token] == ':')
  {
    hide Settle, SetName, Ascend;
    x := Lex(t, pos).value;
  }

  lemma AtOpen(t: string, c: Cursor<Info>, pos: nat, x: Lexeme)
    requires Accepted(t, c, pos) && Lex(t, pos) == Some(x) && OpensAt(t, x.token)
    ensures x == Lexeme(x.token, x.token, x.token) && (InObject(c.path) ==> c.at.name.Some?)
    ensures var d := c.at.(kind := TokenKind(t[x.token])); var c' := Cursor(BLANK, Nil, Child(d, c.path));
      Accepted(t, c', x.token + 1) && Run(t, c, pos).tree == Run(t, c', x.token + 1).tree
  {
    hide Lex, Settle, SetName, Ascend;
    assert x.left == x.token;
    LexEnds(t, pos, x);
  }

  lemma LexEnds(t: string, pos: nat, x: Lexeme)
    requires pos <= |t| && Lex(t, pos) == Some(x)
    ensures x.left == x.token <==> x.right == x.token
  {
  }

  lemma AtColon(t: string, c: Cursor<Info>, pos: nat, x: Lexeme) returns (d: Info)
    requires Accepted(t, c, pos) && Lex(t, pos) == Some(x) && x.token < |t| && t[x.token] == ':'
    ensures InObject(c.path) && c.at.name.None? && SetName(t, c.at, x) == Some(d)
    ensures Accepted(t, c.(at := d), x.token + 1) && Run(t, c, pos).tree == Run(t, c.(at := d), x.token + 1).tree
  {
    hide Lex, Settle, SetName, Ascend;
    d := SetName(t, c.at, x).value;
  }

  /** The piece at a place is blank and a closing bracket follows. */
  predicate Lacks(t: string, pos: nat) {
    pos <= |t| && match Lex(t, pos) case None => false case Some(x) => x.left == x.token && ClosesAt(t, x.token)
  }

  /** Unless a value is lacking, what stands before the end of a value finishes the node. */
  lemma AtEnd(t: string, c: Cursor<Info>, pos: nat, x: Lexeme) returns (d: Info)
    requires Accepted(t, c, pos) && Lex(t, pos) == Some(x) && EndsAt(t, x.token)
    requires !Lacks(t, pos) || c.at.kind != Empty
    ensures Settle(t, c.at, x) == Some(d)
    ensures x.token == |t| <==> Parent(c.path).None?
    ensures x.token < |t| && t[x.token] != ',' ==> TokenKind(t[x.token]) == Parent(c.path).value.kind
    ensures c.at.kind == Empty && InObject(c.path) ==> c.at.name.Some?
  {
    hide Lex, Settle, SetName, Ascend;
    d := Settle(t, c.at, x).value;
  }

  lemma LackingOnlyFirst(t: string, c: Cursor<Info>, pos: nat)
    requires Accepted(t, c, pos) && Lacks(t, pos) && c.at.kind == Empty
    ensures c.path.Child? && TokenKind(t[Lex(t, pos).value.token]) == c.path.parent.kind
  {
    hide Lex, Settle, SetName, Ascend;
  }

  lemma SettledParts(t: string, d: Info, x: Lexeme, d': Info)
    requires x.left <= x.right <= x.token <= |t| && (x.left != x.token ==> x.right < x.token)
    requires Settle(t, d, x) == Some(d')
    ensures d.kind == Empty ==> x.left != x.token
    ensures d.kind != Empty ==> x.left == x.token && d' == d
  {
    hide SetValue;
  }

  lemma {:induction false} SlotFound(t: string, c: Cursor<Info>, pos: nat)
    returns (s: Slot, c': Cursor<Info>, p: nat, x: Lexeme)
    requires Accepted(t, c, pos) && !Lacks(t, pos) && c.at == Info(Empty, c.at.name, None) && c.kids == Nil
    requires InObject(c.path) ==> c.at.name.Some?
    ensures SlotOk(s) && pos <= p <= x.token <= |t| && t[pos..x.token] == ShowSlot(s) && EndsAt(t, x.token)
    ensures Accepted(t, c', p) && Lex(t, p) == Some(x) && Run(t, c, pos).tree == Run(t, c', p).tree
    ensures c'.path == c.path && c'.kids == SlotKids(s) && c'.at.name == c.at.name
    ensures Settle(t, c'.at, x) == Some(SlotInfo(c.at.name, s)) && (Lacks(t, p) ==> c'.at.kind != Empty)
    decreases |t| - pos, 1
  {
    hide Run, Lex, Settle, IsBlank, WordOk, ShowWord, WordInfo, ShowTail, TailOk, Accepted;
    x := NextPiece(t, c, pos);
    if OpensAt(t, x.token) {
      var tail;
      tail, c', p, x := TailFound(t, c, pos);
      s := Groups(tail);
    } else {
      NoColon(t, c, pos, x);
      var d := AtEnd(t, c, pos, x);
      LexEnds(t, pos, x);
      SettledParts(t, c.at, x, d);
      PieceSplits(t, pos, x);
      var w := WordFound(t, pos, x, c.at.name, d);
      s := Plain(t[pos..x.left], w, t[x.right + 1..x.token]);
      c', p := c, pos;
      AcceptedPlace(t, c, pos);
    }
  }

  lemma AcceptedPlace(t: string, c: Cursor<Info>, pos: nat)
    requires Accepted(t, c, pos)
    ensures pos <= |t|
  {
  }

  lemma NoColon(t: string, c: Cursor<Info>, pos: nat, x: Lexeme)
    requires Accepted(t, c, pos) && Lex(t, pos) == Some(x) && (InObject(c.path) ==> c.at.name.Some?)
    ensures x.token < |t| ==> t[x.token] != ':'
  {
    if x.token < |t| && t[x.token] == ':' {
      var d := AtColon(t, c, pos, x);
    }
  }

  lemma {:induction false} TailFound(t: string, c: Cursor<Info>, pos: nat)
    returns (tail: Tail, c': Cursor<Info>, p: nat, x: Lexeme)
    requires Accepted(t, c, pos) && c.at.value.None? && (InObject(c.path) ==> c.at.name.Some?)
    requires c.at.kind == Empty ==> Lex(t, pos).Some? && OpensAt(t, Lex(t, pos).value.token)
    ensures TailOk(tail) && pos <= p <= x.token <= |t| && t[pos..x.token] == ShowTail(tail) && EndsAt(t, x.token)
    ensures Accepted(t, c', p) && Lex(t, p) == Some(x) && Run(t, c, pos).tree == Run(t, c', p).tree
    ensures c'.path == c.path && c'.kids == TailKids(c.kids, tail) && c'.at.name == c.at.name && c'.at.kind != Empty
    ensures Settle(t, c'.at, x) == Some(Info(TailKind(c.at.kind, tail), c.at.name, None))
    ensures c.at.kind == Empty ==> tail.Again?
    decreases |t| - pos, 0
  {
    hide Run, Lex, Settle, IsBlank, GroupOk, ShowGroup, InnerKids, Accepted;
    x := NextPiece(t, c, pos);
    if OpensAt(t, x.token) {
      AtOpen(t, c, pos, x);
      PieceSplits(t, pos, x);
      var q := x.token;
      var d := c.at.(kind := TokenKind(t[q]));
      var inner, e := GroupFound(t, q + 1, d, c.path);
      var g := Group(d.kind, inner);
      GroupText(t, q, e, g);
      var rest;
      rest, c', p, x := TailFound(t, Cursor(d, InnerKids(inner), c.path), e);
      tail := Again(t[pos..q], g, rest);
      ThreeParts(t, pos, q, e, x.token);
    } else {
      NoColon(t, c, pos, x);
      var d := AtEnd(t, c, pos, x);
      LexEnds(t, pos, x);
      SettledParts(t, c.at, x, d);
      PieceSplits(t, pos, x);
      tail, c', p := End(t[pos..x.token]), c, pos;
    }
  }

  lemma GroupText(t: string, q: nat, e: nat, g: Group)
    requires q + 1 < e <= |t| && OpensAt(t, q) && ClosesAt(t, e - 1) && TokenKind(t[q]) == TokenKind(t[e - 1]) == g.kind
    requires t[q + 1..e - 1] == ShowInner(g.inner) && InnerOk(g.kind, g.inner)
    ensures GroupOk(g) && t[q..e] == ShowGroup(g)
  {
    hide ShowInner, InnerOk;
    assert t[q..e] == [t[q]] + (t[q + 1..e - 1] + [t[e - 1]]);
  }

  /** The key of the next member; items of an array have none. */
  lemma KeyPart(t: string, pos: nat, path: Path<Info>) returns (key: Option<Key>, p: nat)
    requires Parent(path).Some? && Accepted(t, Cursor(BLANK, Nil, path), pos) && !Lacks(t, pos)
    ensures (key.Some? <==> InObject(path)) && (key.Some? ==> KeyOk(key.value))
    ensures pos <= p <= |t| && t[pos..p] == ShowKey(key)
    ensures var c := Cursor(Info(Empty, NameOf(key), None), Nil, path);
      Accepted(t, c, p) && Run(t, Cursor(BLANK, Nil, path), pos).tree == Run(t, c, p).tree
  {
    hide Run, Lex, KeyOk, ShowKey, NameOf, SetName, Accepted;
    var c := Cursor(BLANK, Nil, path);
    var x := NextPiece(t, c, pos);
    if InObject(path) {
      if OpensAt(t, x.token) {
        AtOpen(t, c, pos, x);
      } else if EndsAt(t, x.token) {
        var d := AtEnd(t, c, pos, x);
      }
      var d := AtColon(t, c, pos, x);
      var k := KeyFound(t, pos, x, d);
      key, p := Some(k), x.token + 1;
    } else {
      key, p := None, pos;
      NoKey(t, pos);
    }
  }

  lemma NoKey(t: string, pos: nat)
    requires pos <= |t|
    ensures t[pos..pos] == ShowKey(None) && NameOf(None) == None
  {
  }

  /** The inside of a group, from behind its opening bracket to behind its closing one. */
  lemma {:induction false} GroupFound(t: string, pos: nat, d: Info, path: Path<Info>) returns (inner: Inner, e: nat)
    requires Accepted(t, Cursor(BLANK, Nil, Child(d, path)), pos) && (d.kind == Object || d.kind == Array)
    ensures InnerOk(d.kind, inner) && pos < e <= |t| && t[pos..e - 1] == ShowInner(inner)
    ensures ClosesAt(t, e - 1) && TokenKind(t[e - 1]) == d.kind
    ensures var c := Cursor(d, InnerKids(inner), path);
      Accepted(t, c, e) && Run(t, Cursor(BLANK, Nil, Child(d, path)), pos).tree == Run(t, c, e).tree
    decreases |t| - pos, 3
  {
    hide Run, Lex, IsBlank, KeyOk, ShowKey, NameOf, EntriesOk, ShowEntries, EntryChain, Accepted;
    if Lacks(t, pos) {
      var gap;
      gap, e := LackFound(t, pos, BLANK, d, path);
      inner := Nothing(gap);
    } else {
      var key, p := KeyPart(t, pos, Child(d, path));
      if Lacks(t, p) {
        var gap;
        gap, e := LackFound(t, p, Info(Empty, NameOf(key), None), d, path);
        LackedKey(t, pos, p, key);
        inner := NoValue(key.value, gap);
        TwoParts(t, pos, p, e - 1);
      } else {
        var entries;
        entries, e := EntriesFound(t, p, key, Child(d, path));
        inner := Filled(entries);
        TwoParts(t, pos, p, e - 1);
      }
    }
  }

  lemma LackedKey(t: string, pos: nat, p: nat, key: Option<Key>)
    requires pos <= p <= |t| && t[pos..p] == ShowKey(key) && !Lacks(t, pos) && Lacks(t, p)
    ensures key.Some?
  {
    hide Lacks;
  }

  lemma TwoParts(t: string, a: nat, b: nat, c: nat)
    requires a <= b <= c <= |t|
    ensures t[a..c] == t[a..b] + t[b..c]
  {
  }

  lemma LackFound(t: string, pos: nat, at: Info, d: Info, path: Path<Info>) returns (gap: string, e: nat)
    requires Accepted(t, Cursor(at, Nil, Child(d, path)), pos) && Lacks(t, pos) && at.kind == Empty
    ensures pos < e <= |t| && IsBlank(gap) && t[pos..e - 1] == gap && ClosesAt(t, e - 1) && TokenKind(t[e - 1]) == d.kind
    ensures var c := Cursor(d, Bin(at, Nil, Nil), path);
      Accepted(t, c, e) && Run(t, Cursor(at, Nil, Child(d, path)), pos).tree == Run(t, c, e).tree
  {
    hide Run, Lex, IsBlank;
    var x := Lex(t, pos).value;
    LexEnds(t, pos, x);
    PieceSplits(t, pos, x);
    LackingOnlyFirst(t, Cursor(at, Nil, Child(d, path)), pos);
    EmptyGroupStep(t, at, d, path, pos, x.token);
    gap, e := t[pos..x.token], x.token + 1;
  }

  /** The members or items of a group from behind the first key on. */
  lemma {:induction false} EntriesFound(t: string, pos: nat, key: Option<Key>, path: Path<Info>)
    returns (entries: Entries, e: nat)
    requires Accepted(t, Cursor(Info(Empty, NameOf(key), None), Nil, path), pos) && !Lacks(t, pos)
    requires Parent(path).Some? && (key.Some? <==> InObject(path)) && (key.Some? ==> KeyOk(key.value))
    ensures EntriesOk(Parent(path).value.kind, entries)
    ensures pos < e <= |t| && ShowKey(key) + t[pos..e - 1] == ShowEntries(entries)
    ensures ClosesAt(t, e - 1) && TokenKind(t[e - 1]) == Parent(path).value.kind
    ensures var c := Ascend(EntryChain(entries), path).value;
      Accepted(t, c, e) && Run(t, Cursor(Info(Empty, NameOf(key), None), Nil, path), pos).tree == Run(t, c, e).tree
    decreases |t| - pos, 2
  {
    hide Run, Lex, Settle, KeyOk, ShowKey, ReadStrings, SlotOk, ShowSlot, SlotKids, SlotInfo, Accepted, Lacks;
    var c := Cursor(Info(Empty, NameOf(key), None), Nil, path);
    var s, c', p, x := SlotFound(t, c, pos);
    var d := AtEnd(t, c', p, x);
    if ClosesAt(t, x.token) {
      entries, e := Last(key, s), x.token + 1;
      CloseGoesOn(t, c', p, x, d);
    } else {
      var next := Sibling(d, c'.kids, path);
      CommaGoesOn(t, c', p, x, d);
      NoneLacking(t, BLANK, x.token + 1, next);
      var key', p' := KeyPart(t, x.token + 1, next);
      NoneLacking(t, Info(Empty, NameOf(key'), None), p', next);
      var rest;
      rest, e := EntriesFound(t, p', key', next);
      entries := More(key, s, rest);
      EntryText(t, pos, x.token, p', e - 1, ShowKey(key), ShowKey(key'));
    }
  }

  /** A comma between two entries. */
  lemma EntryText(t: string, pos: nat, q: nat, p: nat, e: nat, key: string, key': string)
    requires pos <= q < p <= e <= |t| && t[q] == ',' && t[q + 1..p] == key'
    ensures key + t[pos..e] == (key + t[pos..q]) + ("," + (key' + t[p..e]))
  {
    assert t[pos..e] == t[pos..q] + ("," + (t[q + 1..p] + t[p..e]));
  }

  /** Behind a comma no value is lacking. */
  lemma NoneLacking(t: string, at: Info, pos: nat, path: Path<Info>)
    requires Accepted(t, Cursor(at, Nil, path), pos) && path.Sibling? && at.kind == Empty
    ensures !Lacks(t, pos)
  {
    hide Lacks, Run;
    if Lacks(t, pos) { LackingOnlyFirst(t, Cursor(at, Nil, path), pos); }
  }

  lemma CloseGoesOn(t: string, c: Cursor<Info>, pos: nat, x: Lexeme, d: Info)
    requires Accepted(t, c, pos) && Lex(t, pos) == Some(x) && ClosesAt(t, x.token) && Settle(t, c.at, x) == Some(d)
    requires Parent(c.path).Some? && TokenKind(t[x.token]) == Parent(c.path).value.kind && (InObject(c.path) ==> c.at.name.Some?)
    ensures var c' := Ascend(Bin(d, c.kids, Nil), c.path).value;
      Accepted(t, c', x.token + 1) && Run(t, c, pos).tree == Run(t, c', x.token + 1).tree
  {
    hide Run, Lex, Settle, Ascend;
    CloseStep(t, c, pos, x, d);
  }

  lemma CommaGoesOn(t: string, c: Cursor<Info>, pos: nat, x: Lexeme, d: Info)
    requires Accepted(t, c, pos) && Lex(t, pos) == Some(x) && x.token < |t| && t[x.token] == ','
    requires Settle(t, c.at, x) == Some(d) && Parent(c.path).Some? && (InObject(c.path) ==> c.at.name.Some?)
    ensures var c' := Cursor(BLANK, Nil, Sibling(d, c.kids, c.path));
      Accepted(t, c', x.token + 1) && Run(t, c, pos).tree == Run(t, c', x.token + 1).tree
  {
    hide Run, Lex, Settle;
    CommaStep(t, c, pos, x, d);
  }

  lemma AcceptedIsShown(t: string) returns (s: Slot)
    requires '\0' !in t && Parse(t).Some?
    ensures SlotOk(s) && t == ShowSlot(s) && Parse(t) == Some(SlotTree(s))
  {
    hide Run, Lex, Settle, SlotOk, ShowSlot, SlotKids, SlotInfo, Lacks;
    NothingLacks(t);
    var c, p, x;
    s, c, p, x := SlotFound(t, START, 0);
    var d := AtEnd(t, c, p, x);
    EndStep(t, c, p, x, d);
    assert t[0..|t|] == t;
  }

  lemma NothingLacks(t: string)
    requires Accepted(t, START, 0)
    ensures !Lacks(t, 0)
  {
    hide Lacks, Run;
    if Lacks(t, 0) { LackingOnlyFirst(t, START, 0); }
  }

  /** For every text: it is accepted with a tree if and only if it is a text of the grammar with that tree. */
  lemma AcceptedIff(t: string, tree: Lcrs<Info>)
    requires '\0' !in t
    ensures Parse(t) == Some(tree) <==> exists s :: SlotOk(s) && t == ShowSlot(s) && tree == SlotTree(s)
  {
    hide Parse, SlotOk, ShowSlot, SlotTree;
    if Parse(t) == Some(tree) {
      var s := AcceptedIsShown(t);
    }
    if s :| SlotOk(s) && t == ShowSlot(s) && tree == SlotTree(s) {
      ShownIsAccepted(s);
    }
  }

  // ----- what the text alone shows -----

  /** A comma outside strings at `i` is followed, over blanks only, by a closing bracket at `j`. */
  predicate TrailsAt(t: string, i: nat, j: nat) {
    i < j < |t| && t[i] == ',' && R.Outside(t, i) && SpacesIn(t, i + 1, j) && R.IsClose(t[j])
  }

  lemma {:induction false} NoneTrails(t: string, c: Cursor<Info>, pos: nat, i: nat, j: nat)
    requires Accepted(t, c, pos) && R.Synced(t, pos) && pos <= i
    ensures !TrailsAt(t, i, j)
    decreases |t| - pos
  {
    hide Lex, Settle, Ascend, R.Synced, SetName;
    if TrailsAt(t, i, j) {
      match Step(t, c, pos)
      case Accept(_) =>
        R.AcceptedAtEnd(t, c, pos);
        R.NotPassed(t, pos, |t|, i);
      case Continue(c', next) =>
        R.RoundFound(t, c, pos);
        if i < next - 1 {
          R.NotPassed(t, pos, next - 1, i);
        } else if i == next - 1 {
          BehindComma(t, c, pos, next);
          LacksHere(t, i + 1, j);
          NoneLacking(t, BLANK, next, c'.path);
        } else {
          R.SyncedStep(t, pos, next - 1);
          NoneTrails(t, c', next, i, j);
        }
    }
  }

  lemma BehindComma(t: string, c: Cursor<Info>, pos: nat, next: nat)
    requires pos <= |t| && Step(t, c, pos).Continue? && Step(t, c, pos).next == next && 0 < next <= |t| && t[next - 1] == ','
    ensures var c' := Step(t, c, pos).cursor; c' == Cursor(BLANK, Nil, c'.path) && c'.path.Sibling?
  {
    R.RoundFound(t, c, pos);
    hide Lex, Settle, SetName, Ascend;
  }

  lemma LacksHere(t: string, pos: nat, j: nat)
    requires pos <= j < |t| && SpacesIn(t, pos, j) && R.IsClose(t[j])
    ensures Lacks(t, pos)
  {
    R.OverSpaces(t, pos, j);
    InkOfPadded(t, pos, j, j, j);
  }

  /** In no accepted text a comma outside strings is followed over blanks by a closing bracket. */
  lemma NoTrailingComma(t: string, i: nat, j: nat)
    requires '\0' !in t && Parse(t).Some?
    ensures !TrailsAt(t, i, j)
  {
    hide Run, TrailsAt, R.Synced;
    R.StartSynced(t);
    NoneTrails(t, START, 0, i, j);
  }

  /** The text `[1,]` is rejected. */
  lemma TrailingCommaRejected()
    ensures Parse("[1,]") == None
  {
    hide Parse;
    var t := "[1,]";
    CommaOutside(t);
    if Parse(t).Some? {
      NoTrailingComma(t, 2, 3);
    }
  }

  lemma CommaOutside(t: string)
    requires t == "[1,]"
    ensures TrailsAt(t, 2, 3) && '\0' !in t
  {
    assert R.InString(t, 1, 2, false) == R.InString(t, 2, 2, false);
  }
}
