/** Every JSON text is accepted, and the tree built is the tree of the value it denotes. */
module JsonCompleteness {
  import opened CText
  import opened JsonLex
  import opened JsonTree
  import opened JsonGrammar
  import opened JsonNumeral

  // ----- scanning -----

  lemma {:induction false} DelimSkipsSpaces(t: string, i: nat, j: nat, q: Quoting)
    requires i <= j <= |t| && SpacesIn(t, i, j) && !q.Inside?
    ensures Delim(t, i, q) == Delim(t, j, q)
    decreases j - i
  {
    if i < j { DelimSkipsSpaces(t, i + 1, j, q); }
  }

  lemma {:induction false} DelimSkipsPlain(t: string, i: nat, j: nat)
    requires i <= j <= |t| && forall k :: i <= k < j ==> IsPlain(t[k])
    ensures Delim(t, i, Bare) == Delim(t, j, Bare)
    decreases j - i
  {
    if i < j { DelimSkipsPlain(t, i + 1, j); }
  }

  lemma ChrStep(t: string, i: nat, e: nat, x: Chr)
    requires ChrOk(x) && Occurs(t, i, ShowChr(x)) && i + |ShowChr(x)| <= e
    ensures Delim(t, i, Inside) == Delim(t, i + |ShowChr(x)|, Inside)
    ensures Decoded(t, i, e, Inside) == ReadChr(x) + Decoded(t, i + |ShowChr(x)|, e, Inside)
  {
    OccursAt(t, i, ShowChr(x), 0);
    if x.Esc? { OccursAt(t, i, ShowChr(x), 1); }
  }

  lemma {:induction false} DelimSkipsChrs(t: string, i: nat, s: seq<Chr>)
    requires ChrsOk(s) && Occurs(t, i, ShowChrs(s))
    ensures Delim(t, i, Inside) == Delim(t, i + |ShowChrs(s)|, Inside)
    decreases |s|
  {
    if s != [] {
      OccursSplit(t, i, ShowChr(s[0]), ShowChrs(s[1..]));
      ChrStep(t, i, i + |ShowChr(s[0])|, s[0]);
      DelimSkipsChrs(t, i + |ShowChr(s[0])|, s[1..]);
    }
  }

  /** The characters of a written string are decoded to the characters they stand for. */
  lemma {:induction false} DecodedChrs(t: string, i: nat, e: nat, s: seq<Chr>)
    requires ChrsOk(s) && Occurs(t, i, ShowChrs(s)) && e == i + |ShowChrs(s)| + 1 && At(t, e - 1) == '"'
    ensures Decoded(t, i, e, Inside) == ReadChrs(s)
    decreases |s|
  {
    if s == [] {
      assert Decoded(t, e, e, After) == "";
    } else {
      OccursSplit(t, i, ShowChr(s[0]), ShowChrs(s[1..]));
      ChrStep(t, i, e, s[0]);
      DecodedChrs(t, i + |ShowChr(s[0])|, e, s[1..]);
    }
  }

  lemma {:induction false} DecodedPlain(t: string, i: nat, e: nat)
    requires i <= e <= |t| && forall k :: i <= k < e ==> IsPlain(t[k])
    ensures Decoded(t, i, e, Bare) == t[i..e]
    decreases e - i
  {
    if i < e { DecodedPlain(t, i + 1, e); }
  }

  predicate Closes(c: char) {
    IsToken(c) || c == '\0'
  }

  lemma DelimSkipsBlank(t: string, i: nat, s: string, q: Quoting)
    requires Occurs(t, i, s) && IsBlank(s) && !q.Inside?
    ensures SpacesIn(t, i, i + |s|) && Delim(t, i, q) == Delim(t, i + |s|, q)
  {
    forall k | i <= k < i + |s| ensures IsSpace(t[k]) { OccursAt(t, i, s, k - i); }
    DelimSkipsSpaces(t, i, i + |s|, q);
  }

  /** Where the quotes of a written string stand. */
  lemma StringAt(t: string, l: nat, s: seq<Chr>)
    requires Occurs(t, l, ShowString(s))
    ensures Occurs(t, l + 1, ShowChrs(s)) && l + 1 + |ShowChrs(s)| < |t|
    ensures t[l] == '"' && t[l + 1 + |ShowChrs(s)|] == '"' && |ShowString(s)| == |ShowChrs(s)| + 2
  {
    OccursSplit(t, l, "\"", ShowChrs(s) + "\"");
    OccursSplit(t, l + 1, ShowChrs(s), "\"");
    OccursAt(t, l, "\"", 0);
    OccursAt(t, l + 1 + |ShowChrs(s)|, "\"", 0);
  }

  lemma StringStep(t: string, l: nat, s: seq<Chr>)
    requires ChrsOk(s) && Occurs(t, l, ShowString(s))
    ensures Delim(t, l, Bare) == Delim(t, l + |ShowString(s)|, After)
    ensures Decoded(t, l, l + |ShowString(s)|, Bare) == ReadChrs(s)
  {
    StringAt(t, l, s);
    DelimSkipsChrs(t, l + 1, s);
    DecodedChrs(t, l + 1, l + |ShowString(s)|, s);
  }

  lemma DelimCloses(t: string, q: nat, quoting: Quoting)
    requires q <= |t| && Closes(At(t, q)) && !quoting.Inside?
    ensures Delim(t, q, quoting) == Some(q)
  {
  }

  lemma LexIs(t: string, pos: nat, l: nat, r: nat, q: nat)
    requires pos <= l < r <= q <= |t| && Delim(t, pos, Bare) == Some(q)
    requires SpacesIn(t, pos, l) && !IsSpace(t[l]) && !IsSpace(t[r - 1]) && SpacesIn(t, r, q)
    ensures Lex(t, pos) == Some(Lexeme(q, l, r - 1))
  {
    InkOfPadded(t, pos, l, r, q);
  }

  /** A quoted string with blanks around it, up to a structural character. */
  lemma LexString(t: string, pos: nat, before: string, s: seq<Chr>, after: string) returns (x: Lexeme)
    requires Occurs(t, pos, before + (ShowString(s) + after)) && IsBlank(before) && ChrsOk(s) && IsBlank(after)
    requires Closes(At(t, pos + |before + (ShowString(s) + after)|))
    ensures x.left == pos + |before| && x.right + 1 == x.left + |ShowString(s)| && x.token == x.right + 1 + |after|
    ensures x.token <= |t| && x.left < x.right && t[x.left] == '"' && t[x.right] == '"'
    ensures Lex(t, pos) == Some(x)
    ensures Decoded(t, x.left, x.right + 1, Bare) == ReadChrs(s)
  {
    hide Delim, Decoded, Lex, ShowChrs, SpacesIn, ChrsOk, ReadChrs, Occurs, IsBlank;
    var l := pos + |before|;
    var r := l + |ShowString(s)|;
    var q := r + |after|;
    OccursSplit(t, pos, before, ShowString(s) + after);
    OccursSplit(t, l, ShowString(s), after);
    StringAt(t, l, s);
    StringStep(t, l, s);
    DelimSkipsBlank(t, pos, before, Bare);
    DelimSkipsBlank(t, r, after, After);
    DelimCloses(t, q, After);
    LexIs(t, pos, l, r, q);
    x := Lexeme(q, l, r - 1);
  }

  lemma WordStep(t: string, l: nat, w: string)
    requires Occurs(t, l, w) && PlainWord(w)
    ensures Delim(t, l, Bare) == Delim(t, l + |w|, Bare)
    ensures Decoded(t, l, l + |w|, Bare) == t[l..l + |w|] == w
    ensures w != "" ==> !IsSpace(t[l]) && !IsSpace(t[l + |w| - 1]) && t[l] != '"'
  {
    forall k | l <= k < l + |w| ensures IsPlain(t[k]) && !IsSpace(t[k]) { OccursAt(t, l, w, k - l); }
    DelimSkipsPlain(t, l, l + |w|);
    DecodedPlain(t, l, l + |w|);
  }

  /** A word without quotes with blanks around it, up to a structural character. */
  lemma LexWord(t: string, pos: nat, before: string, w: string, after: string) returns (x: Lexeme)
    requires Occurs(t, pos, before + (w + after)) && IsBlank(before) && IsBlank(after) && w != "" && PlainWord(w)
    requires Closes(At(t, pos + |before + (w + after)|))
    ensures x.left == pos + |before| && x.right + 1 == x.left + |w| && x.token == x.right + 1 + |after|
    ensures x.token <= |t| && Occurs(t, x.left, w) && t[x.left..x.right + 1] == w && t[x.left] != '"'
    ensures Lex(t, pos) == Some(x)
    ensures Decoded(t, x.left, x.right + 1, Bare) == w
    ensures Stops(At(t, x.right + 1))
  {
    hide Delim, Decoded, Lex, SpacesIn, Occurs, IsBlank, PlainWord;
    var l := pos + |before|;
    var r := l + |w|;
    var q := r + |after|;
    OccursSplit(t, pos, before, w + after);
    OccursSplit(t, l, w, after);
    WordStep(t, l, w);
    DelimSkipsBlank(t, pos, before, Bare);
    DelimSkipsBlank(t, r, after, Bare);
    DelimCloses(t, q, Bare);
    LexIs(t, pos, l, r, q);
    x := Lexeme(q, l, r - 1);
  }

  /** Blanks alone, up to a structural character. */
  lemma LexGap(t: string, pos: nat, gap: string)
    requires Occurs(t, pos, gap) && IsBlank(gap) && Closes(At(t, pos + |gap|))
    ensures var q := pos + |gap|; Lex(t, pos) == Some(Lexeme(q, q, q))
  {
    DelimSkipsBlank(t, pos, gap, Bare);
    InkOfPadded(t, pos, pos + |gap|, pos + |gap|, pos + |gap|);
  }

  // ----- numbers -----

  function AsNumeral(n: Num): Numeral {
    Written(if n.negative then "-" else "", false, "", n.whole, n.fraction, n.exponent)
  }

  /** Numbers of the RFC are numerals of `strtod`. */
  lemma NumIsNumeral(n: Num)
    requires NumOk(n)
    ensures NumeralOk(AsNumeral(n)) && ShowNumeral(AsNumeral(n)) == ShowNum(n)
    ensures ShowNum(n) != "" && PlainWord(ShowNum(n))
  {
    hide ShowFraction, ShowExponent;
    NumeralIsPlain(AsNumeral(n));
  }

  // ----- single steps of the builder -----

  lemma OpenStep(t: string, c: Cursor<Info>, pos: nat, q: nat)
    requires pos <= q < |t| && Lex(t, pos) == Some(Lexeme(q, q, q)) && (t[q] == '[' || t[q] == '{')
    requires c.kids.Nil? && (InObject(c.path) ==> c.at.name.Some?)
    ensures Run(t, c, pos) == Run(t, Cursor(BLANK, Nil, Child(c.at.(kind := TokenKind(t[q])), c.path)), q + 1)
  {
    hide Lex, Settle, SetName, Occurs;
  }

  lemma EmptyGroupStep(t: string, at: Info, d: Info, up: Path<Info>, pos: nat, q: nat)
    requires pos <= q < |t| && Lex(t, pos) == Some(Lexeme(q, q, q)) && (t[q] == ']' || t[q] == '}')
    requires d.kind == TokenKind(t[q]) && at.kind == Empty
    ensures Run(t, Cursor(at, Nil, Child(d, up)), pos) == Run(t, Cursor(d, Bin(at, Nil, Nil), up), q + 1)
  {
    hide Lex, Settle, SetName, Occurs;
  }

  lemma NameStep(t: string, path: Path<Info>, pos: nat, x: Lexeme, d: Info)
    requires pos <= x.token < |t| && Lex(t, pos) == Some(x) && t[x.token] == ':' && InObject(path)
    requires SetName(t, BLANK, x) == Some(d)
    ensures Run(t, Cursor(BLANK, Nil, path), pos) == Run(t, Cursor(d, Nil, path), x.token + 1)
  {
    hide Lex, Settle, SetName, Occurs;
  }

  lemma CommaStep(t: string, c: Cursor<Info>, pos: nat, x: Lexeme, d: Info)
    requires pos <= x.token < |t| && Lex(t, pos) == Some(x) && t[x.token] == ','
    requires Parent(c.path).Some? && (InObject(c.path) ==> c.at.name.Some?) && Settle(t, c.at, x) == Some(d)
    ensures Run(t, c, pos) == Run(t, Cursor(BLANK, Nil, Sibling(d, c.kids, c.path)), x.token + 1)
  {
    hide Lex, Settle, SetName, Occurs;
  }

  lemma CloseStep(t: string, c: Cursor<Info>, pos: nat, x: Lexeme, d: Info)
    requires pos <= x.token < |t| && Lex(t, pos) == Some(x) && (t[x.token] == ']' || t[x.token] == '}')
    requires Parent(c.path).Some? && Parent(c.path).value.kind == TokenKind(t[x.token])
    requires (InObject(c.path) ==> c.at.name.Some?) && Settle(t, c.at, x) == Some(d)
    ensures Run(t, c, pos) == Run(t, Ascend(Bin(d, c.kids, Nil), c.path).value, x.token + 1)
  {
    hide Lex, SetValue, SetName, Occurs;
  }

  lemma EndStep(t: string, c: Cursor<Info>, pos: nat, x: Lexeme, d: Info)
    requires pos <= x.token == |t| && Lex(t, pos) == Some(x) && c.path.Top? && Settle(t, c.at, x) == Some(d)
    ensures Run(t, c, pos) == Built(Some(Bin(d, c.kids, Nil)), false)
  {
    hide Lex, Settle, SetName, Occurs;
  }

  // ----- whole texts -----

  lemma SettleValue(t: string, name: Option<string>, x: Lexeme, k: Kind, s: string)
    requires x.left <= x.right < x.token <= |t|
    requires Classify(t, x.left, x.right) == Some(k) && Decoded(t, x.left, x.right + 1, Bare) == s
    ensures Settle(t, Info(Empty, name, None), x) == Some(Info(k, name, Some(s)))
  {
    hide Classify, Decoded;
  }

  lemma SettleGroup(t: string, d: Info, q: nat)
    requires d.kind != Empty && q <= |t|
    ensures Settle(t, d, Lexeme(q, q, q)) == Some(d)
  {
  }

  lemma ClassifyNumber(t: string, left: nat, right: nat, n: Num)
    requires NumOk(n) && left <= right < |t| && right + 1 == left + |ShowNum(n)|
    requires Occurs(t, left, ShowNum(n)) && t[left..right + 1] == ShowNum(n)
    requires Stops(At(t, right + 1))
    ensures Classify(t, left, right) == Some(Number)
  {
    NumIsNumeral(n);
    NumeralEndAt(t, left, AsNumeral(n));
    hide StrtodEnd;
    var c := ShowNum(n)[0];
    assert c == '-' || IsDigit(c);
    OccursAt(t, left, ShowNum(n), 0);
    assert "null"[0] == 'n' && "true"[0] == 't' && "false"[0] == 'f';
  }

  lemma ClassifyWord(t: string, left: nat, right: nat, w: string)
    requires left <= right < |t| && t[left..right + 1] == w && t[left] != '"'
    ensures w == "null" ==> Classify(t, left, right) == Some(Null)
    ensures w == "true" || w == "false" ==> Classify(t, left, right) == Some(Boolean)
  {
    hide StrtodEnd;
  }

  lemma WordSettles(t: string, pos: nat, before: string, w: string, after: string, name: Option<string>, k: Kind)
    returns (x: Lexeme)
    requires (w == "null" && k == Null) || ((w == "true" || w == "false") && k == Boolean)
    requires IsBlank(before) && IsBlank(after)
    requires Occurs(t, pos, before + (w + after)) && Closes(At(t, pos + |before + (w + after)|))
    ensures x.token == pos + |before + (w + after)| && Lex(t, pos) == Some(x)
    ensures Settle(t, Info(Empty, name, None), x) == Some(Info(k, name, Some(w)))
  {
    hide Lex, Decoded, Settle, Occurs, Classify, Closes, IsBlank;
    x := LexWord(t, pos, before, w, after);
    ClassifyWord(t, x.left, x.right, w);
    SettleValue(t, name, x, k, w);
  }

  lemma StringSettles(t: string, pos: nat, before: string, s: seq<Chr>, after: string, name: Option<string>)
    returns (x: Lexeme)
    requires ChrsOk(s) && IsBlank(before) && IsBlank(after)
    requires Occurs(t, pos, before + (ShowString(s) + after)) && Closes(At(t, pos + |before + (ShowString(s) + after)|))
    ensures x.token == pos + |before + (ShowString(s) + after)| && Lex(t, pos) == Some(x)
    ensures Settle(t, Info(Empty, name, None), x) == Some(Info(String, name, Some(ReadChrs(s))))
  {
    hide Lex, Decoded, Settle, Occurs, StrtodEnd, Closes, IsBlank, ReadChrs, ChrsOk, ShowString;
    x := LexString(t, pos, before, s, after);
    SettleValue(t, name, x, String, ReadChrs(s));
  }

  lemma NumberSettles(t: string, pos: nat, before: string, n: Num, after: string, name: Option<string>)
    returns (x: Lexeme)
    requires NumOk(n) && IsBlank(before) && IsBlank(after)
    requires Occurs(t, pos, before + (ShowNum(n) + after)) && Closes(At(t, pos + |before + (ShowNum(n) + after)|))
    ensures x.token == pos + |before + (ShowNum(n) + after)| && Lex(t, pos) == Some(x)
    ensures Settle(t, Info(Empty, name, None), x) == Some(Info(Number, name, Some(ShowNum(n))))
  {
    hide Lex, Decoded, Settle, Occurs, Classify, Closes, IsBlank, NumOk, ShowNum, PlainWord, Stops;
    NumIsNumeral(n);
    x := LexWord(t, pos, before, ShowNum(n), after);
    ClassifyNumber(t, x.left, x.right, n);
    SettleValue(t, name, x, Number, ShowNum(n));
  }

  /** A scalar in its blanks is one piece, and finishes a fresh node as the scalar's value. */
  lemma ScalarSettles(t: string, pos: nat, before: string, w: Scalar, after: string, name: Option<string>)
    returns (x: Lexeme)
    requires ScalarOk(w) && IsBlank(before) && IsBlank(after)
    requires Occurs(t, pos, before + (ShowScalar(w) + after)) && Closes(At(t, pos + |before + (ShowScalar(w) + after)|))
    ensures x.token == pos + |before + (ShowScalar(w) + after)| && Lex(t, pos) == Some(x)
    ensures Settle(t, Info(Empty, name, None), x) == Some(InfoOf(name, Denote(Simple(w))))
  {
    hide Lex, Settle, Occurs, Closes, IsBlank, ReadChrs, ShowNum, ShowString, NumOk, ChrsOk;
    match w
    case StrWord(s) => x := StringSettles(t, pos, before, s, after, name);
    case NumWord(n) => x := NumberSettles(t, pos, before, n, after, name);
    case NullWord => x := WordSettles(t, pos, before, "null", after, name, Null);
    case BoolWord(b) => x := WordSettles(t, pos, before, ShowScalar(w), after, name, Boolean);
  }

  /** From a fresh node the text of an element leads to a node that the next structural character finishes
      as the element's value. */
  lemma {:induction false} ElementRun(t: string, pos: nat, e: Element, name: Option<string>, path: Path<Info>)
    returns (c: Cursor<Info>, p: nat, x: Lexeme)
    requires ElementOk(e) && Occurs(t, pos, ShowElement(e)) && Closes(At(t, pos + |ShowElement(e)|))
    requires InObject(path) ==> name.Some?
    ensures p <= |t| && Run(t, Cursor(Info(Empty, name, None), Nil, path), pos) == Run(t, c, p)
    ensures c.path == path && c.kids == KidsOf(Denote(e.body)) && c.at.name == name
    ensures x.token == pos + |ShowElement(e)| && Lex(t, p) == Some(x)
    ensures Settle(t, c.at, x) == Some(InfoOf(name, Denote(e.body)))
    decreases e, 1
  {
    hide Run, Lex, Settle, Occurs, IsBlank;
    c := Cursor(Info(Empty, name, None), Nil, path);
    if e.body.Simple? {
      p := pos;
      x := ScalarSettles(t, pos, e.before, e.body.word, e.after, name);
    } else {
      hide BodyOk, ShowBody;
      OccursSplit(t, pos, e.before, ShowBody(e.body) + e.after);
      var q := pos + |e.before|;
      OccursSplit(t, q, ShowBody(e.body), e.after);
      p := q + |ShowBody(e.body)|;
      GroupRun(t, q, e.body, name, path);
      LexGap(t, pos, e.before);
      OpenStep(t, c, pos, q);
      c := Cursor(InfoOf(name, Denote(e.body)), KidsOf(Denote(e.body)), path);
      x := Lexeme(p + |e.after|, p + |e.after|, p + |e.after|);
      LexGap(t, p, e.after);
      SettleGroup(t, c.at, x.token);
    }
  }

  /** The text of a group, from behind its opening bracket. */
  lemma {:induction false} GroupRun(t: string, q: nat, b: Body, name: Option<string>, path: Path<Info>)
    requires BodyOk(b) && !b.Simple? && Occurs(t, q, ShowBody(b))
    ensures q < |t| && t[q] == (if b.ArrayOf? then '[' else '{')
    ensures q + |ShowBody(b)| <= |t|
    ensures Run(t, Cursor(BLANK, Nil, Child(InfoOf(name, Denote(b)), path)), q + 1)
         == Run(t, Cursor(InfoOf(name, Denote(b)), KidsOf(Denote(b)), path), q + |ShowBody(b)|)
    decreases b, 2
  {
    hide Run, Occurs, IsBlank, ElementOk, MemberOk;
    match b
    case ArrayOf(gap, items) => ArrayRun(t, q, gap, items, Info(Array, name, None), path);
    case ObjectOf(gap, members) => ObjectRun(t, q, gap, members, Info(Object, name, None), path);
  }

  lemma {:induction false} ArrayRun(t: string, q: nat, gap: string, items: seq<Element>, d: Info, path: Path<Info>)
    requires IsBlank(gap) && (forall i :: 0 <= i < |items| ==> ElementOk(items[i])) && d.kind == Array
    requires Occurs(t, q, ShowBody(ArrayOf(gap, items)))
    ensures q < |t| && t[q] == '[' && q + |ShowBody(ArrayOf(gap, items))| <= |t|
    ensures Run(t, Cursor(BLANK, Nil, Child(d, path)), q + 1)
         == Run(t, Cursor(d, KidsOf(VArray(DenoteItems(items))), path), q + |ShowBody(ArrayOf(gap, items))|)
    decreases items, 1
  {
    hide Run, Lex, Occurs, IsBlank, ElementOk, ShowItems;
    var inner := if items == [] then gap else ShowItems(items);
    assert ShowBody(ArrayOf(gap, items)) == "[" + (inner + "]");
    Brackets(t, q, "[", inner, "]");
    if items == [] {
      LexGap(t, q + 1, gap);
      EmptyGroupStep(t, BLANK, d, path, q + 1, q + 1 + |inner|);
    } else {
      ItemsRun(t, q + 1, items, Child(d, path));
    }
  }

  lemma {:induction false} ObjectRun(t: string, q: nat, gap: string, members: seq<Member>, d: Info, path: Path<Info>)
    requires IsBlank(gap) && (forall i :: 0 <= i < |members| ==> MemberOk(members[i])) && d.kind == Object
    requires Occurs(t, q, ShowBody(ObjectOf(gap, members)))
    ensures q < |t| && t[q] == '{' && q + |ShowBody(ObjectOf(gap, members))| <= |t|
    ensures Run(t, Cursor(BLANK, Nil, Child(d, path)), q + 1)
         == Run(t, Cursor(d, KidsOf(VObject(DenoteMembers(members))), path), q + |ShowBody(ObjectOf(gap, members))|)
    decreases members, 1
  {
    hide Run, Lex, Occurs, IsBlank, MemberOk, ShowMembers;
    var inner := if members == [] then gap else ShowMembers(members);
    assert ShowBody(ObjectOf(gap, members)) == "{" + (inner + "}");
    Brackets(t, q, "{", inner, "}");
    if members == [] {
      LexGap(t, q + 1, gap);
      EmptyGroupStep(t, BLANK, d, path, q + 1, q + 1 + |inner|);
    } else {
      MembersRun(t, q + 1, members, Child(d, path));
    }
  }

  lemma Brackets(t: string, q: nat, open: string, inner: string, close: string)
    requires |open| == 1 && |close| == 1 && Occurs(t, q, open + (inner + close))
    ensures q + |inner| + 1 < |t| && t[q] == open[0] && t[q + 1 + |inner|] == close[0]
    ensures Occurs(t, q + 1, inner)
  {
    OccursSplit(t, q, open, inner + close);
    OccursSplit(t, q + 1, inner, close);
    OccursAt(t, q, open, 0);
    OccursAt(t, q + 1 + |inner|, close, 0);
  }

  lemma Separated(t: string, pos: nat, first: string, rest: string)
    requires Occurs(t, pos, first + ("," + rest))
    ensures pos + |first| + 1 + |rest| <= |t| && t[pos + |first|] == ','
    ensures Occurs(t, pos, first) && Occurs(t, pos + |first| + 1, rest)
  {
    OccursSplit(t, pos, first, "," + rest);
    OccursSplit(t, pos + |first|, ",", rest);
    OccursAt(t, pos + |first|, ",", 0);
  }

  lemma ItemChainUnfolds(items: seq<Element>)
    requires items != []
    ensures var v := Denote(items[0].body);
      ItemChain(DenoteItems(items)) == Bin(InfoOf(None, v), KidsOf(v), ItemChain(DenoteItems(items[1..])))
    ensures |items| == 1 ==> ItemChain(DenoteItems(items[1..])) == Nil
  {
    hide Denote, KidsOf, InfoOf;
    assert DenoteItems(items)[1..] == DenoteItems(items[1..]);
  }

  lemma FieldChainUnfolds(members: seq<Member>)
    requires members != []
    ensures var v := Denote(members[0].value.body);
      FieldChain(DenoteMembers(members))
      == Bin(InfoOf(Some(ReadChrs(members[0].key)), v), KidsOf(v), FieldChain(DenoteMembers(members[1..])))
    ensures |members| == 1 ==> FieldChain(DenoteMembers(members[1..])) == Nil
  {
    hide Denote, KidsOf, InfoOf;
    assert DenoteMembers(members)[1..] == DenoteMembers(members[1..]);
  }

  lemma {:induction false} ItemsRun(t: string, pos: nat, items: seq<Element>, path: Path<Info>)
    requires items != [] && (forall i :: 0 <= i < |items| ==> ElementOk(items[i]))
    requires Parent(path).Some? && Parent(path).value.kind == Array
    requires Occurs(t, pos, ShowItems(items)) && At(t, pos + |ShowItems(items)|) == ']'
    ensures Run(t, Cursor(BLANK, Nil, path), pos)
         == Run(t, Ascend(ItemChain(DenoteItems(items)), path).value, pos + |ShowItems(items)| + 1)
    decreases items, 0
  {
    hide Run, Lex, Settle, Occurs, ElementOk, ShowElement, Denote, KidsOf, InfoOf, ItemChain, DenoteItems;
    var e, rest := items[0], items[1..];
    var v := Denote(e.body);
    var d := InfoOf(None, v);
    ItemChainUnfolds(items);
    if |items| == 1 {
      var c, p, x := ElementRun(t, pos, e, None, path);
      CloseStep(t, c, p, x, d);
    } else {
      Separated(t, pos, ShowElement(e), ShowItems(rest));
      var c, p, x := ElementRun(t, pos, e, None, path);
      CommaStep(t, c, p, x, d);
      ItemsRun(t, x.token + 1, rest, Sibling(d, KidsOf(v), path));
    }
  }

  lemma {:induction false} MemberRun(t: string, pos: nat, m: Member, path: Path<Info>)
    returns (c: Cursor<Info>, p: nat, x: Lexeme)
    requires MemberOk(m) && InObject(path)
    requires Occurs(t, pos, ShowMember(m)) && Closes(At(t, pos + |ShowMember(m)|))
    ensures var v := Denote(m.value.body); var name := Some(ReadChrs(m.key));
      && p <= |t| && Run(t, Cursor(BLANK, Nil, path), pos) == Run(t, c, p)
      && c.path == path && c.kids == KidsOf(v) && c.at.name == name
      && x.token == pos + |ShowMember(m)| && Lex(t, p) == Some(x)
      && Settle(t, c.at, x) == Some(InfoOf(name, v))
    decreases m, 1
  {
    hide Run, Step, Lex, Settle, Occurs, IsBlank, Decoded, ChrsOk;
    var head := m.before + (ShowString(m.key) + m.middle);
    assert ShowMember(m) == head + (":" + ShowElement(m.value));
    OccursSplit(t, pos, head, ":" + ShowElement(m.value));
    var q := pos + |head|;
    OccursSplit(t, q, ":", ShowElement(m.value));
    OccursAt(t, q, ":", 0);
    var y := LexString(t, pos, m.before, m.key, m.middle);
    var d := Info(Empty, Some(ReadChrs(m.key)), None);
    NameStep(t, path, pos, y, d);
    c, p, x := ElementRun(t, q + 1, m.value, Some(ReadChrs(m.key)), path);
  }

  lemma {:induction false} MembersRun(t: string, pos: nat, members: seq<Member>, path: Path<Info>)
    requires members != [] && (forall i :: 0 <= i < |members| ==> MemberOk(members[i]))
    requires InObject(path)
    requires Occurs(t, pos, ShowMembers(members)) && At(t, pos + |ShowMembers(members)|) == '}'
    ensures Run(t, Cursor(BLANK, Nil, path), pos)
         == Run(t, Ascend(FieldChain(DenoteMembers(members)), path).value, pos + |ShowMembers(members)| + 1)
    decreases members, 0
  {
    hide Run, Lex, Settle, Occurs, MemberOk, ShowMember, Denote, KidsOf, InfoOf, FieldChain, DenoteMembers, ReadChrs;
    var m, rest := members[0], members[1..];
    var v := Denote(m.value.body);
    var d := InfoOf(Some(ReadChrs(m.key)), v);
    FieldChainUnfolds(members);
    if |members| == 1 {
      var c, p, x := MemberRun(t, pos, m, path);
      CloseStep(t, c, p, x, d);
    } else {
      Separated(t, pos, ShowMember(m), ShowMembers(rest));
      var c, p, x := MemberRun(t, pos, m, path);
      CommaStep(t, c, p, x, d);
      MembersRun(t, x.token + 1, rest, Sibling(d, KidsOf(v), path));
    }
  }

  /** Completeness: every JSON text is accepted with the tree of the value it denotes, and no group is reopened. */
  lemma Completeness(e: Element)
    requires ElementOk(e)
    ensures Parse(ShowElement(e)) == Some(TreeOf(Denote(e.body))) && !Reopens(ShowElement(e))
  {
    var t := ShowElement(e);
    assert Occurs(t, 0, t);
    hide Run, Lex, Settle, Occurs;
    var c, p, x := ElementRun(t, 0, e, None, Top);
    EndStep(t, c, p, x, InfoOf(None, Denote(e.body)));
  }
}
