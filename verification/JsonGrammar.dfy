/** JSON texts as sections 2 to 7 of RFC 8259 write them (without \u escapes), with every choice of white
    space (also vertical tabs and form feeds) and of escapes, and the values they denote. */
module JsonGrammar {
  import opened CText
  import opened JsonLex
  import opened JsonTree

  // ----- texts -----

  /** A character of a string, written as itself or behind a backslash. */
  datatype Chr = Raw(c: char) | Esc(c: char)

  datatype Exponent = Exponent(mark: char, sign: string, digits: string)

  datatype Num = Num(negative: bool, whole: string, fraction: Option<string>, exponent: Option<Exponent>)

  datatype Scalar = NullWord | BoolWord(b: bool) | NumWord(n: Num) | StrWord(s: seq<Chr>)

  /** A value with white space around it. An empty group has white space `gap` inside. */
  datatype Element = Element(before: string, body: Body, after: string)
  datatype Body =
    | Simple(word: Scalar)
    | ArrayOf(gap: string, items: seq<Element>)
    | ObjectOf(gap: string, members: seq<Member>)
  datatype Member = Member(before: string, key: seq<Chr>, middle: string, value: Element)

  /** Every unescaped character of the RFC is allowed, and control characters other than zero besides. */
  predicate ChrOk(x: Chr) {
    match x
    case Raw(c) => c != '"' && c != '\\' && c != '\0'
    case Esc(c) => IsEscape(c)
  }

  predicate ChrsOk(s: seq<Chr>) {
    forall i :: 0 <= i < |s| ==> ChrOk(s[i])
  }

  predicate Digits(s: string) {
    s != "" && AllDigits(s)
  }

  predicate ExponentOk(e: Exponent) {
    (e.mark == 'e' || e.mark == 'E') && (e.sign == "" || e.sign == "+" || e.sign == "-") && Digits(e.digits)
  }

  /** Every number of the RFC, and numbers with leading zeros besides. */
  predicate NumOk(n: Num) {
    && Digits(n.whole)
    && (n.fraction.Some? ==> Digits(n.fraction.value))
    && (n.exponent.Some? ==> ExponentOk(n.exponent.value))
  }

  predicate ScalarOk(w: Scalar) {
    match w
    case NumWord(n) => NumOk(n)
    case StrWord(s) => ChrsOk(s)
    case _ => true
  }

  predicate ElementOk(e: Element) {
    IsBlank(e.before) && IsBlank(e.after) && BodyOk(e.body)
  }

  predicate BodyOk(b: Body) {
    match b
    case Simple(w) => ScalarOk(w)
    case ArrayOf(gap, items) => IsBlank(gap) && forall i :: 0 <= i < |items| ==> ElementOk(items[i])
    case ObjectOf(gap, members) => IsBlank(gap) && forall i :: 0 <= i < |members| ==> MemberOk(members[i])
  }

  predicate MemberOk(m: Member) {
    IsBlank(m.before) && ChrsOk(m.key) && IsBlank(m.middle) && ElementOk(m.value)
  }

  function ShowChr(x: Chr): string {
    match x
    case Raw(c) => [c]
    case Esc(c) => ['\\', c]
  }

  function ShowChrs(s: seq<Chr>): string {
    if s == [] then "" else ShowChr(s[0]) + ShowChrs(s[1..])
  }

  function ShowString(s: seq<Chr>): string {
    "\"" + (ShowChrs(s) + "\"")
  }

  function ShowExponent(x: Option<Exponent>): string {
    match x
    case None => ""
    case Some(e) => [e.mark] + (e.sign + e.digits)
  }

  function ShowFraction(x: Option<string>): string {
    match x
    case None => ""
    case Some(f) => "." + f
  }

  function ShowNum(n: Num): string {
    (if n.negative then "-" else "") + (n.whole + (ShowFraction(n.fraction) + ShowExponent(n.exponent)))
  }

  function ShowScalar(w: Scalar): string {
    match w
    case NullWord => "null"
    case BoolWord(b) => if b then "true" else "false"
    case NumWord(n) => ShowNum(n)
    case StrWord(s) => ShowString(s)
  }

  function ShowElement(e: Element): string
    decreases e, 1
  {
    e.before + (ShowBody(e.body) + e.after)
  }

  function ShowBody(b: Body): string
    decreases b, 1
  {
    match b
    case Simple(w) => ShowScalar(w)
    case ArrayOf(gap, items) => if items == [] then "[" + (gap + "]") else "[" + (ShowItems(items) + "]")
    case ObjectOf(gap, members) => if members == [] then "{" + (gap + "}") else "{" + (ShowMembers(members) + "}")
  }

  function ShowItems(items: seq<Element>): string
    requires items != []
    decreases items, 0
  {
    if |items| == 1 then ShowElement(items[0])
    else ShowElement(items[0]) + ("," + ShowItems(items[1..]))
  }

  function ShowMember(m: Member): string
    decreases m, 1
  {
    m.before + (ShowString(m.key) + (m.middle + (":" + ShowElement(m.value))))
  }

  function ShowMembers(members: seq<Member>): string
    requires members != []
    decreases members, 0
  {
    if |members| == 1 then ShowMember(members[0])
    else ShowMember(members[0]) + ("," + ShowMembers(members[1..]))
  }

  // ----- values -----

  datatype Value =
    | VNull
    | VBool(b: bool)
    | VNumber(digits: string)
    | VString(s: string)
    | VArray(items: seq<Value>)
    | VObject(fields: seq<Field>)
  datatype Field = Field(name: string, value: Value)

  function ReadChr(x: Chr): string {
    match x
    case Raw(c) => [c]
    case Esc(c) => match Unescape(c) case Some(u) => [u] case None => ""
  }

  function ReadChrs(s: seq<Chr>): string {
    if s == [] then "" else ReadChr(s[0]) + ReadChrs(s[1..])
  }

  function Denote(b: Body): Value
    decreases b, 1
  {
    match b
    case Simple(NullWord) => VNull
    case Simple(BoolWord(b)) => VBool(b)
    case Simple(NumWord(n)) => VNumber(ShowNum(n))
    case Simple(StrWord(s)) => VString(ReadChrs(s))
    case ArrayOf(_, items) => VArray(DenoteItems(items))
    case ObjectOf(_, members) => VObject(DenoteMembers(members))
  }

  function DenoteItems(items: seq<Element>): seq<Value>
    decreases items, 0
  {
    if items == [] then [] else [Denote(items[0].body)] + DenoteItems(items[1..])
  }

  function DenoteMembers(members: seq<Member>): seq<Field>
    decreases members, 0
  {
    if members == [] then []
    else [Field(ReadChrs(members[0].key), Denote(members[0].value.body))] + DenoteMembers(members[1..])
  }

  // ----- trees of values -----

  function InfoOf(name: Option<string>, v: Value): Info {
    match v
    case VNull => Info(Null, name, Some("null"))
    case VBool(b) => Info(Boolean, name, Some(if b then "true" else "false"))
    case VNumber(s) => Info(Number, name, Some(s))
    case VString(s) => Info(String, name, Some(s))
    case VArray(_) => Info(Array, name, None)
    case VObject(_) => Info(Object, name, None)
  }

  /** The chain of children of a value; an empty group has one blank child. */
  function KidsOf(v: Value): Lcrs<Info>
    decreases v, 1
  {
    match v
    case VArray(items) => if items == [] then Bin(BLANK, Nil, Nil) else ItemChain(items)
    case VObject(fields) => if fields == [] then Bin(BLANK, Nil, Nil) else FieldChain(fields)
    case _ => Nil
  }

  function ItemChain(items: seq<Value>): Lcrs<Info>
    decreases items, 0
  {
    if items == [] then Nil
    else Bin(InfoOf(None, items[0]), KidsOf(items[0]), ItemChain(items[1..]))
  }

  function FieldChain(fields: seq<Field>): Lcrs<Info>
    decreases fields, 0
  {
    if fields == [] then Nil
    else Bin(InfoOf(Some(fields[0].name), fields[0].value), KidsOf(fields[0].value), FieldChain(fields[1..]))
  }

  function TreeOf(v: Value): Lcrs<Info> {
    Bin(InfoOf(None, v), KidsOf(v), Nil)
  }

  /** Different values have different trees. */
  lemma {:induction false} TreeDeterminesValue(v: Value, w: Value, name: Option<string>)
    requires InfoOf(name, v) == InfoOf(name, w) && KidsOf(v) == KidsOf(w)
    ensures v == w
    decreases v, 1
  {
    match v
    case VBool(b) => assert "true"[0] == 't' && "false"[0] == 'f';
    case VArray(items) => if items != [] && w.items != [] { ItemsDetermined(items, w.items); }
    case VObject(fields) => if fields != [] && w.fields != [] { FieldsDetermined(fields, w.fields); }
    case _ =>
  }

  lemma {:induction false} ItemsDetermined(vs: seq<Value>, ws: seq<Value>)
    requires ItemChain(vs) == ItemChain(ws)
    ensures vs == ws
    decreases vs, 0
  {
    if vs != [] && ws != [] {
      TreeDeterminesValue(vs[0], ws[0], None);
      ItemsDetermined(vs[1..], ws[1..]);
      assert vs == [vs[0]] + vs[1..] && ws == [ws[0]] + ws[1..];
    }
  }

  lemma {:induction false} FieldsDetermined(vs: seq<Field>, ws: seq<Field>)
    requires FieldChain(vs) == FieldChain(ws)
    ensures vs == ws
    decreases vs, 0
  {
    if vs != [] && ws != [] {
      TreeDeterminesValue(vs[0].value, ws[0].value, Some(vs[0].name));
      FieldsDetermined(vs[1..], ws[1..]);
      assert vs == [vs[0]] + vs[1..] && ws == [ws[0]] + ws[1..];
    }
  }
}
