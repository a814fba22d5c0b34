/** The texts that `json_build` of `App/json/json.c` accepts, as a grammar of their own. It is wider than RFC 8259: strings
    may be joined, numbers are those of `strtod`, the only member of an object may lack its value, and a closed group may
    be opened again, in which case the last one counts. */
module JsonLoose {
  import opened CText
  import opened JsonLex
  import opened JsonTree
  import opened JsonGrammar
  import opened JsonNumeral

  /** One string or several with blanks between them, which are read as one. */
  datatype Strings = One(chars: seq<Chr>) | Joined(chars: seq<Chr>, gap: string, rest: Strings)

  datatype Word = NullWord | BoolWord(b: bool) | NumeralWord(n: Numeral) | StringWord(s: Strings)

  datatype Key = Key(before: string, name: Strings, after: string)

  /** What stands for one value: a word in blanks, or one group or several opened one after the other. */
  datatype Slot = Plain(before: string, word: Word, after: string) | Groups(groups: Tail)
  datatype Tail = End(gap: string) | Again(gap: string, group: Group, tail: Tail)
  datatype Group = Group(kind: Kind, inner: Inner)
  datatype Inner = Nothing(gap: string) | NoValue(key: Key, gap: string) | Filled(entries: Entries)
  datatype Entries = Last(key: Option<Key>, slot: Slot) | More(key: Option<Key>, slot: Slot, rest: Entries)

  predicate StringsOk(s: Strings) {
    ChrsOk(s.chars) && (s.Joined? ==> IsBlank(s.gap) && StringsOk(s.rest))
  }

  predicate WordOk(w: Word) {
    match w
    case NumeralWord(n) => NumeralOk(n)
    case StringWord(s) => StringsOk(s)
    case _ => true
  }

  predicate KeyOk(k: Key) {
    IsBlank(k.before) && StringsOk(k.name) && IsBlank(k.after)
  }

  predicate SlotOk(s: Slot) {
    match s
    case Plain(before, word, after) => IsBlank(before) && WordOk(word) && IsBlank(after)
    case Groups(groups) => groups.Again? && TailOk(groups)
  }

  predicate TailOk(t: Tail) {
    IsBlank(t.gap) && (t.Again? ==> GroupOk(t.group) && TailOk(t.tail))
  }

  predicate GroupOk(g: Group) {
    (g.kind == Object || g.kind == Array) && InnerOk(g.kind, g.inner)
  }

  predicate InnerOk(kind: Kind, x: Inner)
    decreases x
  {
    match x
    case Nothing(gap) => IsBlank(gap)
    case NoValue(key, gap) => kind == Object && KeyOk(key) && IsBlank(gap)
    case Filled(entries) => EntriesOk(kind, entries)
  }

  /** Members of an object have keys, and items of an array have none. */
  predicate EntriesOk(kind: Kind, x: Entries)
    decreases x
  {
    && (x.key.Some? <==> kind == Object) && (x.key.Some? ==> KeyOk(x.key.value))
    && SlotOk(x.slot) && (x.More? ==> EntriesOk(kind, x.rest))
  }

  function ShowStrings(s: Strings): string {
    match s
    case One(chars) => ShowString(chars)
    case Joined(chars, gap, rest) => ShowString(chars) + (gap + ShowStrings(rest))
  }

  function ShowWord(w: Word): string {
    match w
    case NullWord => "null"
    case BoolWord(b) => if b then "true" else "false"
    case NumeralWord(n) => ShowNumeral(n)
    case StringWord(s) => ShowStrings(s)
  }

  function ShowKey(k: Option<Key>): string {
    match k
    case None => ""
    case Some(k) => (k.before + (ShowStrings(k.name) + k.after)) + ":"
  }

  function ShowSlot(s: Slot): string {
    match s
    case Plain(before, word, after) => before + (ShowWord(word) + after)
    case Groups(groups) => ShowTail(groups)
  }

  function ShowTail(t: Tail): string {
    match t
    case End(gap) => gap
    case Again(gap, group, tail) => gap + (ShowGroup(group) + ShowTail(tail))
  }

  function ShowGroup(g: Group): string {
    (if g.kind == Object then "{" else "[") + (ShowInner(g.inner) + if g.kind == Object then "}" else "]")
  }

  function ShowInner(x: Inner): string {
    match x
    case Nothing(gap) => gap
    case NoValue(key, gap) => ShowKey(Some(key)) + gap
    case Filled(entries) => ShowEntries(entries)
  }

  function ShowEntries(x: Entries): string {
    match x
    case Last(key, slot) => ShowKey(key) + ShowSlot(slot)
    case More(key, slot, rest) => (ShowKey(key) + ShowSlot(slot)) + ("," + ShowEntries(rest))
  }

  // ----- the trees -----

  function ReadStrings(s: Strings): string {
    match s
    case One(chars) => ReadChrs(chars)
    case Joined(chars, _, rest) => ReadChrs(chars) + ReadStrings(rest)
  }

  function WordInfo(name: Option<string>, w: Word): Info {
    match w
    case NullWord => Info(Null, name, Some("null"))
    case BoolWord(b) => Info(Boolean, name, Some(if b then "true" else "false"))
    case NumeralWord(n) => Info(Number, name, Some(ShowNumeral(n)))
    case StringWord(s) => Info(String, name, Some(ReadStrings(s)))
  }

  function NameOf(k: Option<Key>): Option<string> {
    match k
    case None => None
    case Some(k) => Some(ReadStrings(k.name))
  }

  /** Of groups opened one after the other only the last is kept. */
  function TailKind(kind: Kind, t: Tail): Kind
    decreases t
  {
    match t
    case End(_) => kind
    case Again(_, group, tail) => TailKind(group.kind, tail)
  }

  function SlotInfo(name: Option<string>, s: Slot): Info {
    match s
    case Plain(_, word, _) => WordInfo(name, word)
    case Groups(groups) => Info(TailKind(Empty, groups), name, None)
  }

  function SlotKids(s: Slot): Lcrs<Info> {
    match s
    case Plain(_, _, _) => Nil
    case Groups(groups) => TailKids(Nil, groups)
  }

  function TailKids(kids: Lcrs<Info>, t: Tail): Lcrs<Info>
    decreases t
  {
    match t
    case End(_) => kids
    case Again(_, group, tail) => TailKids(InnerKids(group.inner), tail)
  }

  function InnerKids(x: Inner): Lcrs<Info> {
    match x
    case Nothing(_) => Bin(BLANK, Nil, Nil)
    case NoValue(key, _) => Bin(Info(Empty, NameOf(Some(key)), None), Nil, Nil)
    case Filled(entries) => EntryChain(entries)
  }

  function EntryChain(x: Entries): Lcrs<Info> {
    Bin(SlotInfo(NameOf(x.key), x.slot), SlotKids(x.slot), if x.More? then EntryChain(x.rest) else Nil)
  }

  function SlotTree(s: Slot): Lcrs<Info> {
    Bin(SlotInfo(None, s), SlotKids(s), Nil)
  }
}
