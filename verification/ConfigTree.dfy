/** Reading a configuration: `read_json` and `read_values` of `App/Client/Main.c` and the accessors of
    `App/json/json.c` that they use, over value trees; and what they read in terms of the JSON value. A tree
    stands for a pointer to its first node, `Nil` for the null pointer. */
module ConfigTree {
  import opened CText
  import opened JsonLex
  import opened JsonTree
  import opened JsonGrammar
  import opened Numerals

  /** One entry of a gate schedule; a part never assigned is `None`. */
  datatype PortValues = PortValues(period: Option<nat>, gates: Option<int>)
  datatype PortConf = PortConf(number: int, values: seq<PortValues>)
  datatype SwitchConf = SwitchConf(name: string, ports: seq<PortConf>)

  const MAX_SWITCH_NAME_LENGTH := 20
  const UNSET := PortValues(None, None)

  // ----- accessors -----

  function First(t: Lcrs<Info>): Lcrs<Info> {
    if t.Nil? then Nil else t.left
  }

  /** The first node of a chain that has this name. */
  function Named(chain: Lcrs<Info>, name: string): Lcrs<Info> {
    if chain.Nil? || chain.data.name == Some(name) then chain else Named(chain.right, name)
  }

  function Nth(chain: Lcrs<Info>, k: nat): Lcrs<Info> {
    if chain.Nil? || k == 0 then chain else Nth(chain.right, k - 1)
  }

  function Count(chain: Lcrs<Info>): nat {
    if chain.Nil? then 0 else 1 + Count(chain.right)
  }

  /** `json_node` */
  function NodeNamed(t: Lcrs<Info>, name: string): Lcrs<Info> {
    Named(First(t), name)
  }

  /** `json_item` */
  function ItemAt(t: Lcrs<Info>, k: nat): Lcrs<Info> {
    Nth(First(t), k)
  }

  predicate HasKind(t: Lcrs<Info>, kind: Kind) {
    t.Bin? && t.data.kind == kind
  }

  predicate Unsigned(text: string) {
    '.' !in text && '-' !in text
  }

  /** `json_is_real` */
  predicate IsReal(t: Lcrs<Info>) {
    HasKind(t, Number) && t.data.value.Some? && Unsigned(t.data.value.value)
  }

  /** `json_real` */
  function Real(t: Lcrs<Info>): nat {
    if t.Bin? && t.data.value.Some? then Strtoul(t.data.value.value) else 0
  }

  // ----- reading -----

  function Updated(current: PortValues, t: Lcrs<Info>): PortValues {
    PortValues(if IsReal(ItemAt(t, 0)) then Some(Real(ItemAt(t, 0))) else current.period,
               if IsReal(ItemAt(t, 1)) then Some(AsInt(Real(ItemAt(t, 1)))) else current.gates)
  }

  /** `read_values`: one record for all entries, so a part that an entry lacks keeps its last value. */
  function ValuesFrom(chain: Lcrs<Info>, current: PortValues): seq<PortValues> {
    if chain.Nil? then [] else [Updated(current, chain)] + ValuesFrom(chain.right, Updated(current, chain))
  }

  function PortAt(t: Lcrs<Info>): PortConf {
    PortConf(AsInt(Real(NodeNamed(t, "port_number"))), ValuesFrom(ItemAt(NodeNamed(t, "values"), 0), UNSET))
  }

  function PortsFrom(chain: Lcrs<Info>): seq<PortConf> {
    if chain.Nil? then [] else [PortAt(chain)] + PortsFrom(chain.right)
  }

  /** `read_json` on one node: at most one switch, or `None` where it ends the program. */
  function Read(t: Lcrs<Info>): Option<seq<SwitchConf>> {
    var name, ports := NodeNamed(t, "switch"), NodeNamed(t, "port_list");
    if !HasKind(name, String) then Some([])
    else if !HasKind(ports, Array) then None
    else Some([SwitchConf(if name.data.value.Some? then name.data.value.value else "", PortsFrom(First(ports)))])
  }

  function Both<T>(a: Option<seq<T>>, b: Option<seq<T>>): Option<seq<T>> {
    if a.None? || b.None? then None else Some(a.value + b.value)
  }

  /** The name of a switch fits the array that it is copied to. */
  predicate ShortName(t: Lcrs<Info>) {
    var name := NodeNamed(t, "switch");
    HasKind(name, String) && name.data.value.Some? ==> |name.data.value.value| < MAX_SWITCH_NAME_LENGTH
  }

  predicate ShortNames(t: Lcrs<Info>) {
    t.Bin? ==> ShortName(t) && ShortNames(t.left) && ShortNames(t.right)
  }

  lemma BothAssoc<T>(a: Option<seq<T>>, b: Option<seq<T>>, c: Option<seq<T>>)
    ensures Both(a, Both(b, c)) == Both(Both(a, b), c)
  {
    if a.Some? && b.Some? && c.Some? {
      assert a.value + (b.value + c.value) == a.value + b.value + c.value;
    }
  }

  lemma BothNothing<T>(a: Option<seq<T>>)
    ensures Both(Some([]), a) == a && Both(a, Some([])) == a
  {
    if a.Some? {
      assert [] + a.value == a.value && a.value + [] == a.value;
    }
  }

  /** `json_foreach` with `read_json` */
  function Walk(t: Lcrs<Info>): Option<seq<SwitchConf>> {
    if t.Nil? then Some([]) else Both(Read(t), Both(Walk(t.left), Walk(t.right)))
  }

  // ----- the same in terms of the value -----

  /** The elements of a group in order; a group without any has one empty child instead. */
  function Children(v: Value): seq<Option<Value>> {
    match v
    case VArray(items) => if items == [] then [None] else seq(|items|, i requires 0 <= i < |items| => Some(items[i]))
    case VObject(fields) =>
      if fields == [] then [None] else seq(|fields|, i requires 0 <= i < |fields| => Some(fields[i].value))
    case _ => []
  }

  function ChildAt(o: Option<Value>, i: nat): Option<Value> {
    if o.Some? && i < |Children(o.value)| then Children(o.value)[i] else None
  }

  function FirstField(fields: seq<Field>, name: string): Option<Value> {
    if fields == [] then None
    else if fields[0].name == name then Some(fields[0].value)
    else FirstField(fields[1..], name)
  }

  function FieldNamed(v: Value, name: string): Option<Value> {
    if v.VObject? then FirstField(v.fields, name) else None
  }

  function RealOf(o: Option<Value>): nat {
    if o.Some? && InfoOf(None, o.value).value.Some? then Strtoul(InfoOf(None, o.value).value.value) else 0
  }

  predicate IsRealOf(o: Option<Value>) {
    o.Some? && o.value.VNumber? && Unsigned(o.value.digits)
  }

  function NextPair(current: PortValues, entry: Option<Value>): PortValues {
    PortValues(if IsRealOf(ChildAt(entry, 0)) then Some(RealOf(ChildAt(entry, 0))) else current.period,
               if IsRealOf(ChildAt(entry, 1)) then Some(AsInt(RealOf(ChildAt(entry, 1)))) else current.gates)
  }

  function PairsFrom(entries: seq<Option<Value>>, current: PortValues): seq<PortValues> {
    if entries == [] then []
    else [NextPair(current, entries[0])] + PairsFrom(entries[1..], NextPair(current, entries[0]))
  }

  function PortOf(o: Option<Value>): PortConf {
    if o.None? then PortConf(0, [])
    else
      var values := FieldNamed(o.value, "values");
      PortConf(AsInt(RealOf(FieldNamed(o.value, "port_number"))),
               if values.Some? then PairsFrom(Children(values.value), UNSET) else [])
  }

  function PortsOf(entries: seq<Option<Value>>): seq<PortConf> {
    if entries == [] then [] else [PortOf(entries[0])] + PortsOf(entries[1..])
  }

  /** The switch that a value describes by itself. */
  function SwitchOf(v: Value): Option<seq<SwitchConf>> {
    match FieldNamed(v, "switch")
    case Some(VString(name)) =>
      (match FieldNamed(v, "port_list")
       case Some(VArray(items)) => Some([SwitchConf(name, PortsOf(Children(VArray(items))))])
       case _ => None)
    case _ => Some([])
  }

  /** All switches of a value in document order. */
  function Collect(v: Value): Option<seq<SwitchConf>>
    decreases v, 1
  {
    Both(SwitchOf(v),
         match v
         case VArray(items) => CollectItems(items)
         case VObject(fields) => CollectFields(fields)
         case _ => Some([]))
  }

  function CollectItems(items: seq<Value>): Option<seq<SwitchConf>>
    decreases items, 0
  {
    if items == [] then Some([]) else Both(Collect(items[0]), CollectItems(items[1..]))
  }

  function CollectFields(fields: seq<Field>): Option<seq<SwitchConf>>
    decreases fields, 0
  {
    if fields == [] then Some([]) else Both(Collect(fields[0].value), CollectFields(fields[1..]))
  }

  // ----- trees of values -----

  /** A node of a value's tree, whatever its name and its later siblings. */
  predicate Stands(t: Lcrs<Info>, o: Option<Value>) {
    match o
    case None => t.Nil? || (t.data.kind == Empty && t.data.value == None && t.left.Nil?)
    case Some(v) => t.Bin? && t.data == InfoOf(t.data.name, v) && t.left == KidsOf(v)
  }

  /** The nodes of the chain stand for the values, one each. */
  predicate StandFor(chain: Lcrs<Info>, os: seq<Option<Value>>) {
    if os == [] then chain.Nil? else chain.Bin? && Stands(chain, os[0]) && StandFor(chain.right, os[1..])
  }

  lemma {:induction false} ItemsStand(items: seq<Value>)
    ensures StandFor(ItemChain(items), seq(|items|, i requires 0 <= i < |items| => Some(items[i])))
  {
    var os := seq(|items|, i requires 0 <= i < |items| => Some(items[i]));
    if items != [] {
      ItemsStand(items[1..]);
      assert os[1..] == seq(|items[1..]|, i requires 0 <= i < |items[1..]| => Some(items[1..][i]));
    }
  }

  lemma {:induction false} FieldsStand(fields: seq<Field>)
    ensures StandFor(FieldChain(fields), seq(|fields|, i requires 0 <= i < |fields| => Some(fields[i].value)))
  {
    var os := seq(|fields|, i requires 0 <= i < |fields| => Some(fields[i].value));
    if fields != [] {
      FieldsStand(fields[1..]);
      assert os[1..] == seq(|fields[1..]|, i requires 0 <= i < |fields[1..]| => Some(fields[1..][i].value));
    }
  }

  lemma ChildrenStand(v: Value)
    ensures StandFor(KidsOf(v), Children(v))
  {
    match v
    case VArray(items) => if items == [] { BlankStands(); } else { ItemsStand(items); }
    case VObject(fields) => if fields == [] { BlankStands(); } else { FieldsStand(fields); }
    case _ =>
  }

  lemma BlankStands()
    ensures StandFor(Bin(BLANK, Nil, Nil), [None])
  {
    var os: seq<Option<Value>> := [None];
    assert os[1..] == [];
  }

  lemma {:induction false} NthStands(chain: Lcrs<Info>, os: seq<Option<Value>>, k: nat)
    requires StandFor(chain, os)
    ensures Stands(Nth(chain, k), if k < |os| then os[k] else None)
    decreases k
  {
    if k > 0 && os != [] {
      NthStands(chain.right, os[1..], k - 1);
    }
  }

  lemma ItemStands(t: Lcrs<Info>, o: Option<Value>, k: nat)
    requires Stands(t, o)
    ensures Stands(ItemAt(t, k), ChildAt(o, k))
  {
    if o.Some? {
      ChildrenStand(o.value);
      NthStands(t.left, Children(o.value), k);
    }
  }

  lemma {:induction false} FieldStands(fields: seq<Field>, name: string)
    ensures Stands(Named(FieldChain(fields), name), FirstField(fields, name))
  {
    if fields != [] && fields[0].name != name {
      FieldStands(fields[1..], name);
    }
  }

  lemma {:induction false} ItemsNameless(items: seq<Value>, name: string)
    ensures Named(ItemChain(items), name) == Nil
  {
    if items != [] {
      ItemsNameless(items[1..], name);
    }
  }

  lemma NameStands(t: Lcrs<Info>, o: Option<Value>, name: string)
    requires Stands(t, o)
    ensures Stands(NodeNamed(t, name), if o.Some? then FieldNamed(o.value, name) else None)
  {
    if o.Some? {
      match o.value
      case VArray(items) => ItemsNameless(items, name);
      case VObject(fields) => FieldStands(fields, name);
      case _ =>
    }
  }

  /** A node says of its value what the value says. */
  lemma RealStands(t: Lcrs<Info>, o: Option<Value>)
    requires Stands(t, o)
    ensures Real(t) == RealOf(o) && IsReal(t) == IsRealOf(o)
    ensures HasKind(t, Array) <==> o.Some? && o.value.VArray?
    ensures HasKind(t, String) <==> o.Some? && o.value.VString?
    ensures o.Some? && o.value.VString? ==> t.data.value == Some(o.value.s)
  {
  }

  // ----- what is read is what the value says -----

  lemma PairStands(current: PortValues, t: Lcrs<Info>, o: Option<Value>)
    requires Stands(t, o)
    ensures Updated(current, t) == NextPair(current, o)
  {
    hide Stands, ItemAt, ChildAt, Real, RealOf, IsReal, IsRealOf;
    ItemStands(t, o, 0);
    RealStands(ItemAt(t, 0), ChildAt(o, 0));
    ItemStands(t, o, 1);
    RealStands(ItemAt(t, 1), ChildAt(o, 1));
  }

  lemma {:induction false} PairsStand(chain: Lcrs<Info>, os: seq<Option<Value>>, current: PortValues)
    requires StandFor(chain, os)
    ensures ValuesFrom(chain, current) == PairsFrom(os, current)
    decreases |os|
  {
    hide Stands, Updated, NextPair;
    if os != [] {
      PairStands(current, chain, os[0]);
      PairsStand(chain.right, os[1..], Updated(current, chain));
    }
  }

  lemma ValuesStand(t: Lcrs<Info>, o: Option<Value>)
    requires Stands(t, o)
    ensures ValuesFrom(ItemAt(t, 0), UNSET) == if o.Some? then PairsFrom(Children(o.value), UNSET) else []
  {
    hide ValuesFrom, PairsFrom, StandFor, Children;
    if o.Some? {
      ChildrenStand(o.value);
      PairsStand(t.left, Children(o.value), UNSET);
    } else {
      NoValues();
    }
  }

  lemma NoValues()
    ensures ValuesFrom(Nil, UNSET) == []
  {
  }

  lemma PortStands(t: Lcrs<Info>, o: Option<Value>)
    requires Stands(t, o)
    ensures PortAt(t) == PortOf(o)
  {
    hide Stands, NodeNamed, FieldNamed, Real, RealOf, ItemAt, ValuesFrom, PairsFrom, Children;
    NameStands(t, o, "port_number");
    NameStands(t, o, "values");
    var number := if o.Some? then FieldNamed(o.value, "port_number") else None;
    var values := if o.Some? then FieldNamed(o.value, "values") else None;
    RealStands(NodeNamed(t, "port_number"), number);
    ValuesStand(NodeNamed(t, "values"), values);
    NothingReal();
  }

  lemma NothingReal()
    ensures RealOf(None) == 0 && AsInt(0) == 0
  {
  }

  lemma {:induction false} PortsStand(chain: Lcrs<Info>, os: seq<Option<Value>>)
    requires StandFor(chain, os)
    ensures PortsFrom(chain) == PortsOf(os)
    decreases |os|
  {
    hide Stands, PortAt, PortOf;
    if os != [] {
      PortStands(chain, os[0]);
      PortsStand(chain.right, os[1..]);
    }
  }

  lemma ReadStands(t: Lcrs<Info>, v: Value)
    requires Stands(t, Some(v))
    ensures Read(t) == SwitchOf(v)
  {
    hide NodeNamed, FieldNamed, PortsFrom, PortsOf, StandFor, Children;
    NameStands(t, Some(v), "switch");
    NameStands(t, Some(v), "port_list");
    var name, ports := FieldNamed(v, "switch"), FieldNamed(v, "port_list");
    RealStands(NodeNamed(t, "switch"), name);
    RealStands(NodeNamed(t, "port_list"), ports);
    if ports.Some? && ports.value.VArray? {
      ChildrenStand(ports.value);
      PortsStand(NodeNamed(t, "port_list").left, Children(ports.value));
    }
  }

  /** The children of a node, walked. */
  lemma {:induction false} WalkKids(v: Value)
    ensures Walk(KidsOf(v)) == match v
      case VArray(items) => CollectItems(items)
      case VObject(fields) => CollectFields(fields)
      case _ => Some([])
    decreases v, 1
  {
    hide Read;
    match v
    case VArray(items) => if items == [] { WalkBlank(); } else { WalkItems(items); }
    case VObject(fields) => if fields == [] { WalkBlank(); } else { WalkFields(fields); }
    case _ =>
  }

  lemma WalkBlank()
    ensures Walk(Bin(BLANK, Nil, Nil)) == Some([])
  {
    BothNothing<SwitchConf>(Some([]));
    assert Read(Bin(BLANK, Nil, Nil)) == Some([]);
    assert Walk(Nil) == Some([]);
  }

  /** One node of a chain, walked with all below it. */
  lemma WalkNode(t: Lcrs<Info>, v: Value)
    requires Stands(t, Some(v)) && Walk(t.left) == match v
      case VArray(items) => CollectItems(items)
      case VObject(fields) => CollectFields(fields)
      case _ => Some([])
    ensures Walk(t) == Both(Collect(v), Walk(t.right))
  {
    hide Read, SwitchOf, CollectItems, CollectFields;
    ReadStands(t, v);
    BothAssoc(SwitchOf(v), Walk(t.left), Walk(t.right));
  }

  lemma {:induction false} WalkItems(items: seq<Value>)
    ensures Walk(ItemChain(items)) == CollectItems(items)
    decreases items, 0
  {
    hide Walk, Collect;
    if items != [] {
      WalkKids(items[0]);
      WalkNode(ItemChain(items), items[0]);
      WalkItems(items[1..]);
    } else {
      WalkNothing();
    }
  }

  lemma {:induction false} WalkFields(fields: seq<Field>)
    ensures Walk(FieldChain(fields)) == CollectFields(fields)
    decreases fields, 0
  {
    hide Walk, Collect;
    if fields != [] {
      WalkKids(fields[0].value);
      WalkNode(FieldChain(fields), fields[0].value);
      WalkFields(fields[1..]);
    } else {
      WalkNothing();
    }
  }

  lemma WalkNothing()
    ensures Walk(Nil) == Some([])
  {
  }

  /** For every JSON value, the walk over its tree yields the switches of the value in document order. */
  lemma DocumentOrder(v: Value)
    ensures Walk(TreeOf(v)) == Collect(v)
  {
    hide Walk, Collect;
    WalkKids(v);
    WalkNode(TreeOf(v), v);
    WalkNothing();
    var all := Collect(v);
    if all.Some? {
      assert all.value + [] == all.value;
    }
  }

  // ----- well-formed configurations -----

  predicate GateDigits(s: string) {
    s != "" && forall i :: 0 <= i < |s| ==> s[i] == '0' || s[i] == '1'
  }

  /** Digits that a number of this size can hold. */
  predicate Whole(s: string, bound: nat) {
    s != "" && AllDigits(s) && DigitsValue(s) < bound
  }

  predicate GoodPair(v: Value) {
    && v.VArray? && |v.items| >= 2 && v.items[0].VNumber? && v.items[1].VNumber?
    && Whole(v.items[0].digits, WORD)
    && GateDigits(v.items[1].digits) && Whole(v.items[1].digits, 0x8000_0000)
  }

  predicate GoodPort(v: Value) {
    var number, values := FieldNamed(v, "port_number"), FieldNamed(v, "values");
    && number.Some? && number.value.VNumber? && Whole(number.value.digits, 0x8000_0000)
    && values.Some? && values.value.VArray? && values.value.items != []
    && forall i :: 0 <= i < |values.value.items| ==> GoodPair(values.value.items[i])
  }

  /** Nowhere in the value is there an object with a string field `switch`. */
  predicate NoSwitch(v: Value)
    decreases v, 1
  {
    && SwitchOf(v) == Some([])
    && match v
       case VArray(items) => forall i :: 0 <= i < |items| ==> NoSwitch(items[i])
       case VObject(fields) => NoSwitches(fields)
       case _ => true
  }

  predicate NoSwitches(fields: seq<Field>)
    decreases fields, 0
  {
    forall i :: 0 <= i < |fields| ==> NoSwitch(fields[i].value)
  }

  predicate GoodSwitch(v: Value) {
    var name, ports := FieldNamed(v, "switch"), FieldNamed(v, "port_list");
    && v.VObject? && NoSwitches(v.fields)
    && name.Some? && name.value.VString? && |name.value.s| < MAX_SWITCH_NAME_LENGTH
    && ports.Some? && ports.value.VArray? && ports.value.items != []
    && forall i :: 0 <= i < |ports.value.items| ==> GoodPort(ports.value.items[i])
  }

  predicate GoodConfig(v: Value) {
    v.VArray? && forall i :: 0 <= i < |v.items| ==> GoodSwitch(v.items[i])
  }

  function PairConf(v: Value): PortValues
    requires GoodPair(v)
  {
    PortValues(Some(DigitsValue(v.items[0].digits)), Some(DigitsValue(v.items[1].digits)))
  }

  function PortConfOf(v: Value): PortConf
    requires GoodPort(v)
  {
    var values := FieldNamed(v, "values").value.items;
    PortConf(DigitsValue(FieldNamed(v, "port_number").value.digits),
             seq(|values|, i requires 0 <= i < |values| => PairConf(values[i])))
  }

  function SwitchConfOf(v: Value): SwitchConf
    requires GoodSwitch(v)
  {
    var ports := FieldNamed(v, "port_list").value.items;
    SwitchConf(FieldNamed(v, "switch").value.s, seq(|ports|, i requires 0 <= i < |ports| => PortConfOf(ports[i])))
  }

  /** What a configuration says: its switches, their ports and their schedules, each in the order written. */
  function ConfigOf(v: Value): seq<SwitchConf>
    requires GoodConfig(v)
  {
    seq(|v.items|, i requires 0 <= i < |v.items| => SwitchConfOf(v.items[i]))
  }

  lemma StrtoulOfDigits(s: string)
    requires Whole(s, WORD)
    ensures Strtoul(s) == DigitsValue(s) && Unsigned(s)
  {
    assert IsDigit(s[0]);
    assert FirstInk(s, 0, |s|) == 0;
    assert DigitsEnd(s, 0) == |s|;
    assert s[0..|s|] == s;
  }

  lemma PairRead(current: PortValues, v: Value)
    requires GoodPair(v)
    ensures NextPair(current, Some(v)) == PairConf(v)
  {
    hide Strtoul, Unsigned, DigitsValue;
    StrtoulOfDigits(v.items[0].digits);
    StrtoulOfDigits(v.items[1].digits);
    assert ChildAt(Some(v), 0) == Some(v.items[0]) && ChildAt(Some(v), 1) == Some(v.items[1]);
  }

  lemma {:induction false} PairsRead(values: seq<Value>, current: PortValues)
    requires forall i :: 0 <= i < |values| ==> GoodPair(values[i])
    ensures PairsFrom(seq(|values|, i requires 0 <= i < |values| => Some(values[i])), current)
         == seq(|values|, i requires 0 <= i < |values| => PairConf(values[i]))
  {
    hide NextPair, PairConf, GoodPair;
    var os := seq(|values|, i requires 0 <= i < |values| => Some(values[i]));
    if values != [] {
      PairRead(current, values[0]);
      PairsRead(values[1..], NextPair(current, os[0]));
      assert os[1..] == seq(|values[1..]|, i requires 0 <= i < |values[1..]| => Some(values[1..][i]));
    }
  }

  lemma PortRead(v: Value)
    requires GoodPort(v)
    ensures PortOf(Some(v)) == PortConfOf(v)
  {
    hide Strtoul, Unsigned, DigitsValue, FieldNamed, GoodPair, PairConf, PairsFrom;
    StrtoulOfDigits(FieldNamed(v, "port_number").value.digits);
    PairsRead(FieldNamed(v, "values").value.items, UNSET);
  }

  lemma {:induction false} PortsRead(ports: seq<Value>)
    requires forall i :: 0 <= i < |ports| ==> GoodPort(ports[i])
    ensures PortsOf(seq(|ports|, i requires 0 <= i < |ports| => Some(ports[i])))
         == seq(|ports|, i requires 0 <= i < |ports| => PortConfOf(ports[i]))
  {
    hide PortOf, PortConfOf, GoodPort;
    var os := seq(|ports|, i requires 0 <= i < |ports| => Some(ports[i]));
    if ports != [] {
      PortRead(ports[0]);
      PortsRead(ports[1..]);
      assert os[1..] == seq(|ports[1..]|, i requires 0 <= i < |ports[1..]| => Some(ports[1..][i]));
    }
  }

  lemma {:induction false} NoneIn(v: Value)
    requires NoSwitch(v)
    ensures Collect(v) == Some([])
    decreases v, 1
  {
    hide SwitchOf;
    BothNothing<SwitchConf>(Some([]));
    match v
    case VArray(items) => NoneInItems(items);
    case VObject(fields) => NoneInFields(fields);
    case _ =>
  }

  lemma {:induction false} NoneInItems(items: seq<Value>)
    requires forall i :: 0 <= i < |items| ==> NoSwitch(items[i])
    ensures CollectItems(items) == Some([])
    decreases items, 0
  {
    hide SwitchOf, Collect, NoSwitch;
    if items != [] {
      NoneIn(items[0]);
      NoneInItems(items[1..]);
      BothNothing<SwitchConf>(Some([]));
    }
  }

  lemma {:induction false} NoneInFields(fields: seq<Field>)
    requires NoSwitches(fields)
    ensures CollectFields(fields) == Some([])
    decreases fields, 0
  {
    hide SwitchOf, Collect, NoSwitch;
    if fields != [] {
      NoneIn(fields[0].value);
      NoneInFields(fields[1..]);
      BothNothing<SwitchConf>(Some([]));
    }
  }

  lemma SwitchRead(v: Value)
    requires GoodSwitch(v)
    ensures Collect(v) == Some([SwitchConfOf(v)])
  {
    hide FieldNamed, NoSwitches, GoodPort, PortConfOf, PortsOf, CollectFields;
    NoneInFields(v.fields);
    PortsRead(FieldNamed(v, "port_list").value.items);
    BothNothing(SwitchOf(v));
  }

  lemma {:induction false} SwitchesRead(items: seq<Value>)
    requires forall i :: 0 <= i < |items| ==> GoodSwitch(items[i])
    ensures CollectItems(items) == Some(seq(|items|, i requires 0 <= i < |items| => SwitchConfOf(items[i])))
  {
    hide Collect, SwitchConfOf, GoodSwitch;
    var all := seq(|items|, i requires 0 <= i < |items| => SwitchConfOf(items[i]));
    if items != [] {
      SwitchRead(items[0]);
      SwitchesRead(items[1..]);
      assert all[1..] == seq(|items[1..]|, i requires 0 <= i < |items[1..]| => SwitchConfOf(items[1..][i]));
      assert all == [all[0]] + all[1..];
    } else {
      assert all == [];
    }
  }

  /** A well-formed configuration is read exactly as it is written. */
  lemma ConfigRead(v: Value)
    requires GoodConfig(v)
    ensures Walk(TreeOf(v)) == Some(ConfigOf(v))
  {
    hide Walk, CollectItems, GoodSwitch, SwitchConfOf;
    DocumentOrder(v);
    SwitchesRead(v.items);
    BothNothing(CollectItems(v.items));
    assert FieldNamed(v, "switch") == None;
  }

  // ----- names that fit -----

  lemma NameFits(t: Lcrs<Info>, v: Value)
    requires Stands(t, Some(v))
    requires var name := FieldNamed(v, "switch");
      name.Some? && name.value.VString? ==> |name.value.s| < MAX_SWITCH_NAME_LENGTH
    ensures ShortName(t)
  {
    hide Stands, NodeNamed, FieldNamed;
    NameStands(t, Some(v), "switch");
    RealStands(NodeNamed(t, "switch"), FieldNamed(v, "switch"));
  }

  lemma {:induction false} NamesFit(v: Value)
    requires NoSwitch(v)
    ensures ShortNames(KidsOf(v))
    decreases v, 1
  {
    hide SwitchOf, ShortName;
    match v
    case VArray(items) => if items == [] { BlankFits(); } else { ItemNamesFit(items); }
    case VObject(fields) => if fields == [] { BlankFits(); } else { FieldNamesFit(fields); }
    case _ =>
  }

  lemma BlankFits()
    ensures ShortNames(Bin(BLANK, Nil, Nil))
  {
  }

  lemma NoStringName(v: Value)
    requires NoSwitch(v)
    ensures !(FieldNamed(v, "switch").Some? && FieldNamed(v, "switch").value.VString?)
  {
  }

  lemma {:induction false} ItemNamesFit(items: seq<Value>)
    requires forall i :: 0 <= i < |items| ==> NoSwitch(items[i])
    ensures ShortNames(ItemChain(items))
    decreases items, 0
  {
    hide NoSwitch, ShortName, FieldNamed;
    if items != [] {
      NamesFit(items[0]);
      NoStringName(items[0]);
      NameFits(ItemChain(items), items[0]);
      ItemNamesFit(items[1..]);
    }
  }

  lemma {:induction false} FieldNamesFit(fields: seq<Field>)
    requires NoSwitches(fields)
    ensures ShortNames(FieldChain(fields))
    decreases fields, 0
  {
    hide NoSwitch, ShortName, FieldNamed;
    if fields != [] {
      NamesFit(fields[0].value);
      NoStringName(fields[0].value);
      NameFits(FieldChain(fields), fields[0].value);
      FieldNamesFit(fields[1..]);
    }
  }

  lemma {:induction false} SwitchNamesFit(items: seq<Value>)
    requires forall i :: 0 <= i < |items| ==> GoodSwitch(items[i])
    ensures ShortNames(ItemChain(items))
  {
    hide ShortName;
    if items != [] {
      SwitchNameFits(items);
      SwitchNamesFit(items[1..]);
    }
  }

  lemma SwitchNameFits(items: seq<Value>)
    requires items != [] && GoodSwitch(items[0])
    ensures ShortName(ItemChain(items)) && ShortNames(KidsOf(items[0]))
  {
    hide ShortName, FieldNamed, NoSwitches, GoodPort;
    NameFits(ItemChain(items), items[0]);
    if items[0].fields == [] { BlankFits(); } else { FieldNamesFit(items[0].fields); }
  }

  lemma ConfigNamesFit(v: Value)
    requires GoodConfig(v)
    ensures ShortNames(TreeOf(v))
  {
    hide ShortName, GoodSwitch;
    assert FieldNamed(v, "switch") == None;
    NameFits(TreeOf(v), v);
    if v.items == [] { BlankFits(); } else { SwitchNamesFit(v.items); }
  }
}
