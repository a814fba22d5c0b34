/** `<rpc-error>` across two files: `nc_write_error` of `io.c` writes what the server holds,
    `parse_rpc_error` of `session_client.c` fills what the client gets (section 4.3 of RFC 6241). */
module RpcError {
  import opened CText
  import opened Numerals
  import opened Xml

  datatype ErrType = Transport | Rpc | Protocol | Application

  datatype ErrTag =
    | InUse | InvalidValue | TooBig | MissingAttr | BadAttr | UnknownAttr | MissingElem | BadElem | UnknownElem
    | UnknownNs | AccessDenied | LockDenied | ResDenied | RollbackFailed | DataExists | DataMissing
    | OpNotSupported | OpFailed | MalformedMsg

  /** `struct nc_server_error` with a valid type and tag; `sid` is -1 when it is not set. */
  datatype ServerError = ServerError(
    errType: ErrType, errTag: ErrTag,
    appTag: Option<string>, path: Option<string>, message: Option<string>, lang: Option<string>,
    sid: int, attrs: seq<string>, elems: seq<string>, nss: seq<string>, others: seq<Elem>)

  /** `struct nc_err` */
  datatype ClientError = ClientError(
    errType: Option<string>, errTag: Option<string>, severity: Option<string>,
    appTag: Option<string>, path: Option<string>, message: Option<string>, lang: Option<string>,
    sid: Option<string>, attrs: seq<string>, elems: seq<string>, nss: seq<string>, others: seq<Elem>)

  const BLANK := ClientError(None, None, None, None, None, None, None, None, [], [], [], [])

  function TypeText(t: ErrType): string {
    match t
    case Transport => "transport"
    case Rpc => "rpc"
    case Protocol => "protocol"
    case Application => "application"
  }

  function TagText(t: ErrTag): string {
    match t
    case InUse => "in-use"
    case InvalidValue => "invalid-value"
    case TooBig => "too-big"
    case MissingAttr => "missing-attribute"
    case BadAttr => "bad-attribute"
    case UnknownAttr => "unknown-attribute"
    case MissingElem => "missing-element"
    case BadElem => "bad-element"
    case UnknownElem => "unknown-element"
    case UnknownNs => "unknown-namespace"
    case AccessDenied => "access-denied"
    case LockDenied => "lock-denied"
    case ResDenied => "resource-denied"
    case RollbackFailed => "rollback-failed"
    case DataExists => "data-exists"
    case DataMissing => "data-missing"
    case OpNotSupported => "operation-not-supported"
    case OpFailed => "operation-failed"
    case MalformedMsg => "malformed-message"
  }

  // ----- the element of an error -----

  function Qualified(prefix: Option<string>, name: string): string {
    if prefix.Some? then prefix.value + (":" + name) else name
  }

  function Leaf(prefix: Option<string>, name: string, text: string): Elem {
    Elem(Qualified(prefix, name), [], text, [])
  }

  function OptLeaf(prefix: Option<string>, name: string, text: Option<string>): seq<Elem> {
    if text.Some? then [Leaf(prefix, name, text.value)] else []
  }

  function Leaves(prefix: Option<string>, name: string, texts: seq<string>): seq<Elem> {
    if texts == [] then []
    else Leaves(prefix, name, texts[..|texts| - 1]) + [Leaf(prefix, name, texts[|texts| - 1])]
  }

  const UINT32: nat := 0x1_0000_0000

  function MessageElems(e: ServerError, prefix: Option<string>): seq<Elem> {
    if e.message.None? then []
    else
      var attrs := if e.lang.Some? then [Attr("xml:lang", e.lang.value)] else [];
      [Elem(Qualified(prefix, "error-message"), attrs, e.message.value, [])]
  }

  function SidElems(e: ServerError, prefix: Option<string>): seq<Elem> {
    if e.sid > -1 then [Leaf(prefix, "session-id", Numeral(e.sid % UINT32))] else []
  }

  function InfoKids(e: ServerError, prefix: Option<string>): seq<Elem> {
    SidElems(e, prefix) + Leaves(prefix, "bad-attribute", e.attrs) + Leaves(prefix, "bad-element", e.elems)
      + Leaves(prefix, "bad-namespace", e.nss) + e.others
  }

  predicate HasInfo(e: ServerError) {
    e.sid > -1 || e.attrs != [] || e.elems != [] || e.nss != [] || e.others != []
  }

  function InfoElems(e: ServerError, prefix: Option<string>): seq<Elem> {
    if HasInfo(e) then [Elem(Qualified(prefix, "error-info"), [], "", InfoKids(e, prefix))] else []
  }

  function HeadElems(e: ServerError, prefix: Option<string>): seq<Elem> {
    [Leaf(prefix, "error-type", TypeText(e.errType)),
     Leaf(prefix, "error-tag", TagText(e.errTag)),
     Leaf(prefix, "error-severity", "error")]
  }

  function TextElems(e: ServerError, prefix: Option<string>): seq<Elem> {
    OptLeaf(prefix, "error-app-tag", e.appTag) + OptLeaf(prefix, "error-path", e.path) + MessageElems(e, prefix)
  }

  function ErrorKids(e: ServerError, prefix: Option<string>): seq<Elem> {
    HeadElems(e, prefix) + TextElems(e, prefix) + InfoElems(e, prefix)
  }

  function ErrorElem(e: ServerError, prefix: Option<string>): Elem {
    Elem(Qualified(prefix, "rpc-error"), [], "", ErrorKids(e, prefix))
  }

  // ----- parse_rpc_error -----

  function Colon(tag: string): (i: nat)
    ensures i <= |tag| && (i < |tag| ==> tag[i] == ':') && ':' !in tag[..i]
  {
    if tag == "" || tag[0] == ':' then 0
    else
      var i := Colon(tag[1..]) + 1;
      assert tag[..i] == [tag[0]] + tag[1..][..i - 1];
      i
  }

  function PrefixOf(tag: string): Option<string> {
    if Colon(tag) < |tag| then Some(tag[..Colon(tag)]) else None
  }

  function Local(tag: string): string {
    if Colon(tag) < |tag| then tag[Colon(tag) + 1..] else tag
  }

  /** The children that the client knows. */
  datatype Field = FType | FTag | FSeverity | FAppTag | FPath | FMessage | FInfo | FUnknown

  function FieldOf(name: string): Field {
    if name == "error-type" then FType
    else if name == "error-tag" then FTag
    else if name == "error-severity" then FSeverity
    else if name == "error-app-tag" then FAppTag
    else if name == "error-path" then FPath
    else if name == "error-message" then FMessage
    else if name == "error-info" then FInfo
    else FUnknown
  }

  datatype InfoField = ISid | IAttr | IElem | INs | IUnknown

  function InfoFieldOf(name: string): InfoField {
    if name == "session-id" then ISid
    else if name == "bad-attribute" then IAttr
    else if name == "bad-element" then IElem
    else if name == "bad-namespace" then INs
    else IUnknown
  }

  predicate KnownType(s: string) {
    s == "transport" || s == "rpc" || s == "protocol" || s == "application"
  }

  predicate KnownTag(s: string) {
    || s == "in-use" || s == "invalid-value" || s == "too-big" || s == "missing-attribute" || s == "bad-attribute"
    || s == "unknown-attribute" || s == "missing-element" || s == "bad-element" || s == "unknown-element"
    || s == "unknown-namespace" || s == "access-denied" || s == "lock-denied" || s == "resource-denied"
    || s == "rollback-failed" || s == "data-exists" || s == "data-missing" || s == "operation-not-supported"
    || s == "operation-failed" || s == "malformed-message"
  }

  function SetOnce(was: Option<string>, s: string): Option<string> {
    if was.Some? then was else Some(s)
  }

  /** A child of `<error-info>`; `prefix` is the one bound to the base namespace. */
  function WithInfo(c: ClientError, x: Elem, prefix: Option<string>): ClientError {
    if PrefixOf(x.tag) != prefix then c.(others := c.others + [x])
    else match InfoFieldOf(Local(x.tag))
      case ISid => c.(sid := SetOnce(c.sid, x.text))
      case IAttr => c.(attrs := c.attrs + [x.text])
      case IElem => c.(elems := c.elems + [x.text])
      case INs => c.(nss := c.nss + [x.text])
      case IUnknown => c
  }

  function WithInfos(c: ClientError, xs: seq<Elem>, prefix: Option<string>): ClientError {
    if xs == [] then c else WithInfo(WithInfos(c, xs[..|xs| - 1], prefix), xs[|xs| - 1], prefix)
  }

  function AttrValue(attrs: seq<Attr>, name: string): Option<string> {
    if attrs == [] then None
    else if attrs[0].name == name then Some(attrs[0].value)
    else AttrValue(attrs[1..], name)
  }

  /** A child of `<rpc-error>`. */
  function WithChild(c: ClientError, x: Elem, prefix: Option<string>): ClientError {
    if PrefixOf(x.tag) != prefix then c
    else match FieldOf(Local(x.tag))
      case FType => if KnownType(x.text) then c.(errType := SetOnce(c.errType, x.text)) else c
      case FTag => if KnownTag(x.text) then c.(errTag := SetOnce(c.errTag, x.text)) else c
      case FSeverity =>
        if x.text == "error" || x.text == "warning" then c.(severity := SetOnce(c.severity, x.text)) else c
      case FAppTag => c.(appTag := SetOnce(c.appTag, x.text))
      case FPath => c.(path := SetOnce(c.path, x.text))
      case FMessage =>
        if c.message.Some? then c else c.(lang := AttrValue(x.attrs, "xml:lang"), message := Some(x.text))
      case FInfo => WithInfos(c, x.kids, prefix)
      case FUnknown => c
  }

  function WithChildren(c: ClientError, xs: seq<Elem>, prefix: Option<string>): ClientError {
    if xs == [] then c else WithChild(WithChildren(c, xs[..|xs| - 1], prefix), xs[|xs| - 1], prefix)
  }

  /** `parse_rpc_error` */
  method ParseRpcError(x: Elem, prefix: Option<string>) returns (c: ClientError)
    ensures c == WithChildren(BLANK, x.kids, prefix)
  {
    hide KnownTag, KnownType, FieldOf, InfoFieldOf, PrefixOf, Local;
    c := BLANK;
    var i := 0;
    assert x.kids[..0] == [];
    while i < |x.kids|
      invariant i <= |x.kids| && c == WithChildren(BLANK, x.kids[..i], prefix)
    {
      var iter := x.kids[i];
      assert x.kids[..i + 1][..i] == x.kids[..i];
      i := i + 1;
      if PrefixOf(iter.tag) != prefix { continue; }
      match FieldOf(Local(iter.tag))
      case FType => if KnownType(iter.text) && c.errType.None? { c := c.(errType := Some(iter.text)); }
      case FTag => if KnownTag(iter.text) && c.errTag.None? { c := c.(errTag := Some(iter.text)); }
      case FSeverity =>
        if (iter.text == "error" || iter.text == "warning") && c.severity.None? { c := c.(severity := Some(iter.text)); }
      case FAppTag => if c.appTag.None? { c := c.(appTag := Some(iter.text)); }
      case FPath => if c.path.None? { c := c.(path := Some(iter.text)); }
      case FMessage =>
        if c.message.None? { c := c.(lang := AttrValue(iter.attrs, "xml:lang"), message := Some(iter.text)); }
      case FInfo => c := ParseErrorInfo(c, iter, prefix);
      case FUnknown =>
    }
    assert x.kids[..|x.kids|] == x.kids;
  }

  method ParseErrorInfo(c0: ClientError, x: Elem, prefix: Option<string>) returns (c: ClientError)
    ensures c == WithInfos(c0, x.kids, prefix)
  {
    hide InfoFieldOf, PrefixOf, Local;
    c := c0;
    var i := 0;
    assert x.kids[..0] == [];
    while i < |x.kids|
      invariant i <= |x.kids| && c == WithInfos(c0, x.kids[..i], prefix)
    {
      var info := x.kids[i];
      assert x.kids[..i + 1][..i] == x.kids[..i];
      if PrefixOf(info.tag) == prefix {
        match InfoFieldOf(Local(info.tag))
        case ISid => if c.sid.None? { c := c.(sid := Some(info.text)); }
        case IAttr => c := c.(attrs := c.attrs + [info.text]);
        case IElem => c := c.(elems := c.elems + [info.text]);
        case INs => c := c.(nss := c.nss + [info.text]);
        case IUnknown =>
      } else {
        c := c.(others := c.others + [info]);
      }
      i := i + 1;
    }
    assert x.kids[..|x.kids|] == x.kids;
  }

  // ----- reading back what was written -----

  /** A prefix that can be told apart from the name behind it. */
  predicate PrefixOk(prefix: Option<string>) {
    prefix.Some? ==> NameOk(prefix.value) && ':' !in prefix.value && |prefix.value| < 0x10000
  }

  lemma {:induction false} ColonAfter(a: string, b: string)
    requires ':' !in a
    ensures Colon(a + (":" + b)) == |a|
  {
    var s := a + (":" + b);
    if a != "" {
      assert s[1..] == a[1..] + (":" + b);
      ColonAfter(a[1..], b);
    }
  }

  lemma {:induction false} NoColon(a: string)
    requires ':' !in a
    ensures Colon(a) == |a|
  {
    if a != "" { NoColon(a[1..]); }
  }

  lemma QualifiedParts(prefix: Option<string>, name: string)
    requires PrefixOk(prefix) && ':' !in name
    ensures PrefixOf(Qualified(prefix, name)) == prefix && Local(Qualified(prefix, name)) == name
  {
    if prefix.Some? { ColonAfter(prefix.value, name); } else { NoColon(name); }
  }

  lemma FieldNames()
    ensures FieldOf("error-type") == FType && FieldOf("error-tag") == FTag && FieldOf("error-severity") == FSeverity
    ensures FieldOf("error-app-tag") == FAppTag && FieldOf("error-path") == FPath
    ensures FieldOf("error-message") == FMessage && FieldOf("error-info") == FInfo
  {
    assert "error-type"[6] == 't' && "error-path"[6] == 'p' && "error-info"[6] == 'i';
    assert "error-app-tag"[6] == 'a' && "error-message"[6] == 'm';
  }

  lemma InfoFieldNames()
    ensures InfoFieldOf("session-id") == ISid && InfoFieldOf("bad-attribute") == IAttr
    ensures InfoFieldOf("bad-element") == IElem && InfoFieldOf("bad-namespace") == INs
  {
    assert "bad-attribute"[4] == 'a' && "bad-namespace"[4] == 'n';
  }

  lemma KnownTexts(e: ServerError)
    ensures KnownType(TypeText(e.errType)) && KnownTag(TagText(e.errTag))
  {
  }

  lemma {:induction false} WithInfosAppend(c: ClientError, xs: seq<Elem>, ys: seq<Elem>, prefix: Option<string>)
    ensures WithInfos(c, xs + ys, prefix) == WithInfos(WithInfos(c, xs, prefix), ys, prefix)
    decreases |ys|
  {
    hide WithInfo;
    if ys == [] {
      assert xs + ys == xs;
    } else {
      var n := |ys| - 1;
      assert (xs + ys)[..|xs| + n] == xs + ys[..n];
      WithInfosAppend(c, xs, ys[..n], prefix);
    }
  }

  lemma {:induction false} WithChildrenAppend(c: ClientError, xs: seq<Elem>, ys: seq<Elem>, prefix: Option<string>)
    ensures WithChildren(c, xs + ys, prefix) == WithChildren(WithChildren(c, xs, prefix), ys, prefix)
    decreases |ys|
  {
    hide WithChild;
    if ys == [] {
      assert xs + ys == xs;
    } else {
      var n := |ys| - 1;
      assert (xs + ys)[..|xs| + n] == xs + ys[..n];
      WithChildrenAppend(c, xs, ys[..n], prefix);
    }
  }

  lemma OneInfo(c: ClientError, x: Elem, prefix: Option<string>)
    ensures WithInfos(c, [x], prefix) == WithInfo(c, x, prefix)
  {
    hide WithInfo;
    assert [x][..0] == [];
  }

  lemma OneChild(c: ClientError, x: Elem, prefix: Option<string>)
    ensures WithChildren(c, [x], prefix) == WithChild(c, x, prefix)
  {
    hide WithChild;
    assert [x][..0] == [];
  }

  lemma {:induction false} LeavesCollected(c: ClientError, name: string, texts: seq<string>, prefix: Option<string>)
    requires PrefixOk(prefix) && ':' !in name
    ensures var r := WithInfos(c, Leaves(prefix, name, texts), prefix);
      match InfoFieldOf(name)
      case IAttr => r == c.(attrs := c.attrs + texts)
      case IElem => r == c.(elems := c.elems + texts)
      case INs => r == c.(nss := c.nss + texts)
      case _ => true
    decreases |texts|
  {
    hide PrefixOf, Local, Qualified, InfoFieldOf, PrefixOk;
    if texts != [] {
      var n := |texts| - 1;
      LeavesCollected(c, name, texts[..n], prefix);
      QualifiedParts(prefix, name);
      var ls := Leaves(prefix, name, texts);
      assert ls[..|ls| - 1] == Leaves(prefix, name, texts[..n]) && ls[|ls| - 1] == Leaf(prefix, name, texts[n]);
      assert texts == texts[..n] + [texts[n]];
      assert c.attrs + texts == (c.attrs + texts[..n]) + [texts[n]];
      assert c.elems + texts == (c.elems + texts[..n]) + [texts[n]];
      assert c.nss + texts == (c.nss + texts[..n]) + [texts[n]];
    }
  }

  predicate Foreign(xs: seq<Elem>, prefix: Option<string>) {
    forall i :: 0 <= i < |xs| ==> PrefixOf(xs[i].tag) != prefix
  }

  lemma {:induction false} OthersCollected(c: ClientError, xs: seq<Elem>, prefix: Option<string>)
    requires Foreign(xs, prefix)
    ensures WithInfos(c, xs, prefix) == c.(others := c.others + xs)
    decreases |xs|
  {
    hide PrefixOf;
    if xs != [] {
      var n := |xs| - 1;
      OthersCollected(c, xs[..n], prefix);
      assert c.others + xs == (c.others + xs[..n]) + [xs[n]];
    }
  }

  function SidText(e: ServerError): Option<string> {
    if e.sid > -1 then Some(Numeral(e.sid % UINT32)) else None
  }

  lemma InfoCollected(c: ClientError, e: ServerError, prefix: Option<string>)
    requires PrefixOk(prefix) && Foreign(e.others, prefix)
    requires c.sid.None? && c.attrs == [] && c.elems == [] && c.nss == [] && c.others == []
    ensures WithInfos(c, InfoKids(e, prefix), prefix)
         == c.(sid := SidText(e), attrs := e.attrs, elems := e.elems, nss := e.nss, others := e.others)
  {
    hide WithInfos, Leaves, Foreign, PrefixOk, Numeral, InfoFieldOf, PrefixOf, Local, Qualified;
    var s, a, b, n := SidElems(e, prefix), Leaves(prefix, "bad-attribute", e.attrs),
      Leaves(prefix, "bad-element", e.elems), Leaves(prefix, "bad-namespace", e.nss);
    InfoFieldNames();
    var c1 := c.(sid := SidText(e));
    SidCollected(c, e, prefix);
    WithInfosAppend(c, s, a, prefix);
    LeavesCollected(c1, "bad-attribute", e.attrs, prefix);
    var c2 := c1.(attrs := e.attrs);
    WithInfosAppend(c, s + a, b, prefix);
    LeavesCollected(c2, "bad-element", e.elems, prefix);
    var c3 := c2.(elems := e.elems);
    WithInfosAppend(c, s + a + b, n, prefix);
    LeavesCollected(c3, "bad-namespace", e.nss, prefix);
    var c4 := c3.(nss := e.nss);
    WithInfosAppend(c, s + a + b + n, e.others, prefix);
    OthersCollected(c4, e.others, prefix);
    assert [] + e.attrs == e.attrs && [] + e.elems == e.elems && [] + e.nss == e.nss && [] + e.others == e.others;
  }

  lemma SidCollected(c: ClientError, e: ServerError, prefix: Option<string>)
    requires PrefixOk(prefix) && c.sid.None?
    ensures WithInfos(c, SidElems(e, prefix), prefix) == c.(sid := SidText(e))
  {
    hide Numeral, InfoFieldOf, PrefixOf, Local, Qualified, PrefixOk;
    if e.sid > -1 {
      InfoFieldNames();
      QualifiedParts(prefix, "session-id");
      OneInfo(c, SidElems(e, prefix)[0], prefix);
    }
  }

  /** The head, the texts and the info of an error, each read by the client. */
  lemma HeadCollected(e: ServerError, prefix: Option<string>)
    requires PrefixOk(prefix)
    ensures WithChildren(BLANK, HeadElems(e, prefix), prefix)
         == BLANK.(errType := Some(TypeText(e.errType)), errTag := Some(TagText(e.errTag)), severity := Some("error"))
  {
    hide PrefixOf, Local, Qualified, PrefixOk, FieldOf, KnownType, KnownTag, TypeText, TagText;
    FieldNames();
    KnownTexts(e);
    QualifiedParts(prefix, "error-type");
    QualifiedParts(prefix, "error-tag");
    QualifiedParts(prefix, "error-severity");
    var h := HeadElems(e, prefix);
    OneChild(BLANK, h[0], prefix);
    var c1 := BLANK.(errType := Some(TypeText(e.errType)));
    WithChildrenAppend(BLANK, [h[0]], [h[1]], prefix);
    OneChild(c1, h[1], prefix);
    var c2 := c1.(errTag := Some(TagText(e.errTag)));
    WithChildrenAppend(BLANK, [h[0]] + [h[1]], [h[2]], prefix);
    OneChild(c2, h[2], prefix);
    assert h == [h[0]] + [h[1]] + [h[2]];
  }

  lemma OptLeafCollected(c: ClientError, name: string, text: Option<string>, prefix: Option<string>)
    requires PrefixOk(prefix) && ':' !in name
    ensures var r := WithChildren(c, OptLeaf(prefix, name, text), prefix);
      && (FieldOf(name) == FAppTag && c.appTag.None? ==> r == c.(appTag := text))
      && (FieldOf(name) == FPath && c.path.None? ==> r == c.(path := text))
  {
    hide PrefixOf, Local, Qualified, PrefixOk, FieldOf;
    if text.Some? {
      QualifiedParts(prefix, name);
      OneChild(c, Leaf(prefix, name, text.value), prefix);
    }
  }

  lemma MessageCollected(c: ClientError, e: ServerError, prefix: Option<string>)
    requires PrefixOk(prefix) && c.message.None? && c.lang.None?
    ensures WithChildren(c, MessageElems(e, prefix), prefix)
         == c.(message := e.message, lang := if e.message.Some? then e.lang else None)
  {
    hide PrefixOf, Local, Qualified, PrefixOk, FieldOf;
    if e.message.Some? {
      FieldNames();
      QualifiedParts(prefix, "error-message");
      OneChild(c, MessageElems(e, prefix)[0], prefix);
    }
  }

  lemma InfoElemsCollected(c: ClientError, e: ServerError, prefix: Option<string>)
    requires PrefixOk(prefix) && Foreign(e.others, prefix)
    requires c.sid.None? && c.attrs == [] && c.elems == [] && c.nss == [] && c.others == []
    ensures WithChildren(c, InfoElems(e, prefix), prefix)
         == c.(sid := SidText(e), attrs := e.attrs, elems := e.elems, nss := e.nss, others := e.others)
  {
    hide PrefixOf, Local, Qualified, PrefixOk, FieldOf, Foreign, InfoKids, WithInfos, Numeral;
    if HasInfo(e) {
      FieldNames();
      QualifiedParts(prefix, "error-info");
      OneChild(c, InfoElems(e, prefix)[0], prefix);
      InfoCollected(c, e, prefix);
    }
  }

  /** What the client is to know of a server's error. */
  function Received(e: ServerError): ClientError {
    ClientError(Some(TypeText(e.errType)), Some(TagText(e.errTag)), Some("error"),
                e.appTag, e.path, e.message, if e.message.Some? then e.lang else None,
                SidText(e), e.attrs, e.elems, e.nss, e.others)
  }

  /** Round trip: the client's parser, on the element of a server's error, gets every field back, lists in
      order. The session id comes back modulo 2^32, and the language only together with a message. */
  lemma ErrorRoundTrip(e: ServerError, prefix: Option<string>)
    requires PrefixOk(prefix) && Foreign(e.others, prefix)
    ensures WithChildren(BLANK, ErrorElem(e, prefix).kids, prefix) == Received(e)
  {
    hide WithChildren, PrefixOk, Foreign, HeadElems, OptLeaf, MessageElems, InfoElems, TypeText, TagText, SidText, FieldOf;
    var h, a, p, m, i := HeadElems(e, prefix), OptLeaf(prefix, "error-app-tag", e.appTag),
      OptLeaf(prefix, "error-path", e.path), MessageElems(e, prefix), InfoElems(e, prefix);
    assert ErrorKids(e, prefix) == h + a + p + m + i;
    FieldNames();
    HeadCollected(e, prefix);
    var c1 := BLANK.(errType := Some(TypeText(e.errType)), errTag := Some(TagText(e.errTag)), severity := Some("error"));
    WithChildrenAppend(BLANK, h, a, prefix);
    OptLeafCollected(c1, "error-app-tag", e.appTag, prefix);
    var c2 := c1.(appTag := e.appTag);
    WithChildrenAppend(BLANK, h + a, p, prefix);
    OptLeafCollected(c2, "error-path", e.path, prefix);
    var c3 := c2.(path := e.path);
    WithChildrenAppend(BLANK, h + a + p, m, prefix);
    MessageCollected(c3, e, prefix);
    var c4 := c3.(message := e.message, lang := if e.message.Some? then e.lang else None);
    WithChildrenAppend(BLANK, h + a + p + m, i, prefix);
    InfoElemsCollected(c4, e, prefix);
  }

  /** A session id is recovered exactly when it fits 32 bits. */
  lemma SidRecoveredIff(e: ServerError)
    requires e.sid > -1
    ensures SidText(e) == Some(Numeral(e.sid)) <==> e.sid < UINT32
  {
    hide Numeral;
    if SidText(e) == Some(Numeral(e.sid)) { NumeralInjective(e.sid % UINT32, e.sid); }
  }

  // ----- reading an error's names -----

  /** The values of error-type in section 4.3 of RFC 6241. */
  function TypeOf(name: string): Option<ErrType> {
    match name
    case "transport" => Some(Transport)
    case "rpc" => Some(Rpc)
    case "protocol" => Some(Protocol)
    case "application" => Some(Application)
    case _ => None
  }

  /** The values of error-tag in appendix A of RFC 6241. */
  function TagOf(name: string): Option<ErrTag> {
    match name
    case "in-use" => Some(InUse)
    case "invalid-value" => Some(InvalidValue)
    case "too-big" => Some(TooBig)
    case "missing-attribute" => Some(MissingAttr)
    case "bad-attribute" => Some(BadAttr)
    case "unknown-attribute" => Some(UnknownAttr)
    case "missing-element" => Some(MissingElem)
    case "bad-element" => Some(BadElem)
    case "unknown-element" => Some(UnknownElem)
    case "unknown-namespace" => Some(UnknownNs)
    case "access-denied" => Some(AccessDenied)
    case "lock-denied" => Some(LockDenied)
    case "resource-denied" => Some(ResDenied)
    case "rollback-failed" => Some(RollbackFailed)
    case "data-exists" => Some(DataExists)
    case "data-missing" => Some(DataMissing)
    case "operation-not-supported" => Some(OpNotSupported)
    case "operation-failed" => Some(OpFailed)
    case "malformed-message" => Some(MalformedMsg)
    case _ => None
  }

  lemma TypeIsRead(t: ErrType)
    ensures TypeOf(TypeText(t)) == Some(t)
  {
  }

  lemma TagIsRead(t: ErrTag)
    ensures TagOf(TagText(t)) == Some(t)
  {
  }

  /** The server's error as the client's record tells it, with the names of the RFC. */
  function ToldBy(c: ClientError): Option<ServerError> {
    if c.errType.None? || c.errTag.None? || TypeOf(c.errType.value).None? || TagOf(c.errTag.value).None? then None
    else Some(ServerError(TypeOf(c.errType.value).value, TagOf(c.errTag.value).value,
                          c.appTag, c.path, c.message, c.lang,
                          if c.sid.Some? then Strtoul(c.sid.value) else -1, c.attrs, c.elems, c.nss, c.others))
  }

  /** The client's record tells the server's error in full if and only if the session id is unset or fits 32 bits and a
      language comes with a message. Type, tag, texts and lists are told in any case. */
  lemma ToldIff(e: ServerError, prefix: Option<string>)
    requires PrefixOk(prefix) && Foreign(e.others, prefix)
    ensures var told := ToldBy(WithChildren(BLANK, ErrorElem(e, prefix).kids, prefix));
      && told.Some? && told.value.(lang := e.lang, sid := e.sid) == e
      && (told == Some(e) <==> -1 <= e.sid < UINT32 && (e.lang.Some? ==> e.message.Some?))
  {
    hide WithChildren, PrefixOk, Foreign, ErrorElem, TypeText, TagText, TypeOf, TagOf, Strtoul, Numeral;
    ErrorRoundTrip(e, prefix);
    TypeIsRead(e.errType);
    TagIsRead(e.errTag);
    if e.sid > -1 {
      var n := e.sid % UINT32;
      StrtoulOfNumeral(n, "");
      assert Numeral(n) + "" == Numeral(n);
    }
  }
}
