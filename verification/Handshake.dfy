/** The handshake of `session.c` over the bytes: both ends send their `<hello>` with version 1.0 framing and
    read the other's, and then both use the framing of the version they settled on (section 4.1 of RFC 6242). */
module Handshake {
  import opened CText
  import opened Numerals
  import opened MessageEnd
  import opened Framing
  import opened Chunked
  import opened Xml
  import opened RpcError
  import opened RpcErrorWriter
  import opened Hello
  import opened CapabilityList

  // ----- printed XML never looks like an end of message -----

  /** No '>' follows a bracket, nor stands at the start. */
  predicate Quiet(s: string) {
    && (s != "" ==> s[0] != '>')
    && forall i :: 0 <= i < |s| - 1 ==> !(s[i] == ']' && s[i + 1] == '>')
  }

  lemma QuietAppend(a: string, b: string)
    requires Quiet(a) && Quiet(b)
    ensures Quiet(a + b)
  {
    var s := a + b;
    forall i | 0 <= i < |s| - 1 ensures !(s[i] == ']' && s[i + 1] == '>') {
      if i + 1 < |a| { assert s[i] == a[i] && s[i + 1] == a[i + 1]; }
      else if i + 1 == |a| { assert s[i + 1] == b[0]; }
      else { assert s[i] == b[i - |a|] && s[i + 1] == b[i + 1 - |a|]; }
    }
  }

  lemma QuietClose(a: string)
    requires Quiet(a) && a != "" && a[|a| - 1] != ']'
    ensures Quiet(a + ">")
  {
    var s := a + ">";
    forall i | 0 <= i < |s| - 1 ensures !(s[i] == ']' && s[i + 1] == '>') {
      if i + 1 < |a| { assert s[i] == a[i] && s[i + 1] == a[i + 1]; } else { assert s[i] == a[|a| - 1]; }
    }
  }

  lemma {:induction false} EscapedIsQuiet(s: string)
    ensures Quiet(EscapeAll(s)) && '>' !in EscapeAll(s)
  {
    hide Quiet;
    if s == "" {
      EscapeEmpty();
      EmptyIsQuiet();
    } else {
      var n := |s| - 1;
      EscapedIsQuiet(s[..n]);
      OneIsQuiet(s[n]);
      QuietAppend(EscapeAll(s[..n]), EscapeXml(s[n]));
    }
  }

  lemma EmptyIsQuiet()
    ensures Quiet("")
  {
  }

  lemma OneIsQuiet(c: char)
    ensures Quiet(EscapeXml(c)) && '>' !in EscapeXml(c)
  {
  }

  lemma NameIsQuiet(s: string)
    requires NameOk(s)
    ensures Quiet(s) && s[|s| - 1] != ']'
  {
    assert forall i :: 0 <= i < |s| ==> NameChar(s[i]);
  }

  lemma AttrIsQuiet(a: Attr)
    requires AttrOk(a)
    ensures Quiet(ShowAttr(a)) && ShowAttr(a) != "" && ShowAttr(a)[|ShowAttr(a)| - 1] == '"'
  {
    hide Quiet, EscapeAll, NameOk;
    var v := EscapeAll(a.value);
    Literals();
    NameIsQuiet(a.name);
    EscapedIsQuiet(a.value);
    QuietAppend(v, "\"");
    QuietAppend("=\"", v + "\"");
    QuietAppend(a.name, "=\"" + (v + "\""));
    QuietAppend(" ", a.name + ("=\"" + (v + "\"")));
  }

  lemma Literals()
    ensures Quiet("\"") && Quiet("=\"") && Quiet(" ") && Quiet("<") && Quiet("</")
  {
  }

  lemma {:induction false} AttrsAreQuiet(attrs: seq<Attr>)
    requires forall i :: 0 <= i < |attrs| ==> AttrOk(attrs[i])
    ensures Quiet(ShowAttrs(attrs)) && (attrs != [] ==> ShowAttrs(attrs) != "" && ShowAttrs(attrs)[|ShowAttrs(attrs)| - 1] == '"')
    ensures attrs == [] ==> ShowAttrs(attrs) == ""
  {
    hide Quiet, AttrOk, ShowAttr;
    if attrs == [] {
      EmptyIsQuiet();
    } else {
      AttrIsQuiet(attrs[0]);
      AttrsAreQuiet(attrs[1..]);
      QuietAppend(ShowAttr(attrs[0]), ShowAttrs(attrs[1..]));
    }
  }

  lemma OpeningIsQuiet(tag: string, attrs: seq<Attr>)
    requires NameOk(tag) && forall i :: 0 <= i < |attrs| ==> AttrOk(attrs[i])
    ensures Quiet("<" + (tag + ShowAttrs(attrs)) + ">")
  {
    hide Quiet, AttrOk, ShowAttrs, NameOk;
    Literals();
    NameIsQuiet(tag);
    AttrsAreQuiet(attrs);
    NameNotEmpty(tag);
    QuietAppend(tag, ShowAttrs(attrs));
    var t := tag + ShowAttrs(attrs);
    QuietAppend("<", t);
    QuietClose("<" + t);
  }

  lemma NameNotEmpty(tag: string)
    requires NameOk(tag)
    ensures tag != ""
  {
  }

  lemma ClosingIsQuiet(tag: string)
    requires NameOk(tag)
    ensures Quiet("</" + tag + ">")
  {
    hide Quiet, NameOk;
    Literals();
    NameIsQuiet(tag);
    NameNotEmpty(tag);
    QuietAppend("</", tag);
    QuietClose("</" + tag);
  }

  lemma {:induction false} PrintIsQuiet(e: Elem)
    requires ElemOk(e)
    ensures Quiet(Print(e)) && Print(e) != "" && Print(e)[|Print(e)| - 1] == '>'
    decreases e, 1
  {
    hide Quiet, AttrOk, ShowAttrs, NameOk, EscapeAll, PrintAll;
    OpeningIsQuiet(e.tag, e.attrs);
    ClosingIsQuiet(e.tag);
    if e.kids == [] { EscapedIsQuiet(e.text); } else { AllQuiet(e.kids); }
    var open, inner, close := "<" + (e.tag + ShowAttrs(e.attrs)) + ">", Inner(e), "</" + e.tag + ">";
    QuietAppend(open, inner);
    QuietAppend(open + inner, close);
    assert Print(e) == open + inner + close;
  }

  lemma {:induction false} AllQuiet(es: seq<Elem>)
    requires forall i :: 0 <= i < |es| ==> ElemOk(es[i])
    ensures Quiet(PrintAll(es))
    decreases es, 0
  {
    hide Quiet, ElemOk, Print;
    if es == [] {
      EmptyIsQuiet();
    } else {
      PrintIsQuiet(es[0]);
      AllQuiet(es[1..]);
      QuietAppend(Print(es[0]), PrintAll(es[1..]));
    }
  }

  /** So every printed element, sent with version 1.0 framing, is read back whole and exactly. */
  lemma PrintedIsSeparable(e: Elem)
    requires ElemOk(e)
    ensures Clean(Print(e), |Print(e)|) && Separable(Print(e), |Print(e)|)
  {
    hide ElemOk, Print, Lucky;
    PrintIsQuiet(e);
  }

  // ----- reading a <hello> -----

  /** What an end knows of the other one: nothing when its `<hello>` was refused. */
  datatype Peer = Refused | Agreed(version: int, id: nat, caps: seq<string>)

  /** The text of `<session-id>`: decimal digits up to its end, from 1 to the largest 32-bit number. */
  function SessionId(text: string): Option<nat> {
    var i := FirstInk(text, 0, |text|);
    var j := if At(text, i) == '+' then i + 1 else i;
    var e := DigitsEnd(text, j);
    if j == e || e != |text| then None
    else
      var v := DigitsValue(text[j..e]);
      if 1 <= v < UINT32 then Some(v) else None
  }

  function ClientFrom(kids: seq<Elem>, bound: Bound, flag: bool, id: nat, ver: int, caps: seq<string>): Peer
    decreases |kids|
  {
    if kids == [] then if id == 0 then Refused else Agreed(ver, id, caps)
    else
      var x, rest := kids[0], kids[1..];
      if PrefixOf(x.tag) !in bound then ClientFrom(rest, bound, flag, id, ver, caps)
      else if Local(x.tag) == "session-id" then
        match SessionId(x.text)
        case None => Refused
        case Some(n) => ClientFrom(rest, bound, flag, n, ver, caps)
      else if Local(x.tag) != "capabilities" || flag then Refused
      else match Texts(x.kids, bound)
        case None => Refused
        case Some(texts) =>
          if VersionOf(texts) < 0 then Refused else ClientFrom(rest, bound, true, id, VersionOf(texts), texts)
  }

  function ServerFrom(kids: seq<Elem>, bound: Bound, flag: bool, ver: int): Peer
    decreases |kids|
  {
    if kids == [] then Agreed(ver, 0, [])
    else
      var x, rest := kids[0], kids[1..];
      if PrefixOf(x.tag) !in bound then ServerFrom(rest, bound, flag, ver)
      else if Local(x.tag) != "capabilities" || flag then Refused
      else match Texts(x.kids, bound)
        case None => Refused
        case Some(texts) => if VersionOf(texts) < 0 then Refused else ServerFrom(rest, bound, true, VersionOf(texts))
  }

  /** `nc_recv_client_hello_io`, on the element received by a client. */
  method ReceiveAsClient(x: Elem, bound: Bound) returns (r: Peer)
    ensures r == ClientFrom(x.kids, bound, false, 0, 0, [])
  {
    hide PrefixOf, Local, SessionId, Texts, VersionOf;
    var flag, id: nat, ver, caps: seq<string>, i := false, 0, 0, [], 0;
    assert x.kids[0..] == x.kids;
    while i < |x.kids|
      invariant i <= |x.kids| && ClientFrom(x.kids, bound, false, 0, 0, []) == ClientFrom(x.kids[i..], bound, flag, id, ver, caps)
    {
      var node := x.kids[i];
      assert x.kids[i..][0] == node && x.kids[i..][1..] == x.kids[i + 1..];
      i := i + 1;
      if PrefixOf(node.tag) !in bound { continue; }
      if Local(node.tag) == "session-id" {
        var n := SessionId(node.text);
        if n == None { return Refused; }
        id := n.value;
        continue;
      }
      if Local(node.tag) != "capabilities" || flag { return Refused; }
      flag := true;
      var list := ParseCapabilities(node, bound);
      if list.BadList? || list.version < 0 { return Refused; }
      ver, caps := list.version, list.caps;
    }
    r := if id == 0 then Refused else Agreed(ver, id, caps);
  }

  /** `nc_recv_server_hello_io`, on the element received by a server. */
  method ReceiveAsServer(x: Elem, bound: Bound) returns (r: Peer)
    ensures r == ServerFrom(x.kids, bound, false, 0)
  {
    hide PrefixOf, Local, Texts, VersionOf;
    var flag, ver, i := false, 0, 0;
    assert x.kids[0..] == x.kids;
    while i < |x.kids|
      invariant i <= |x.kids| && ServerFrom(x.kids, bound, false, 0) == ServerFrom(x.kids[i..], bound, flag, ver)
    {
      var node := x.kids[i];
      assert x.kids[i..][0] == node && x.kids[i..][1..] == x.kids[i + 1..];
      i := i + 1;
      if PrefixOf(node.tag) !in bound { continue; }
      if Local(node.tag) != "capabilities" || flag { return Refused; }
      flag := true;
      var list := ParseCapabilities(node, bound);
      if list.BadList? || list.version < 0 { return Refused; }
      ver := list.version;
    }
    r := Agreed(ver, 0, []);
  }

  // ----- both ends -----

  lemma SessionIdOfNumeral(n: nat)
    requires 1 <= n < UINT32
    ensures SessionId(Numeral(n)) == Some(n)
  {
    var s := Numeral(n);
    assert IsDigit(s[0]);
    assert FirstInk(s, 0, |s|) == 0;
    assert DigitsEnd(s, 0) == |s|;
    assert s[0..|s|] == s;
    ValueOfNumeral(n);
  }

  lemma TagNames()
    ensures PrefixOf("capabilities") == None && PrefixOf("session-id") == None && "session-id" != "capabilities"
    ensures Local("capabilities") == "capabilities" && Local("session-id") == "session-id"
  {
    hide PrefixOf, Local;
    QualifiedParts(None, "capabilities");
    QualifiedParts(None, "session-id");
    assert |"session-id"| == 10 && |"capabilities"| == 12;
  }

  predicate AllProper(caps: seq<string>) {
    forall i :: 0 <= i < |caps| ==> Proper(caps[i])
  }

  /** What an end makes of a list of capabilities. */
  function PeerOf(caps: seq<string>, id: nat, list: seq<string>): Peer {
    if SomeBlank(caps) || VersionOf(TrimmedList(caps)) < 0 then Refused
    else Agreed(VersionOf(TrimmedList(caps)), id, list)
  }

  /** The client recovers the server's id and its list, white space around the entries gone, with the list's version;
      it refuses exactly the lists with a blank entry and those that lead to no version. */
  lemma ClientReadsHello(caps: seq<string>, sid: nat, bound: Bound)
    requires 1 <= sid < UINT32 && None in bound
    ensures ClientFrom(HelloElem(caps, Some(sid)).kids, bound, false, 0, 0, []) == PeerOf(caps, sid, TrimmedList(caps))
  {
    hide PrefixOf, Local, SessionId, Texts, VersionOf, Numeral, Leaves, SomeBlank, TrimmedList;
    TagNames();
    TextsOfLeaves(caps, bound, None);
    SessionIdOfNumeral(sid);
    var kids := HelloElem(caps, Some(sid)).kids;
    var list := TrimmedList(caps);
    assert kids[0] == Capabilities(caps) && kids[1..] == IdElems(Some(sid)) && kids[1..][1..] == [];
    assert ClientFrom(kids[1..], bound, true, 0, VersionOf(list), list) == Agreed(VersionOf(list), sid, list);
  }

  /** The server learns the version of the client's list. */
  lemma ServerReadsHello(caps: seq<string>, bound: Bound)
    requires None in bound
    ensures ServerFrom(HelloElem(caps, None).kids, bound, false, 0) == PeerOf(caps, 0, [])
  {
    hide PrefixOf, Local, Texts, VersionOf, Leaves, SomeBlank, TrimmedList;
    TagNames();
    TextsOfLeaves(caps, bound, None);
    var kids := HelloElem(caps, None).kids;
    assert kids[0] == Capabilities(caps) && kids[1..] == [];
  }

  lemma NamesOk()
    ensures NameOk("hello") && NameOk("capabilities") && NameOk("capability") && NameOk("session-id") && NameOk("xmlns")
  {
  }

  lemma NsOk()
    ensures '"' !in NS_BASE
  {
  }

  lemma HelloElemOk(caps: seq<string>, sid: Option<nat>)
    requires NulFree(caps)
    ensures ElemOk(HelloElem(caps, sid))
  {
    hide NulFree, Numeral, Leaves, Leaf, NameOk, NS_BASE;
    NamesOk();
    NsOk();
    LeavesOk(None, "capability", caps);
    assert ElemOk(Capabilities(caps));
    if sid.Some? { LeafOk(None, "session-id", Numeral(sid.value)); }
    assert AttrOk(Attr("xmlns", NS_BASE));
  }

  /** A `<hello>` sent by any sequence of writes with its text is read whole, whatever follows it, and nothing
      of what follows is taken. */
  lemma HelloIsRead(caps: seq<string>, sid: Option<nat>, calls: seq<Call>, more: string)
    requires NulFree(caps) && Payloads(calls) == Print(HelloElem(caps, sid))
    ensures var t := Print(HelloElem(caps, sid));
      ReadMessage10(Transmitted(V10, calls) + more) == Message(t, more) && ReadDocument(t) == Some(HelloElem(caps, sid))
  {
    hide NulFree, Print, HelloElem, ReadMessage10, ReadDocument, Transmitted, ElemOk, Clean, Separable, Payloads;
    HelloElemOk(caps, sid);
    PrintedIsSeparable(HelloElem(caps, sid));
    RoundTrip10Iff(calls, more);
    ReadPrinted(HelloElem(caps, sid));
  }

  const CLIENT_CAPS := [BASE10, BASE11]

  lemma ClientCaps()
    ensures AllProper(CLIENT_CAPS) && NulFree(CLIENT_CAPS) && VersionOf(CLIENT_CAPS) == 1
  {
    assert forall i :: 0 <= i < 2 ==> CLIENT_CAPS[i] == BASE10 || CLIENT_CAPS[i] == BASE11;
    assert CLIENT_CAPS[1] == BASE11;
    VersionCases(CLIENT_CAPS);
  }

  lemma ClientIsAccepted()
    ensures NulFree(CLIENT_CAPS) && PeerOf(CLIENT_CAPS, 0, []) == Agreed(1, 0, [])
  {
    hide CLIENT_CAPS, VersionOf, SomeBlank, TrimmedList, Proper, NulFree;
    ClientCaps();
    ProperUnchanged(CLIENT_CAPS);
  }

  /** What the client makes of the server's bytes, and the server of the client's; `bound` are the prefixes that
      stand for the base namespace. */
  function AtClient(bytes: string, bound: Bound): Option<(Peer, string)> {
    match ReadMessage10(bytes)
    case Message(text, rest) =>
      (match ReadDocument(text)
       case None => None
       case Some(x) => Some((ClientFrom(x.kids, bound, false, 0, 0, []), rest)))
    case _ => None
  }

  function AtServer(bytes: string, bound: Bound): Option<(Peer, string)> {
    match ReadMessage10(bytes)
    case Message(text, rest) =>
      (match ReadDocument(text)
       case None => None
       case Some(x) => Some((ServerFrom(x.kids, bound, false, 0), rest)))
    case _ => None
  }

  /** Handshake, for every list of capabilities: whatever both ends send afterwards, each recovers what the other said
      about itself and has taken exactly the other's `<hello>` from the stream, so that both change the framing at the
      same place. Both settle on the same version if and only if no entry of the server's list is blank and the list
      leads to 1.1. */
  lemma BothAgree(serverCaps: seq<string>, sid: nat, clientCalls: seq<Call>, serverCalls: seq<Call>,
                  clientMore: string, serverMore: string, bound: Bound)
    requires NulFree(serverCaps) && 1 <= sid < UINT32 && None in bound
    requires Payloads(clientCalls) == Print(HelloElem(CLIENT_CAPS, None))
    requires Payloads(serverCalls) == Print(HelloElem(serverCaps, Some(sid)))
    ensures var (c, s) := (AtClient(Transmitted(V10, serverCalls) + serverMore, bound),
                           AtServer(Transmitted(V10, clientCalls) + clientMore, bound));
      && c == Some((PeerOf(serverCaps, sid, TrimmedList(serverCaps)), serverMore))
      && s == Some((Agreed(1, 0, []), clientMore))
      && (c.value.0.Agreed? && c.value.0.version == s.value.0.version
          <==> !SomeBlank(serverCaps) && VersionOf(TrimmedList(serverCaps)) == 1)
  {
    hide NulFree, Print, HelloElem, ReadMessage10, ReadDocument, Transmitted, Payloads, ClientFrom, ServerFrom, VersionOf,
      CLIENT_CAPS, SomeBlank, TrimmedList;
    ClientIsAccepted();
    HelloIsRead(serverCaps, Some(sid), serverCalls, serverMore);
    ClientReadsHello(serverCaps, sid, bound);
    HelloIsRead(CLIENT_CAPS, None, clientCalls, clientMore);
    ServerReadsHello(CLIENT_CAPS, bound);
  }

  /** In particular for every list with the URI of version 1.1, as every server of this library announces it. */
  lemma Version11Agreed(caps: seq<string>)
    requires AllProper(caps) && BASE11 in caps
    ensures !SomeBlank(caps) && TrimmedList(caps) == caps && VersionOf(caps) == 1
  {
    hide VersionOf, BASE11, SomeBlank, TrimmedList;
    ProperUnchanged(caps);
    VersionCases(caps);
  }
}
