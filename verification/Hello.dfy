/** The `<hello>` message that both ends send first (section 8.1 of RFC 6241), as `io.c` writes it. */
module Hello {
  import opened CText
  import opened Numerals
  import opened Framing
  import opened Xml
  import opened RpcError
  import opened RpcErrorWriter

  const BASE10 := "urn:ietf:params:netconf:base:1.0"
  const BASE11 := "urn:ietf:params:netconf:base:1.1"
  const NS_BASE := "urn:ietf:params:xml:ns:netconf:base:1.0"

  // ----- writing -----

  function Capabilities(caps: seq<string>): Elem {
    Elem("capabilities", [], "", Leaves(None, "capability", caps))
  }

  function IdElems(sid: Option<nat>): seq<Elem> {
    if sid.Some? then [Leaf(None, "session-id", Numeral(sid.value))] else []
  }

  function HelloElem(caps: seq<string>, sid: Option<nat>): Elem {
    Elem("hello", [Attr("xmlns", NS_BASE)], "", [Capabilities(caps)] + IdElems(sid))
  }

  /** The `<hello>` case of `nc_write_msg_io`. */
  method WriteHello(caps: seq<string>, sid: Option<nat>) returns (calls: seq<Call>)
    ensures Payloads(calls) == Print(HelloElem(caps, sid))
  {
    hide Payloads, EscapeAll, PrintAll, Leaf, Print, Numeral;
    var start := "<hello xmlns=\"" + NS_BASE + "\"><capabilities>";
    calls := [Raw(start)];
    PayloadsOne(Raw(start));
    NothingPrinted();
    var i := 0;
    assert caps[..0] == [];
    while i < |caps|
      invariant i <= |caps| && Payloads(calls) == start + PrintAll(Leaves(None, "capability", caps[..i]))
    {
      ghost var done, leaf := PrintAll(Leaves(None, "capability", caps[..i])), Leaf(None, "capability", caps[i]);
      CapabilityCalls(caps[i]);
      PayloadsAppend(calls, [Raw("<capability>"), Xml(caps[i]), Raw("</capability>")]);
      calls := calls + [Raw("<capability>"), Xml(caps[i]), Raw("</capability>")];
      assert caps[..i + 1][..i] == caps[..i];
      PrintAllAppend(Leaves(None, "capability", caps[..i]), [leaf]);
      PrintAllOne(leaf);
      Assoc(start, done, Print(leaf));
      i := i + 1;
    }
    assert caps[..|caps|] == caps;
    var end := if sid.Some? then "</capabilities><session-id>" + Numeral(sid.value) + "</session-id></hello>"
               else "</capabilities></hello>";
    PayloadsOne(Raw(end));
    PayloadsAppend(calls, [Raw(end)]);
    calls := calls + [Raw(end)];
    HelloText(caps, sid, end);
  }

  lemma CapabilityCalls(cap: string)
    ensures Payloads([Raw("<capability>"), Xml(cap), Raw("</capability>")]) == Print(Leaf(None, "capability", cap))
  {
    hide Payloads, EscapeAll, Print;
    PayloadsThree(Raw("<capability>"), Xml(cap), Raw("</capability>"));
    PrintLeaf("capability", cap);
    assert OpenText("capability") == "<capability>" && CloseText("capability") == "</capability>";
  }

  lemma IdText(sid: Option<nat>)
    ensures PrintAll(IdElems(sid))
         == if sid.Some? then "<session-id>" + Numeral(sid.value) + "</session-id>" else ""
  {
    hide Numeral, EscapeAll, Print;
    if sid.Some? {
      var text := Numeral(sid.value);
      PrintAllOne(IdElems(sid)[0]);
      PrintLeaf("session-id", text);
      DigitsPlain(text);
      PlainEscape(text);
      assert OpenText("session-id") == "<session-id>" && CloseText("session-id") == "</session-id>";
    }
  }

  lemma CapabilitiesText(caps: seq<string>)
    ensures Print(Capabilities(caps)) == "<capabilities>" + PrintAll(Leaves(None, "capability", caps)) + "</capabilities>"
  {
    hide PrintAll, EscapeAll;
    var kids := Leaves(None, "capability", caps);
    NothingPrinted();
    EscapeEmpty();
    assert OpenText("capabilities") == "<capabilities>" && CloseText("capabilities") == "</capabilities>";
    if kids != [] { PrintGroup("capabilities", kids); } else { PrintLeaf("capabilities", ""); }
  }

  lemma HelloText(caps: seq<string>, sid: Option<nat>, end: string)
    requires end == if sid.Some? then "</capabilities><session-id>" + Numeral(sid.value) + "</session-id></hello>"
                    else "</capabilities></hello>"
    ensures Print(HelloElem(caps, sid))
         == ("<hello xmlns=\"" + NS_BASE + "\"><capabilities>") + PrintAll(Leaves(None, "capability", caps)) + end
  {
    hide PrintAll, Print, Numeral, EscapeAll, Leaves, Leaf;
    var cs, ids := PrintAll(Leaves(None, "capability", caps)), PrintAll(IdElems(sid));
    CapabilitiesText(caps);
    IdText(sid);
    HelloFrame(caps, sid);
    PrintAllAppend([Capabilities(caps)], IdElems(sid));
    PrintAllOne(Capabilities(caps));
    HelloEnds(NS_BASE, sid, ids, end);
    Sandwich("<hello xmlns=\"" + NS_BASE + "\">", "<capabilities>", cs, "</capabilities>", ids, "</hello>");
  }

  lemma HelloEnds(ns: string, sid: Option<nat>, ids: string, end: string)
    requires end == if sid.Some? then "</capabilities><session-id>" + Numeral(sid.value) + "</session-id></hello>"
                    else "</capabilities></hello>"
    requires ids == if sid.Some? then "<session-id>" + Numeral(sid.value) + "</session-id>" else ""
    ensures end == "</capabilities>" + ids + "</hello>"
    ensures "<hello xmlns=\"" + ns + "\"><capabilities>" == ("<hello xmlns=\"" + ns + "\">") + "<capabilities>"
  {
    hide Numeral;
    assert "\"><capabilities>" == "\">" + "<capabilities>";
    if sid.Some? {
      assert "</capabilities><session-id>" == "</capabilities>" + "<session-id>";
      assert "</session-id></hello>" == "</session-id>" + "</hello>";
    }
  }

  lemma Sandwich(a: string, b: string, c: string, d: string, e: string, f: string)
    ensures a + ((b + c + d) + e) + f == (a + b) + c + (d + e + f)
  {
  }

  lemma PrintWithAttr(tag: string, a: Attr, kids: seq<Elem>)
    requires kids != []
    ensures Print(Elem(tag, [a], "", kids)) == ("<" + tag + ShowAttr(a) + ">") + PrintAll(kids) + CloseText(tag)
  {
    hide PrintAll, ShowAttr;
    assert [a][1..] == [];
    assert ShowAttrs([a]) == ShowAttr(a);
  }

  lemma XmlnsText(ns: string)
    requires EscapeAll(ns) == ns
    ensures "<" + "hello" + ShowAttr(Attr("xmlns", ns)) + ">" == "<hello xmlns=\"" + ns + "\">"
  {
    hide EscapeAll;
    assert "<" + "hello" + " " + "xmlns" + "=\"" == "<hello xmlns=\"";
    assert "\"" + ">" == "\">";
  }

  lemma HelloFrame(caps: seq<string>, sid: Option<nat>)
    ensures Print(HelloElem(caps, sid))
         == ("<hello xmlns=\"" + NS_BASE + "\">") + PrintAll(HelloElem(caps, sid).kids) + "</hello>"
  {
    hide Print, PrintAll, EscapeAll, ShowAttr, NS_BASE;
    PlainNs();
    XmlnsText(NS_BASE);
    PrintWithAttr("hello", Attr("xmlns", NS_BASE), HelloElem(caps, sid).kids);
    assert CloseText("hello") == "</hello>";
  }

  lemma PlainNs()
    ensures EscapeAll(NS_BASE) == NS_BASE
  {
    assert NoMarkup(NS_BASE);
    PlainEscape(NS_BASE);
  }
}
