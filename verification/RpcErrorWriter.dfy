/** `nc_write_error` of `io.c`, as the sequence of its writes. */
module RpcErrorWriter {
  import opened CText
  import opened Numerals
  import opened Framing
  import opened Xml
  import opened RpcError

  // ----- texts of sequences of calls -----

  lemma {:induction false} PayloadsAppend(a: seq<Call>, b: seq<Call>)
    ensures Payloads(a + b) == Payloads(a) + Payloads(b)
    decreases |b|
  {
    hide Payload;
    if b == [] {
      assert a + b == a;
    } else {
      var n := |b| - 1;
      assert (a + b)[..|a| + n] == a + b[..n];
      PayloadsAppend(a, b[..n]);
    }
  }

  lemma PayloadsOne(c: Call)
    ensures Payloads([c]) == Payload(c)
  {
    hide Payload;
    assert [c][..0] == [];
    assert "" + Payload(c) == Payload(c);
  }

  lemma {:induction false} PrintAllAppend(a: seq<Elem>, b: seq<Elem>)
    ensures PrintAll(a + b) == PrintAll(a) + PrintAll(b)
  {
    hide Print;
    if a == [] {
      assert a + b == b;
    } else {
      assert (a + b)[1..] == a[1..] + b;
      PrintAllAppend(a[1..], b);
    }
  }

  lemma PrintAllOne(e: Elem)
    ensures PrintAll([e]) == Print(e)
  {
    hide Print;
    assert [e][1..] == [];
    assert Print(e) + "" == Print(e);
  }

  predicate NoMarkup(s: string) {
    forall i :: 0 <= i < |s| ==> s[i] != '&' && s[i] != '<' && s[i] != '>'
  }

  lemma {:induction false} PlainEscape(s: string)
    requires NoMarkup(s)
    ensures EscapeAll(s) == s
  {
    if s != "" { PlainEscape(s[..|s| - 1]); }
  }

  lemma TypesPlain(t: ErrType)
    ensures NoMarkup(TypeText(t)) && NoMarkup("error")
  {
  }

  predicate EarlyTag(t: ErrTag) {
    t.InUse? || t.InvalidValue? || t.TooBig? || t.MissingAttr? || t.BadAttr? || t.UnknownAttr? || t.MissingElem?
  }

  predicate MiddleTag(t: ErrTag) {
    t.BadElem? || t.UnknownElem? || t.UnknownNs? || t.AccessDenied? || t.LockDenied? || t.ResDenied?
  }

  lemma EarlyTagsPlain(t: ErrTag)
    requires EarlyTag(t)
    ensures NoMarkup(TagText(t))
  {
  }

  lemma MiddleTagsPlain(t: ErrTag)
    requires MiddleTag(t)
    ensures NoMarkup(TagText(t))
  {
  }

  lemma LateTagsPlain(t: ErrTag)
    requires !EarlyTag(t) && !MiddleTag(t)
    ensures NoMarkup(TagText(t))
  {
  }

  lemma TagsPlain(t: ErrTag)
    ensures NoMarkup(TagText(t))
  {
    hide NoMarkup, TagText;
    if EarlyTag(t) { EarlyTagsPlain(t); } else if MiddleTag(t) { MiddleTagsPlain(t); } else { LateTagsPlain(t); }
  }

  // ----- nc_write_error_elem -----

  function OpenText(tag: string): string {
    "<" + (tag + ">")
  }

  function CloseText(tag: string): string {
    "</" + (tag + ">")
  }

  /** `nc_write_error_elem`, after the writes in `done`. */
  method WriteTag(done: seq<Call>, name: string, prefix: Option<string>, open: bool, noAttr: bool)
    returns (calls: seq<Call>)
    ensures var tag := Qualified(prefix, name);
      Payloads(calls) == Payloads(done) + (
        if !open then CloseText(tag) else if noAttr then "<" + tag else OpenText(tag))
  {
    hide Payloads;
    var tag := [Raw(if open then "<" else "</")];
    PayloadsOne(tag[0]);
    if prefix.Some? {
      PayloadsOne(Raw(prefix.value));
      PayloadsOne(Raw(":"));
      PayloadsAppend(tag, [Raw(prefix.value)]);
      PayloadsAppend(tag + [Raw(prefix.value)], [Raw(":")]);
      tag := tag + [Raw(prefix.value)] + [Raw(":")];
    }
    PayloadsOne(Raw(name));
    PayloadsAppend(tag, [Raw(name)]);
    tag := tag + [Raw(name)];
    assert Payloads(tag) == (if open then "<" else "</") + Qualified(prefix, name);
    if !open || !noAttr {
      PayloadsOne(Raw(">"));
      PayloadsAppend(tag, [Raw(">")]);
      tag := tag + [Raw(">")];
    }
    PayloadsAppend(done, tag);
    calls := done + tag;
  }

  lemma PrintLeaf(tag: string, text: string)
    ensures Print(Elem(tag, [], text, [])) == OpenText(tag) + EscapeAll(text) + CloseText(tag)
  {
    hide EscapeAll;
  }

  /** An element with one write between its tags. */
  method WriteLeaf(done: seq<Call>, name: string, prefix: Option<string>, call: Call, ghost text: string)
    returns (calls: seq<Call>)
    requires Payload(call) == EscapeAll(text)
    ensures Payloads(calls) == Payloads(done) + Print(Leaf(prefix, name, text))
  {
    hide Payloads, EscapeAll, Print, Qualified, OpenText, CloseText, Payload;
    var c1 := WriteTag(done, name, prefix, true, false);
    PayloadsOne(call);
    PayloadsAppend(c1, [call]);
    calls := WriteTag(c1 + [call], name, prefix, false, false);
    PrintLeaf(Qualified(prefix, name), text);
  }

  method WriteLeaves(done: seq<Call>, name: string, prefix: Option<string>, texts: seq<string>)
    returns (calls: seq<Call>)
    ensures Payloads(calls) == Payloads(done) + PrintAll(Leaves(prefix, name, texts))
  {
    hide Payloads, EscapeAll, Print, PrintAll, Leaf;
    calls := done;
    var i := 0;
    assert texts[..0] == [];
    NothingPrinted();
    while i < |texts|
      invariant i <= |texts| && Payloads(calls) == Payloads(done) + PrintAll(Leaves(prefix, name, texts[..i]))
    {
      calls := WriteLeaf(calls, name, prefix, Xml(texts[i]), texts[i]);
      assert texts[..i + 1][..i] == texts[..i];
      PrintAllAppend(Leaves(prefix, name, texts[..i]), [Leaf(prefix, name, texts[i])]);
      PrintAllOne(Leaf(prefix, name, texts[i]));
      Assoc(Payloads(done), PrintAll(Leaves(prefix, name, texts[..i])), Print(Leaf(prefix, name, texts[i])));
      i := i + 1;
    }
    assert texts[..|texts|] == texts;
  }

  lemma NothingPrinted()
    ensures PrintAll([]) == ""
  {
  }

  /** Elements of other namespaces are printed by the XML library. */
  method WriteOthers(done: seq<Call>, xs: seq<Elem>) returns (calls: seq<Call>)
    ensures Payloads(calls) == Payloads(done) + PrintAll(xs)
  {
    hide Payloads, Print, PrintAll;
    calls := done;
    var i := 0;
    assert xs[..0] == [];
    NothingPrinted();
    while i < |xs|
      invariant i <= |xs| && Payloads(calls) == Payloads(done) + PrintAll(xs[..i])
    {
      PayloadsOne(Raw(Print(xs[i])));
      PayloadsAppend(calls, [Raw(Print(xs[i]))]);
      calls := calls + [Raw(Print(xs[i]))];
      PrintAllAppend(xs[..i], [xs[i]]);
      PrintAllOne(xs[i]);
      assert xs[..i + 1] == xs[..i] + [xs[i]];
      Assoc(Payloads(done), PrintAll(xs[..i]), Print(xs[i]));
      i := i + 1;
    }
    assert xs[..|xs|] == xs;
  }

  function LangText(lang: Option<string>): string {
    if lang.Some? then " xml:lang=\"" + (EscapeAll(lang.value) + "\"") else ""
  }

  method WriteLang(done: seq<Call>, lang: Option<string>) returns (calls: seq<Call>)
    ensures Payloads(calls) == Payloads(done) + LangText(lang)
  {
    hide Payloads, EscapeAll;
    calls := done;
    if lang.Some? {
      var attr := [Raw(" xml:lang=\""), Xml(lang.value), Raw("\"")];
      PayloadsThree(attr[0], attr[1], attr[2]);
      PayloadsAppend(calls, attr);
      calls := calls + attr;
    }
  }

  method WriteMessageElem(done: seq<Call>, e: ServerError, prefix: Option<string>) returns (calls: seq<Call>)
    ensures Payloads(calls) == Payloads(done) + PrintAll(MessageElems(e, prefix))
  {
    hide Payloads, EscapeAll, Qualified, Print, PrintAll, LangText, CloseText, Payload;
    NothingPrinted();
    if e.message.None? { return done; }
    ghost var tag, lang, text := Qualified(prefix, "error-message"), LangText(e.lang), EscapeAll(e.message.value);
    calls := WriteTag(done, "error-message", prefix, true, true);
    calls := WriteLang(calls, e.lang);
    RestOfMessage(calls, e.message.value);
    calls := calls + [Raw(">"), Xml(e.message.value)];
    calls := WriteTag(calls, "error-message", prefix, false, false);
    PrintMessage(tag, e.lang, e.message.value);
    PrintAllOne(MessageElems(e, prefix)[0]);
    Gather(Payloads(done), "<" + tag, lang, ">" + text, CloseText(tag));
  }

  lemma RestOfMessage(calls: seq<Call>, message: string)
    ensures Payloads(calls + [Raw(">"), Xml(message)]) == Payloads(calls) + (">" + EscapeAll(message))
  {
    hide Payloads, EscapeAll;
    PayloadsTwo(Raw(">"), Xml(message));
    PayloadsAppend(calls, [Raw(">"), Xml(message)]);
  }

  lemma Gather(a: string, b: string, c: string, d: string, e: string)
    ensures a + b + c + d + e == a + ((b + c) + d + e)
  {
  }

  lemma PayloadsTwo(a: Call, b: Call)
    ensures Payloads([a, b]) == Payload(a) + Payload(b)
  {
    hide Payload, Payloads;
    PayloadsOne(a);
    PayloadsOne(b);
    PayloadsAppend([a], [b]);
    assert [a] + [b] == [a, b];
  }

  lemma PayloadsThree(a: Call, b: Call, c: Call)
    ensures Payloads([a, b, c]) == Payload(a) + (Payload(b) + Payload(c))
  {
    hide Payload, Payloads;
    PayloadsOne(a);
    PayloadsTwo(b, c);
    PayloadsAppend([a], [b, c]);
    assert [a] + [b, c] == [a, b, c];
  }

  lemma PrintMessage(tag: string, lang: Option<string>, text: string)
    ensures var list := if lang.Some? then [Attr("xml:lang", lang.value)] else [];
      Print(Elem(tag, list, text, [])) == ("<" + tag + LangText(lang)) + (">" + EscapeAll(text)) + CloseText(tag)
  {
    hide EscapeAll;
    var list := if lang.Some? then [Attr("xml:lang", lang.value)] else [];
    if lang.Some? {
      assert list[1..] == [];
      assert ShowAttr(list[0]) == " xml:lang=\"" + (EscapeAll(lang.value) + "\"");
    }
    assert ShowAttrs(list) == LangText(lang);
  }

  // ----- nc_write_error -----

  method WriteHead(done: seq<Call>, e: ServerError, prefix: Option<string>) returns (calls: seq<Call>)
    ensures Payloads(calls) == Payloads(done) + PrintAll(HeadElems(e, prefix))
  {
    hide Payloads, EscapeAll, Print, Leaf, TypeText, TagText, NoMarkup;
    TypesPlain(e.errType);
    TagsPlain(e.errTag);
    PlainEscape(TypeText(e.errType));
    PlainEscape(TagText(e.errTag));
    PlainEscape("error");
    calls := WriteLeaf(done, "error-type", prefix, Raw(TypeText(e.errType)), TypeText(e.errType));
    calls := WriteLeaf(calls, "error-tag", prefix, Raw(TagText(e.errTag)), TagText(e.errTag));
    calls := WriteLeaf(calls, "error-severity", prefix, Raw("error"), "error");
    var h := HeadElems(e, prefix);
    PrintThree(h[0], h[1], h[2]);
    assert h == [h[0], h[1], h[2]];
  }

  lemma PrintThree(a: Elem, b: Elem, c: Elem)
    ensures PrintAll([a, b, c]) == Print(a) + Print(b) + Print(c)
  {
    hide Print;
    PrintAllOne(c);
    assert [a, b, c][1..] == [b, c] && [b, c][1..] == [c];
  }

  method WriteOptLeaf(done: seq<Call>, name: string, prefix: Option<string>, text: Option<string>)
    returns (calls: seq<Call>)
    ensures Payloads(calls) == Payloads(done) + PrintAll(OptLeaf(prefix, name, text))
  {
    hide Payloads, EscapeAll, Print, PrintAll, Leaf;
    NothingPrinted();
    calls := done;
    if text.Some? {
      calls := WriteLeaf(done, name, prefix, Xml(text.value), text.value);
      PrintAllOne(Leaf(prefix, name, text.value));
    }
  }

  method WriteInfo(done: seq<Call>, e: ServerError, prefix: Option<string>) returns (calls: seq<Call>)
    ensures Payloads(calls) == Payloads(done) + PrintAll(InfoElems(e, prefix))
  {
    hide Payloads, EscapeAll, Print, PrintAll, InfoKids, Qualified, OpenText, CloseText;
    NothingPrinted();
    if !HasInfo(e) { return done; }
    var tag := Qualified(prefix, "error-info");
    calls := WriteTag(done, "error-info", prefix, true, false);
    calls := WriteInfoKids(calls, e, prefix);
    calls := WriteTag(calls, "error-info", prefix, false, false);
    PrintAllOne(InfoElems(e, prefix)[0]);
    InfoKidsThere(e, prefix);
    PrintGroup(tag, InfoKids(e, prefix));
    Gather(Payloads(done), OpenText(tag), PrintAll(InfoKids(e, prefix)), CloseText(tag), "");
    assert Payloads(calls) + "" == Payloads(calls);
    assert OpenText(tag) + PrintAll(InfoKids(e, prefix)) + CloseText(tag) + ""
        == OpenText(tag) + PrintAll(InfoKids(e, prefix)) + CloseText(tag);
  }

  lemma InfoKidsThere(e: ServerError, prefix: Option<string>)
    requires HasInfo(e)
    ensures InfoKids(e, prefix) != []
  {
  }

  lemma PrintGroup(tag: string, kids: seq<Elem>)
    requires kids != []
    ensures Print(Elem(tag, [], "", kids)) == OpenText(tag) + PrintAll(kids) + CloseText(tag)
  {
    hide PrintAll;
  }

  method WriteInfoKids(done: seq<Call>, e: ServerError, prefix: Option<string>) returns (calls: seq<Call>)
    ensures Payloads(calls) == Payloads(done) + PrintAll(InfoKids(e, prefix))
  {
    hide Payloads, EscapeAll, Print, PrintAll, Leaf, Leaves, Numeral, NoMarkup;
    NothingPrinted();
    calls := done;
    if e.sid > -1 {
      var sid := Numeral(e.sid % UINT32);
      DigitsPlain(sid);
      PlainEscape(sid);
      calls := WriteLeaf(done, "session-id", prefix, Raw(sid), sid);
      PrintAllOne(Leaf(prefix, "session-id", sid));
    }
    calls := WriteLeaves(calls, "bad-attribute", prefix, e.attrs);
    calls := WriteLeaves(calls, "bad-element", prefix, e.elems);
    calls := WriteLeaves(calls, "bad-namespace", prefix, e.nss);
    calls := WriteOthers(calls, e.others);
    var s, a, b, n := SidElems(e, prefix), Leaves(prefix, "bad-attribute", e.attrs),
      Leaves(prefix, "bad-element", e.elems), Leaves(prefix, "bad-namespace", e.nss);
    PrintAllAppend(s, a);
    PrintAllAppend(s + a, b);
    PrintAllAppend(s + a + b, n);
    PrintAllAppend(s + a + b + n, e.others);
    Gather5(Payloads(done), PrintAll(s), PrintAll(a), PrintAll(b), PrintAll(n), PrintAll(e.others));
  }

  lemma DigitsPlain(s: string)
    requires AllDigits(s)
    ensures NoMarkup(s)
  {
  }

  lemma Gather5(p: string, a: string, b: string, c: string, d: string, e: string)
    ensures p + a + b + c + d + e == p + (a + b + c + d + e)
  {
  }

  /** `nc_write_error`: what is written is the text of the error's element, so it is balanced. */
  method WriteError(e: ServerError, prefix: Option<string>) returns (calls: seq<Call>)
    ensures Payloads(calls) == Print(ErrorElem(e, prefix))
  {
    hide Payloads, Print, PrintAll, Qualified, OpenText, CloseText, HeadElems, OptLeaf, MessageElems, InfoElems;
    var tag := Qualified(prefix, "rpc-error");
    NothingWritten();
    calls := WriteTag([], "rpc-error", prefix, true, false);
    calls := WriteHead(calls, e, prefix);
    calls := WriteOptLeaf(calls, "error-app-tag", prefix, e.appTag);
    calls := WriteOptLeaf(calls, "error-path", prefix, e.path);
    calls := WriteMessageElem(calls, e, prefix);
    calls := WriteInfo(calls, e, prefix);
    calls := WriteTag(calls, "rpc-error", prefix, false, false);
    KidsPrinted(e, prefix);
    PrintGroup(tag, ErrorKids(e, prefix));
    var h, a, p, m, i := HeadElems(e, prefix), OptLeaf(prefix, "error-app-tag", e.appTag),
      OptLeaf(prefix, "error-path", e.path), MessageElems(e, prefix), InfoElems(e, prefix);
    Gather5(OpenText(tag), PrintAll(h), PrintAll(a), PrintAll(p), PrintAll(m), PrintAll(i));
    assert "" + OpenText(tag) == OpenText(tag);
  }

  lemma NothingWritten()
    ensures Payloads([]) == ""
  {
  }

  lemma KidsPrinted(e: ServerError, prefix: Option<string>)
    ensures ErrorKids(e, prefix) != []
    ensures PrintAll(ErrorKids(e, prefix))
         == PrintAll(HeadElems(e, prefix)) + PrintAll(OptLeaf(prefix, "error-app-tag", e.appTag))
          + PrintAll(OptLeaf(prefix, "error-path", e.path)) + PrintAll(MessageElems(e, prefix))
          + PrintAll(InfoElems(e, prefix))
  {
    hide PrintAll, OptLeaf, MessageElems, InfoElems;
    var h, a, p, m, i := HeadElems(e, prefix), OptLeaf(prefix, "error-app-tag", e.appTag),
      OptLeaf(prefix, "error-path", e.path), MessageElems(e, prefix), InfoElems(e, prefix);
    PrintAllAppend(h, a);
    PrintAllAppend(h + a, p);
    PrintAllAppend(h + a + p, m);
    PrintAllAppend(h + a + p + m, i);
    assert ErrorKids(e, prefix) == h + a + p + m + i;
    assert |h| == 3;
  }

  // ----- the bytes determine the error -----

  predicate NulFree(xs: seq<string>) {
    forall i :: 0 <= i < |xs| ==> '\0' !in xs[i]
  }

  predicate OptNulFree(x: Option<string>) {
    x.Some? ==> '\0' !in x.value
  }

  /** Texts are C strings, and the language holds no double quote. */
  predicate Writable(e: ServerError, prefix: Option<string>) {
    && PrefixOk(prefix) && Foreign(e.others, prefix)
    && (forall i :: 0 <= i < |e.others| ==> ElemOk(e.others[i]))
    && (e.lang.Some? ==> '"' !in e.lang.value)
    && OptNulFree(e.appTag) && OptNulFree(e.path) && OptNulFree(e.message)
    && NulFree(e.attrs) && NulFree(e.elems) && NulFree(e.nss)
  }

  predicate ElemsOk(xs: seq<Elem>) {
    forall i :: 0 <= i < |xs| ==> ElemOk(xs[i])
  }

  lemma QualifiedNameOk(prefix: Option<string>, name: string)
    requires PrefixOk(prefix) && NameOk(name)
    ensures NameOk(Qualified(prefix, name))
  {
  }

  lemma LeafOk(prefix: Option<string>, name: string, text: string)
    requires PrefixOk(prefix) && NameOk(name) && '\0' !in text
    ensures ElemOk(Leaf(prefix, name, text))
  {
    QualifiedNameOk(prefix, name);
  }

  lemma {:induction false} LeavesOk(prefix: Option<string>, name: string, texts: seq<string>)
    requires PrefixOk(prefix) && NameOk(name) && NulFree(texts)
    ensures ElemsOk(Leaves(prefix, name, texts))
  {
    hide ElemOk, PrefixOk, NameOk, Leaf;
    if texts != [] {
      var n := |texts| - 1;
      LeavesOk(prefix, name, texts[..n]);
      LeafOk(prefix, name, texts[n]);
    }
  }

  lemma FixedTextsNulFree(e: ServerError)
    ensures '\0' !in TypeText(e.errType) && '\0' !in TagText(e.errTag)
  {
  }

  lemma InfoKidsOk(e: ServerError, prefix: Option<string>)
    requires Writable(e, prefix)
    ensures ElemsOk(InfoKids(e, prefix))
  {
    hide ElemOk, PrefixOk, Leaf, Leaves, Numeral, Foreign, NulFree;
    assert NameOk("session-id") && NameOk("bad-attribute") && NameOk("bad-element") && NameOk("bad-namespace");
    hide NameOk;
    if e.sid > -1 { LeafOk(prefix, "session-id", Numeral(e.sid % UINT32)); }
    LeavesOk(prefix, "bad-attribute", e.attrs);
    LeavesOk(prefix, "bad-element", e.elems);
    LeavesOk(prefix, "bad-namespace", e.nss);
  }

  lemma InfoElemsOk(e: ServerError, prefix: Option<string>)
    requires Writable(e, prefix)
    ensures ElemsOk(InfoElems(e, prefix))
  {
    hide PrefixOk, InfoKids, Foreign, NulFree;
    InfoKidsOk(e, prefix);
    QualifiedNameOk(prefix, "error-info");
  }

  lemma HeadElemsOk(e: ServerError, prefix: Option<string>)
    requires Writable(e, prefix)
    ensures ElemsOk(HeadElems(e, prefix))
  {
    hide ElemOk, PrefixOk, Leaf, Foreign, NulFree, TypeText, TagText;
    FixedTextsNulFree(e);
    LeafOk(prefix, "error-type", TypeText(e.errType));
    LeafOk(prefix, "error-tag", TagText(e.errTag));
    LeafOk(prefix, "error-severity", "error");
  }

  lemma TextElemsOk(e: ServerError, prefix: Option<string>)
    requires Writable(e, prefix)
    ensures ElemsOk(OptLeaf(prefix, "error-app-tag", e.appTag)) && ElemsOk(OptLeaf(prefix, "error-path", e.path))
    ensures ElemsOk(MessageElems(e, prefix))
  {
    hide PrefixOk, Leaf, Foreign, NulFree, Qualified;
    if e.appTag.Some? { LeafOk(prefix, "error-app-tag", e.appTag.value); }
    if e.path.Some? { LeafOk(prefix, "error-path", e.path.value); }
    QualifiedNameOk(prefix, "error-message");
  }

  lemma ErrorElemOk(e: ServerError, prefix: Option<string>)
    requires Writable(e, prefix)
    ensures ElemOk(ErrorElem(e, prefix))
  {
    hide PrefixOk, Foreign, NulFree, Qualified, HeadElems, OptLeaf, MessageElems, InfoElems;
    HeadElemsOk(e, prefix);
    TextElemsOk(e, prefix);
    InfoElemsOk(e, prefix);
    QualifiedNameOk(prefix, "rpc-error");
    ElemsOkTogether(ErrorKids(e, prefix), HeadElems(e, prefix), OptLeaf(prefix, "error-app-tag", e.appTag),
                    OptLeaf(prefix, "error-path", e.path), MessageElems(e, prefix), InfoElems(e, prefix));
  }

  lemma ElemsOkTogether(all: seq<Elem>, h: seq<Elem>, a: seq<Elem>, p: seq<Elem>, m: seq<Elem>, i: seq<Elem>)
    requires all == h + (a + p + m) + i && ElemsOk(h) && ElemsOk(a) && ElemsOk(p) && ElemsOk(m) && ElemsOk(i)
    ensures ElemsOk(all)
  {
    hide ElemOk;
  }

  /** From the server's error over the bytes to the client's error. */
  lemma ErrorOverTheWire(e: ServerError, prefix: Option<string>)
    requires Writable(e, prefix)
    ensures var x := ReadDocument(Print(ErrorElem(e, prefix)));
      x == Some(ErrorElem(e, prefix)) && WithChildren(BLANK, x.value.kids, prefix) == Received(e)
  {
    hide Print, ReadDocument, WithChildren, ElemOk, Received;
    ErrorElemOk(e, prefix);
    ReadPrinted(ErrorElem(e, prefix));
    ErrorRoundTrip(e, prefix);
  }
}
