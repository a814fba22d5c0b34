/** The XML text that `io.c` writes: elements with attributes and either character data or children, without
    white space between them, and a reader that shows that the text determines the element. */
module Xml {
  import opened CText
  import opened Framing

  datatype Attr = Attr(name: string, value: string)
  datatype Elem = Elem(tag: string, attrs: seq<Attr>, text: string, kids: seq<Elem>)

  predicate NameChar(c: char) {
    'a' <= c <= 'z' || 'A' <= c <= 'Z' || '0' <= c <= '9' || c == '-' || c == '_' || c == '.' || c == ':'
  }

  predicate NameOk(s: string) {
    s != "" && forall i :: 0 <= i < |s| ==> NameChar(s[i])
  }

  /** The writer does not escape quotes, so that a value must not hold one. */
  predicate AttrOk(a: Attr) {
    NameOk(a.name) && '"' !in a.value
  }

  predicate ElemOk(e: Elem) {
    && NameOk(e.tag)
    && (forall i :: 0 <= i < |e.attrs| ==> AttrOk(e.attrs[i]))
    && (e.kids == [] || e.text == "")
    && '\0' !in e.text
    && forall i :: 0 <= i < |e.kids| ==> ElemOk(e.kids[i])
  }

  function ShowAttr(a: Attr): string {
    " " + (a.name + ("=\"" + (EscapeAll(a.value) + "\"")))
  }

  function ShowAttrs(attrs: seq<Attr>): string {
    if attrs == [] then "" else ShowAttr(attrs[0]) + ShowAttrs(attrs[1..])
  }

  function Print(e: Elem): string
    decreases e, 1
  {
    "<" + (e.tag + (ShowAttrs(e.attrs) + (">" + (Inner(e) + ("</" + (e.tag + ">"))))))
  }

  function Inner(e: Elem): string
    decreases e, 0
  {
    if e.kids == [] then EscapeAll(e.text) else PrintAll(e.kids)
  }

  function PrintAll(es: seq<Elem>): string
    decreases es
  {
    if es == [] then "" else Print(es[0]) + PrintAll(es[1..])
  }

  // ----- the reader -----

  function NameEnd(t: string, i: nat): (r: nat)
    requires i <= |t|
    ensures i <= r <= |t|
    decreases |t| - i
  {
    if NameChar(At(t, i)) then NameEnd(t, i + 1) else i
  }

  /** The character written at `i`, and where the next one begins. */
  function ReadChar(t: string, i: nat): (r: Option<(char, nat)>)
    requires i < |t|
    ensures r.Some? ==> i < r.value.1 <= |t|
  {
    if t[i] != '&' then Some((t[i], i + 1))
    else if Occurs(t, i, "&amp;") then Some(('&', i + 5))
    else if Occurs(t, i, "&lt;") then Some(('<', i + 4))
    else if Occurs(t, i, "&gt;") then Some(('>', i + 4))
    else None
  }

  /** Character data up to `stop`. */
  function ReadText(t: string, i: nat, stop: char): (r: Option<(string, nat)>)
    requires i <= |t|
    ensures r.Some? ==> i <= r.value.1 < |t|
    decreases |t| - i
  {
    if i == |t| then None
    else if t[i] == stop then Some(("", i))
    else match ReadChar(t, i)
      case None => None
      case Some((c, j)) =>
        match ReadText(t, j, stop)
        case None => None
        case Some((rest, k)) => Some(([c] + rest, k))
  }

  function ReadAttrs(t: string, i: nat): (r: Option<(seq<Attr>, nat)>)
    requires i <= |t|
    ensures r.Some? ==> i <= r.value.1 <= |t|
    decreases |t| - i
  {
    if At(t, i) != ' ' then Some(([], i))
    else
      var j := NameEnd(t, i + 1);
      if j == i + 1 || !Occurs(t, j, "=\"") then None
      else match ReadText(t, j + 2, '"')
        case None => None
        case Some((value, k)) =>
          match ReadAttrs(t, k + 1)
          case None => None
          case Some((rest, m)) => Some(([Attr(t[i + 1..j], value)] + rest, m))
  }

  predicate OpensChild(t: string, i: nat) {
    At(t, i) == '<' && At(t, i + 1) != '/'
  }

  function ReadElem(t: string, i: nat): (r: Option<(Elem, nat)>)
    requires i <= |t|
    ensures r.Some? ==> i < r.value.1 <= |t|
    decreases |t| - i, 0
  {
    if At(t, i) != '<' then None
    else
      var j := NameEnd(t, i + 1);
      match ReadAttrs(t, j)
      case None => None
      case Some((attrs, k)) =>
        if j == i + 1 || At(t, k) != '>' then None
        else match ReadInner(t, k + 1)
          case None => None
          case Some((text, kids, m)) =>
            var close := "</" + (t[i + 1..j] + ">");
            if !Occurs(t, m, close) then None
            else Some((Elem(t[i + 1..j], attrs, text, kids), m + |close|))
  }

  function ReadInner(t: string, i: nat): (r: Option<(string, seq<Elem>, nat)>)
    requires i <= |t|
    ensures r.Some? ==> i <= r.value.2 <= |t|
    decreases |t| - i, 2
  {
    if OpensChild(t, i) then
      match ReadKids(t, i)
      case None => None
      case Some((kids, m)) => Some(("", kids, m))
    else
      match ReadText(t, i, '<')
      case None => None
      case Some((text, m)) => Some((text, [], m))
  }

  function ReadKids(t: string, i: nat): (r: Option<(seq<Elem>, nat)>)
    requires i <= |t|
    ensures r.Some? ==> i <= r.value.1 <= |t|
    decreases |t| - i, 1
  {
    if !OpensChild(t, i) then Some(([], i))
    else match ReadElem(t, i)
      case None => None
      case Some((e, j)) =>
        match ReadKids(t, j)
        case None => None
        case Some((rest, m)) => Some(([e] + rest, m))
  }

  /** Reading a whole text as one element. */
  function ReadDocument(t: string): Option<Elem> {
    match ReadElem(t, 0)
    case Some((e, n)) => if n == |t| then Some(e) else None
    case None => None
  }

  // ----- reading undoes printing -----

  lemma {:induction false} NameEndAt(t: string, i: nat, name: string)
    requires Occurs(t, i, name) && (forall k :: 0 <= k < |name| ==> NameChar(name[k])) && !NameChar(At(t, i + |name|))
    ensures NameEnd(t, i) == i + |name| && t[i..i + |name|] == name
    decreases |name|
  {
    if name != "" {
      OccursAt(t, i, name, 0);
      assert name == [name[0]] + name[1..];
      OccursSplit(t, i, [name[0]], name[1..]);
      NameEndAt(t, i + 1, name[1..]);
    }
  }

  lemma ReadCharAt(t: string, i: nat, c: char)
    requires Occurs(t, i, EscapeXml(c))
    ensures i < |t| && ReadChar(t, i) == Some((c, i + |EscapeXml(c)|)) && (t[i] == '&' || t[i] == c)
  {
    OccursAt(t, i, EscapeXml(c), 0);
    if c == '<' || c == '>' {
      OccursAt(t, i, EscapeXml(c), 1);
      assert "&amp;"[1] == 'a' && "&lt;"[1] == 'l';
    }
  }

  lemma {:induction false} EscapeFront(s: string)
    requires s != ""
    ensures EscapeAll(s) == EscapeXml(s[0]) + EscapeAll(s[1..])
    decreases |s|
  {
    hide EscapeXml;
    var n := |s| - 1;
    if n > 0 {
      EscapeFront(s[..n]);
      assert s[..n][1..] == s[1..][..n - 1];
    }
  }

  lemma {:induction false} ReadTextAt(t: string, i: nat, s: string, stop: char)
    requires Occurs(t, i, EscapeAll(s)) && At(t, i + |EscapeAll(s)|) == stop && stop != '\0' && stop != '&'
    requires stop == '<' || stop !in s
    ensures ReadText(t, i, stop) == Some((s, i + |EscapeAll(s)|))
    decreases |s|
  {
    hide ReadChar, Occurs, EscapeXml, EscapeAll;
    if s == "" {
      EscapeEmpty();
      InRange(t, i);
    } else {
      EscapeFront(s);
      OccursSplit(t, i, EscapeXml(s[0]), EscapeAll(s[1..]));
      ReadCharAt(t, i, s[0]);
      FirstNotStop(t, i, s[0], stop);
      ReadTextAt(t, i + |EscapeXml(s[0])|, s[1..], stop);
      assert s == [s[0]] + s[1..];
    }
  }

  lemma EscapeEmpty()
    ensures EscapeAll("") == ""
  {
  }

  lemma InRange(t: string, i: nat)
    requires At(t, i) != '\0'
    ensures i < |t|
  {
  }

  lemma FirstNotStop(t: string, i: nat, c: char, stop: char)
    requires Occurs(t, i, EscapeXml(c)) && stop != '&' && (stop == '<' || stop != c)
    ensures At(t, i) != stop
  {
    OccursAt(t, i, EscapeXml(c), 0);
  }

  lemma ReadAttrAt(t: string, i: nat, a: Attr)
    requires AttrOk(a) && Occurs(t, i, ShowAttr(a))
    ensures At(t, i) == ' ' && a.name != "" && NameEnd(t, i + 1) == i + 1 + |a.name| && t[i + 1..i + 1 + |a.name|] == a.name
    ensures Occurs(t, i + 1 + |a.name|, "=\"")
    ensures ReadText(t, i + 3 + |a.name|, '"') == Some((a.value, i + |ShowAttr(a)| - 1))
  {
    hide EscapeAll, ReadText;
    var v := EscapeAll(a.value);
    OccursSplit(t, i, " ", a.name + ("=\"" + (v + "\"")));
    OccursAt(t, i, " ", 0);
    OccursSplit(t, i + 1, a.name, "=\"" + (v + "\""));
    var j := i + 1 + |a.name|;
    OccursSplit(t, j, "=\"", v + "\"");
    OccursAt(t, j, "=\"", 0);
    NameEndAt(t, i + 1, a.name);
    OccursSplit(t, j + 2, v, "\"");
    OccursAt(t, j + 2 + |v|, "\"", 0);
    ReadTextAt(t, j + 2, a.value, '"');
  }

  lemma {:induction false} ReadAttrsAt(t: string, i: nat, attrs: seq<Attr>)
    requires (forall k :: 0 <= k < |attrs| ==> AttrOk(attrs[k])) && Occurs(t, i, ShowAttrs(attrs))
    requires At(t, i + |ShowAttrs(attrs)|) == '>'
    ensures ReadAttrs(t, i) == Some((attrs, i + |ShowAttrs(attrs)|))
    ensures !NameChar(At(t, i))
    decreases |attrs|
  {
    hide ShowAttr, AttrOk, Occurs, ReadText, NameEnd;
    if attrs != [] {
      OccursSplit(t, i, ShowAttr(attrs[0]), ShowAttrs(attrs[1..]));
      ReadAttrAt(t, i, attrs[0]);
      ReadAttrsAt(t, i + |ShowAttr(attrs[0])|, attrs[1..]);
      assert attrs == [attrs[0]] + attrs[1..];
    }
  }

  /** Reading undoes printing, wherever the element stands and whatever follows it. */
  lemma {:induction false} ReadElemAt(t: string, i: nat, e: Elem)
    requires ElemOk(e) && Occurs(t, i, Print(e))
    ensures ReadElem(t, i) == Some((e, i + |Print(e)|)) && OpensChild(t, i)
    decreases e, 2
  {
    hide Occurs, ShowAttrs, Inner, ReadAttrs, ReadInner, NameEnd, AttrOk;
    var attrs, inner, close := ShowAttrs(e.attrs), Inner(e), "</" + (e.tag + ">");
    OccursSplit(t, i, "<", e.tag + (attrs + (">" + (inner + close))));
    var j := i + 1 + |e.tag|;
    OccursSplit(t, i + 1, e.tag, attrs + (">" + (inner + close)));
    OccursSplit(t, j, attrs, ">" + (inner + close));
    var k := j + |attrs|;
    OccursSplit(t, k, ">", inner + close);
    OccursSplit(t, k + 1, inner, close);
    var m := k + 1 + |inner|;
    OccursAt(t, i, "<", 0);
    OccursAt(t, k, ">", 0);
    OccursAt(t, m, close, 0);
    OccursAt(t, m, close, 1);
    OccursAt(t, i + 1, e.tag, 0);
    ReadAttrsAt(t, j, e.attrs);
    NameEndAt(t, i + 1, e.tag);
    ReadInnerAt(t, k + 1, e);
  }

  lemma {:induction false} ReadInnerAt(t: string, i: nat, e: Elem)
    requires ElemOk(e) && Occurs(t, i, Inner(e))
    requires At(t, i + |Inner(e)|) == '<' && At(t, i + |Inner(e)| + 1) == '/'
    ensures ReadInner(t, i) == Some((e.text, e.kids, i + |Inner(e)|))
    decreases e, 1
  {
    hide Occurs, EscapeAll, ReadText, AttrOk, ReadKids;
    if e.kids == [] {
      TextOpensNoChild(t, i, e.text);
      ReadTextAt(t, i, e.text, '<');
    } else {
      ReadKidsAt(t, i, e.kids);
    }
  }

  lemma TextOpensNoChild(t: string, i: nat, s: string)
    requires Occurs(t, i, EscapeAll(s)) && At(t, i + |EscapeAll(s)|) == '<' && At(t, i + |EscapeAll(s)| + 1) == '/'
    ensures !OpensChild(t, i)
  {
    hide EscapeAll;
    if s == "" {
      EscapeEmpty();
    } else {
      EscapeFront(s);
      OccursSplit(t, i, EscapeXml(s[0]), EscapeAll(s[1..]));
      FirstNotStop(t, i, s[0], '<');
    }
  }

  lemma {:induction false} ReadKidsAt(t: string, i: nat, es: seq<Elem>)
    requires (forall k :: 0 <= k < |es| ==> ElemOk(es[k])) && Occurs(t, i, PrintAll(es))
    requires At(t, i + |PrintAll(es)|) == '<' && At(t, i + |PrintAll(es)| + 1) == '/'
    ensures ReadKids(t, i) == Some((es, i + |PrintAll(es)|)) && (es != [] ==> OpensChild(t, i))
    decreases es
  {
    hide Occurs, Print, ElemOk, ReadElem;
    if es != [] {
      OccursSplit(t, i, Print(es[0]), PrintAll(es[1..]));
      ReadElemAt(t, i, es[0]);
      ReadKidsAt(t, i + |Print(es[0])|, es[1..]);
      assert es == [es[0]] + es[1..];
    }
  }

  /** The printed text determines the element. */
  lemma ReadPrinted(e: Elem)
    requires ElemOk(e)
    ensures ReadDocument(Print(e)) == Some(e)
  {
    hide ElemOk, Print, ReadElem;
    ReadElemAt(Print(e), 0, e);
  }
}
