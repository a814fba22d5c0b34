/** What `parse_rpc_error` of `session_client.c` makes of any `<rpc-error>`, also one with doubled, unknown, foreign or
    misspelt children: of each field the first value that is allowed, and of each list all values in order. */
module RpcErrorFields {
  import opened CText
  import opened Xml
  import opened RpcError

  const TYPES := {"transport", "rpc", "protocol", "application"}
  const TAGS := {"in-use", "invalid-value", "too-big", "missing-attribute", "bad-attribute", "unknown-attribute",
                 "missing-element", "bad-element", "unknown-element", "unknown-namespace", "access-denied", "lock-denied",
                 "resource-denied", "rollback-failed", "data-exists", "data-missing", "operation-not-supported",
                 "operation-failed", "malformed-message"}
  const SEVERITIES := {"error", "warning"}

  /** An element of this name whose text is one of those allowed, if only some are. */
  predicate Fits(x: Elem, tag: string, allowed: Option<set<string>>) {
    x.tag == tag && (allowed.Some? ==> x.text in allowed.value)
  }

  function FirstOf(xs: seq<Elem>, tag: string, allowed: Option<set<string>>): Option<Elem> {
    if xs == [] then None
    else if Fits(xs[0], tag, allowed) then Some(xs[0])
    else FirstOf(xs[1..], tag, allowed)
  }

  function FirstText(xs: seq<Elem>, tag: string, allowed: Option<set<string>>): Option<string> {
    match FirstOf(xs, tag, allowed)
    case None => None
    case Some(x) => Some(x.text)
  }

  /** The language of the first message. */
  function FirstLang(xs: seq<Elem>, tag: string): Option<string> {
    match FirstOf(xs, tag, None)
    case None => None
    case Some(x) => AttrValue(x.attrs, "xml:lang")
  }

  /** The children of all elements of this name. */
  function Inside(xs: seq<Elem>, tag: string): seq<Elem> {
    if xs == [] then [] else (if xs[0].tag == tag then xs[0].kids else []) + Inside(xs[1..], tag)
  }

  function AllTexts(xs: seq<Elem>, tag: string): seq<string> {
    if xs == [] then [] else (if xs[0].tag == tag then [xs[0].text] else []) + AllTexts(xs[1..], tag)
  }

  function OutOf(xs: seq<Elem>, prefix: Option<string>): seq<Elem> {
    if xs == [] then [] else (if PrefixOf(xs[0].tag) != prefix then [xs[0]] else []) + OutOf(xs[1..], prefix)
  }

  /** The part of a record that comes from `<error-info>`. */
  function WithAll(c: ClientError, ys: seq<Elem>, prefix: Option<string>): ClientError {
    c.(sid := FirstText(ys, Qualified(prefix, "session-id"), None),
       attrs := AllTexts(ys, Qualified(prefix, "bad-attribute")),
       elems := AllTexts(ys, Qualified(prefix, "bad-element")),
       nss := AllTexts(ys, Qualified(prefix, "bad-namespace")),
       others := OutOf(ys, prefix))
  }

  function Heads(xs: seq<Elem>, prefix: Option<string>): ClientError {
    ClientError(FirstText(xs, Qualified(prefix, "error-type"), Some(TYPES)),
                FirstText(xs, Qualified(prefix, "error-tag"), Some(TAGS)),
                FirstText(xs, Qualified(prefix, "error-severity"), Some(SEVERITIES)),
                FirstText(xs, Qualified(prefix, "error-app-tag"), None),
                FirstText(xs, Qualified(prefix, "error-path"), None),
                FirstText(xs, Qualified(prefix, "error-message"), None),
                FirstLang(xs, Qualified(prefix, "error-message")),
                None, [], [], [], [])
  }

  // ----- one element more -----

  lemma {:induction false} FirstSnoc(xs: seq<Elem>, x: Elem, tag: string, allowed: Option<set<string>>)
    ensures FirstOf(xs + [x], tag, allowed)
         == if FirstOf(xs, tag, allowed).Some? then FirstOf(xs, tag, allowed)
            else if Fits(x, tag, allowed) then Some(x) else None
    decreases |xs|
  {
    hide Fits;
    if xs != [] {
      assert (xs + [x])[1..] == xs[1..] + [x];
      FirstSnoc(xs[1..], x, tag, allowed);
    } else {
      assert (xs + [x])[1..] == [];
    }
  }

  lemma {:induction false} TextsSnoc(xs: seq<Elem>, x: Elem, tag: string)
    ensures AllTexts(xs + [x], tag) == AllTexts(xs, tag) + if x.tag == tag then [x.text] else []
    decreases |xs|
  {
    if xs != [] {
      assert (xs + [x])[1..] == xs[1..] + [x];
      TextsSnoc(xs[1..], x, tag);
    } else {
      assert (xs + [x])[1..] == [];
    }
  }

  lemma {:induction false} OutSnoc(xs: seq<Elem>, x: Elem, prefix: Option<string>)
    ensures OutOf(xs + [x], prefix) == OutOf(xs, prefix) + if PrefixOf(x.tag) != prefix then [x] else []
    decreases |xs|
  {
    hide PrefixOf;
    if xs != [] {
      assert (xs + [x])[1..] == xs[1..] + [x];
      OutSnoc(xs[1..], x, prefix);
    } else {
      assert (xs + [x])[1..] == [];
    }
  }

  lemma {:induction false} InsideSnoc(xs: seq<Elem>, x: Elem, tag: string)
    ensures Inside(xs + [x], tag) == Inside(xs, tag) + if x.tag == tag then x.kids else []
    decreases |xs|
  {
    if xs != [] {
      assert (xs + [x])[1..] == xs[1..] + [x];
      InsideSnoc(xs[1..], x, tag);
    } else {
      assert (xs + [x])[1..] == [];
    }
  }

  /** A name in the base namespace. */
  lemma TagIs(tag: string, prefix: Option<string>, name: string)
    requires PrefixOk(prefix) && ':' !in name
    ensures tag == Qualified(prefix, name) <==> PrefixOf(tag) == prefix && Local(tag) == name
  {
    hide Colon;
    QualifiedParts(prefix, name);
    if PrefixOf(tag) == prefix && Local(tag) == name {
      var i := Colon(tag);
      if i < |tag| { assert tag == tag[..i] + (":" + tag[i + 1..]); }
    }
  }

  lemma KnownIff(s: string)
    ensures KnownType(s) <==> s in TYPES
    ensures KnownTag(s) <==> s in TAGS
  {
  }

  lemma InfoStep(c: ClientError, ys: seq<Elem>, x: Elem, prefix: Option<string>)
    requires PrefixOk(prefix)
    ensures WithInfo(WithAll(c, ys, prefix), x, prefix) == WithAll(c, ys + [x], prefix)
  {
    hide PrefixOk, PrefixOf, Local, Qualified, FirstOf, AllTexts, OutOf;
    InfoFieldNames();
    TagIs(x.tag, prefix, "session-id");
    TagIs(x.tag, prefix, "bad-attribute");
    TagIs(x.tag, prefix, "bad-element");
    TagIs(x.tag, prefix, "bad-namespace");
    FirstSnoc(ys, x, Qualified(prefix, "session-id"), None);
    TextsSnoc(ys, x, Qualified(prefix, "bad-attribute"));
    TextsSnoc(ys, x, Qualified(prefix, "bad-element"));
    TextsSnoc(ys, x, Qualified(prefix, "bad-namespace"));
    OutSnoc(ys, x, prefix);
  }

  lemma {:induction false} InfosStep(c: ClientError, ys: seq<Elem>, zs: seq<Elem>, prefix: Option<string>)
    requires PrefixOk(prefix)
    ensures WithInfos(WithAll(c, ys, prefix), zs, prefix) == WithAll(c, ys + zs, prefix)
    decreases |zs|
  {
    hide PrefixOk, WithInfo, WithAll;
    if zs == [] {
      assert ys + zs == ys;
    } else {
      var n := |zs| - 1;
      InfosStep(c, ys, zs[..n], prefix);
      InfoStep(c, ys + zs[..n], zs[n], prefix);
      assert (ys + zs[..n]) + [zs[n]] == ys + zs;
    }
  }

  /** What a child that is not `<error-info>` adds. */
  lemma HeadStep(xs: seq<Elem>, x: Elem, prefix: Option<string>)
    requires PrefixOk(prefix) && x.tag != Qualified(prefix, "error-info")
    ensures WithChild(Heads(xs, prefix), x, prefix) == Heads(xs + [x], prefix)
  {
    hide PrefixOk, PrefixOf, Local, Qualified, FirstOf, AttrValue, KnownType, KnownTag;
    FieldNames();
    TagIs(x.tag, prefix, "error-type");
    TagIs(x.tag, prefix, "error-tag");
    TagIs(x.tag, prefix, "error-severity");
    TagIs(x.tag, prefix, "error-app-tag");
    TagIs(x.tag, prefix, "error-path");
    TagIs(x.tag, prefix, "error-message");
    TagIs(x.tag, prefix, "error-info");
    FirstSnoc(xs, x, Qualified(prefix, "error-type"), Some(TYPES));
    FirstSnoc(xs, x, Qualified(prefix, "error-tag"), Some(TAGS));
    FirstSnoc(xs, x, Qualified(prefix, "error-severity"), Some(SEVERITIES));
    FirstSnoc(xs, x, Qualified(prefix, "error-app-tag"), None);
    FirstSnoc(xs, x, Qualified(prefix, "error-path"), None);
    FirstSnoc(xs, x, Qualified(prefix, "error-message"), None);
    KnownIff(x.text);
  }

  lemma InfoIsNoHead(xs: seq<Elem>, x: Elem, prefix: Option<string>)
    requires PrefixOk(prefix) && x.tag == Qualified(prefix, "error-info")
    ensures Heads(xs + [x], prefix) == Heads(xs, prefix)
  {
    hide PrefixOk, PrefixOf, Local, Qualified, FirstOf, FieldOf;
    HeadNames(x.tag, prefix);
    FirstSnoc(xs, x, Qualified(prefix, "error-type"), Some(TYPES));
    FirstSnoc(xs, x, Qualified(prefix, "error-tag"), Some(TAGS));
    FirstSnoc(xs, x, Qualified(prefix, "error-severity"), Some(SEVERITIES));
    FirstSnoc(xs, x, Qualified(prefix, "error-app-tag"), None);
    FirstSnoc(xs, x, Qualified(prefix, "error-path"), None);
    FirstSnoc(xs, x, Qualified(prefix, "error-message"), None);
  }

  /** `<error-info>` is none of the others. */
  lemma HeadNames(tag: string, prefix: Option<string>)
    requires PrefixOk(prefix) && tag == Qualified(prefix, "error-info")
    ensures tag != Qualified(prefix, "error-type") && tag != Qualified(prefix, "error-tag")
    ensures tag != Qualified(prefix, "error-severity") && tag != Qualified(prefix, "error-app-tag")
    ensures tag != Qualified(prefix, "error-path") && tag != Qualified(prefix, "error-message")
  {
    hide PrefixOk, PrefixOf, Local, Qualified;
    FieldNames();
    TagIs(tag, prefix, "error-type");
    TagIs(tag, prefix, "error-tag");
    TagIs(tag, prefix, "error-severity");
    TagIs(tag, prefix, "error-app-tag");
    TagIs(tag, prefix, "error-path");
    TagIs(tag, prefix, "error-message");
    TagIs(tag, prefix, "error-info");
  }

  /** The fields that are not from `<error-info>` are set beside those that are. */
  lemma BesideInfo(h: ClientError, ys: seq<Elem>, x: Elem, prefix: Option<string>)
    requires PrefixOk(prefix) && x.tag != Qualified(prefix, "error-info")
    ensures WithChild(WithAll(h, ys, prefix), x, prefix) == WithAll(WithChild(h, x, prefix), ys, prefix)
  {
    hide PrefixOk, PrefixOf, Local, Qualified, FirstText, AllTexts, OutOf, KnownTag, KnownType, AttrValue;
    FieldNames();
    TagIs(x.tag, prefix, "error-info");
  }

  lemma InfoChild(c: ClientError, x: Elem, prefix: Option<string>)
    requires PrefixOk(prefix) && x.tag == Qualified(prefix, "error-info")
    ensures WithChild(c, x, prefix) == WithInfos(c, x.kids, prefix)
  {
    hide PrefixOk, PrefixOf, Local, Qualified, WithInfos, KnownTag, KnownType, AttrValue;
    FieldNames();
    TagIs(x.tag, prefix, "error-info");
  }

  /** For every list of children: each field holds the first allowed value of its name in the base namespace, and the
      lists hold all values of theirs, in order, from all `<error-info>` elements; everything else is left aside. */
  lemma {:induction false} EveryField(xs: seq<Elem>, prefix: Option<string>)
    requires PrefixOk(prefix)
    ensures WithChildren(BLANK, xs, prefix)
         == WithAll(Heads(xs, prefix), Inside(xs, Qualified(prefix, "error-info")), prefix)
    decreases |xs|
  {
    hide PrefixOk, Qualified, WithChild, WithInfos, WithAll, Heads;
    var info := Qualified(prefix, "error-info");
    if xs == [] {
      NothingCollected(prefix);
    } else {
      var n := |xs| - 1;
      var ys, x := xs[..n], xs[n];
      assert xs == ys + [x];
      EveryField(ys, prefix);
      InsideSnoc(ys, x, info);
      if x.tag == info {
        InfoChild(WithChildren(BLANK, ys, prefix), x, prefix);
        InfosStep(Heads(ys, prefix), Inside(ys, info), x.kids, prefix);
        InfoIsNoHead(ys, x, prefix);
      } else {
        BesideInfo(Heads(ys, prefix), Inside(ys, info), x, prefix);
        HeadStep(ys, x, prefix);
        assert Inside(ys, info) + [] == Inside(ys, info);
      }
    }
  }

  lemma NothingCollected(prefix: Option<string>)
    ensures WithAll(Heads([], prefix), [], prefix) == BLANK
  {
  }
}
