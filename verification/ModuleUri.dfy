/** The capability URI of a YANG module (section 5.6.4 of RFC 6020): `nc_server_get_cpblts_version` of
    `session.c` prints it, `build_schema_info_cpblts` of `session_client.c` reads it. */
module ModuleUri {
  import opened CText
  import opened YangFeatures

  const NC_CPBLT_BUF_LEN := 4096

  /** A module as its capability shows it; `deviators` are the modules that deviate it, if it is deviated. */
  datatype Module = Module(ns: string, name: string, revision: Option<string>, features: Features,
                           deviators: Option<seq<string>>)

  /** What the client keeps of a module. */
  datatype SchemaInfo = SchemaInfo(name: string, revision: Option<string>, features: seq<string>)

  function Join(names: seq<string>): string {
    if names == [] then ""
    else if |names| == 1 then names[0]
    else Join(names[..|names| - 1]) + ("," + names[|names| - 1])
  }

  // ----- printing -----

  function Optional(keyword: string, value: Option<string>): string {
    if value.Some? then keyword + value.value else ""
  }

  /** The parts that the text of a capability is put together from, lists already joined. */
  datatype Parts = Parts(ns: string, name: string, revision: Option<string>, features: Option<string>,
                         deviations: Option<string>)

  function PartsText(p: Parts): string {
    p.ns + ("?module=" + (p.name + Optional("&revision=", p.revision)))
    + Optional("&features=", p.features) + Optional("&deviations=", p.deviations)
  }

  function HeadText(m: Module): string {
    m.ns + ("?module=" + (m.name + Optional("&revision=", m.revision)))
  }

  function EnabledFeatures(m: Module): seq<string> {
    EnabledNames(All(m.features))
  }

  /** All of a module. */
  function WholeParts(m: Module): Parts {
    Parts(m.ns, m.name, m.revision,
          if EnabledFeatures(m) == [] then None else Some(Join(EnabledFeatures(m))),
          if m.deviators.Some? then Some(Join(m.deviators.value)) else None)
  }

  function UriText(m: Module): string {
    PartsText(WholeParts(m))
  }

  lemma JoinSnoc(names: seq<string>, x: string)
    ensures Join(names + [x]) == if names == [] then x else Join(names) + ("," + x)
  {
    assert (names + [x])[..|names|] == names;
  }

  /** The names that a list of the printer takes into a buffer that already holds `len` characters. The loop
      over the features stops at the first name that does not fit; the one over the deviating modules skips it. */
  function Kept(len: nat, names: seq<string>, first: bool, stops: bool): (r: seq<string>)
    ensures |r| <= |names|
    decreases |names|
  {
    if names == [] then []
    else if len + 1 + |names[0]| >= NC_CPBLT_BUF_LEN then
      if stops then [] else Kept(len, names[1..], first, stops)
    else [names[0]] + Kept(len + (if first then 0 else 1) + |names[0]|, names[1..], false, stops)
  }

  /** The characters of a list, each name but the first with its comma. */
  function Length(names: seq<string>, first: bool): nat {
    if names == [] then 0 else (if first then 0 else 1) + |names[0]| + Length(names[1..], false)
  }

  lemma {:induction false} LengthSnoc(names: seq<string>, x: string, first: bool)
    ensures Length(names + [x], first) == Length(names, first) + (if names == [] && first then 0 else 1) + |x|
  {
    if names == [] {
      assert (names + [x])[1..] == [];
    } else {
      LengthSnoc(names[1..], x, false);
      assert (names + [x])[1..] == names[1..] + [x];
    }
  }

  lemma {:induction false} JoinLength(names: seq<string>)
    ensures |Join(names)| == Length(names, true)
  {
    if names == [] {
    } else {
      var n := |names| - 1;
      assert names[..n] + [names[n]] == names;
      JoinLength(names[..n]);
      JoinSnoc(names[..n], names[n]);
      LengthSnoc(names[..n], names[n], true);
    }
  }

  lemma {:induction false} KeptWhole(len: nat, names: seq<string>, first: bool, stops: bool)
    requires names != []
    ensures Kept(len, names, first, stops) == names
       <==> len + Length(names, first) + (if first && |names| == 1 then 1 else 0) < NC_CPBLT_BUF_LEN
    decreases |names|
  {
    var rest := names[1..];
    assert names == [names[0]] + rest;
    if rest != [] {
      KeptWhole(len + (if first then 0 else 1) + |names[0]|, rest, false, stops);
    }
  }

  /** Every name of a list is printed if and only if the list fits the buffer; a single name needs one character
      more than it takes. */
  lemma AllKeptIff(len: nat, names: seq<string>, stops: bool)
    requires names != []
    ensures Kept(len, names, true, stops) == names
       <==> len + |Join(names)| + (if |names| == 1 then 1 else 0) < NC_CPBLT_BUF_LEN
  {
    JoinLength(names);
    KeptWhole(len, names, true, stops);
  }

  /** Which names of a list are printed when not all fit: each that fits with a character to spare behind those printed
      before it, and among the features none behind the first that does not. */
  lemma {:induction false} KeptSnoc(len: nat, names: seq<string>, x: string, first: bool, stops: bool)
    ensures var k := Kept(len, names, first, stops);
      Kept(len, names + [x], first, stops)
      == if (stops && k != names) || len + Length(k, first) + 1 + |x| >= NC_CPBLT_BUF_LEN then k else k + [x]
    decreases |names|
  {
    hide Kept, Length;
    if names == [] {
      assert [] + [x] == [x] + [];
      KeptCons(len, x, [], first, stops);
      KeptNothing(len, first, stops);
    } else {
      var y, rest := names[0], names[1..];
      var more := len + (if first then 0 else 1) + |y|;
      assert names == [y] + rest && names + [x] == [y] + (rest + [x]);
      KeptCons(len, y, rest, first, stops);
      KeptCons(len, y, rest + [x], first, stops);
      if len + 1 + |y| < NC_CPBLT_BUF_LEN {
        KeptSnoc(more, rest, x, false, stops);
        var k := Kept(more, rest, false, stops);
        KeptLength(y, k, first);
        SameFront(y, k, rest);
        assert [y] + (k + [x]) == ([y] + k) + [x];
      } else if !stops {
        KeptSnoc(len, rest, x, first, stops);
      }
    }
  }

  lemma KeptNothing(len: nat, first: bool, stops: bool)
    ensures Kept(len, [], first, stops) == [] && Length([], first) == 0
  {
  }

  lemma SameFront(y: string, k: seq<string>, rest: seq<string>)
    ensures [y] + k == [y] + rest <==> k == rest
  {
    if [y] + k == [y] + rest { assert k == ([y] + k)[1..] && rest == ([y] + rest)[1..]; }
  }

  lemma KeptCons(len: nat, y: string, rest: seq<string>, first: bool, stops: bool)
    ensures Kept(len, [y] + rest, first, stops)
         == if len + 1 + |y| >= NC_CPBLT_BUF_LEN then if stops then [] else Kept(len, rest, first, stops)
            else [y] + Kept(len + (if first then 0 else 1) + |y|, rest, false, stops)
  {
    assert ([y] + rest)[1..] == rest;
  }

  lemma KeptLength(name: string, kept: seq<string>, first: bool)
    ensures Length([name] + kept, first) == (if first then 0 else 1) + |name| + Length(kept, false)
  {
    assert ([name] + kept)[1..] == kept;
  }

  /** Both loops of the printer. */
  method AppendList(str: string, names: seq<string>, stops: bool) returns (r: string)
    requires |str| < NC_CPBLT_BUF_LEN
    ensures r == str + Join(Kept(|str|, names, true, stops)) && |r| < NC_CPBLT_BUF_LEN
  {
    hide Join, Kept;
    r := str;
    ghost var kept := [];
    var i, count := 0, 0;
    assert Join([]) == "" by { JoinLength([]); }
    assert names[0..] == names;
    assert [] + Kept(|str|, names, true, stops) == Kept(|str|, names, true, stops);
    while i < |names|
      invariant i <= |names| && count == |kept| && r == str + Join(kept) && |r| < NC_CPBLT_BUF_LEN
      invariant kept + Kept(|r|, names[i..], kept == [], stops) == Kept(|str|, names, true, stops)
    {
      KeptFirst(|r|, names, i, kept == [], stops);
      if |r| + 1 + |names[i]| >= NC_CPBLT_BUF_LEN {
        if stops {
          assert kept + [] == kept;
          return;
        }
        i := i + 1;
        continue;
      }
      JoinSnoc(kept, names[i]);
      ghost var later := Kept(|r| + (if kept == [] then 0 else 1) + |names[i]|, names[i + 1..], false, stops);
      Regroup(kept, names[i], later);
      if count > 0 {
        r := r + ",";
      }
      r := r + names[i];
      kept := kept + [names[i]];
      count := count + 1;
      i := i + 1;
    }
    KeptNone(|r|, names[i..], kept == [], stops);
    assert kept + [] == kept;
  }

  lemma Regroup(kept: seq<string>, name: string, later: seq<string>)
    ensures kept + ([name] + later) == kept + [name] + later
  {
  }

  lemma KeptNone(len: nat, names: seq<string>, first: bool, stops: bool)
    requires names == []
    ensures Kept(len, names, first, stops) == []
  {
  }

  lemma KeptFirst(len: nat, names: seq<string>, i: nat, first: bool, stops: bool)
    requires i < |names|
    ensures Kept(len, names[i..], first, stops) ==
      if len + 1 + |names[i]| >= NC_CPBLT_BUF_LEN then
        if stops then [] else Kept(len, names[i + 1..], first, stops)
      else [names[i]] + Kept(len + (if first then 0 else 1) + |names[i]|, names[i + 1..], false, stops)
  {
    var rest := names[i..];
    assert rest[0] == names[i] && rest[1..] == names[i + 1..];
  }

  /** What the printer leaves in its buffer. */
  function PrintedFeatures(head: string, names: seq<string>): string {
    if names == [] then head
    else
      var str := head + "&features=";
      str + Join(Kept(|str|, names, true, true))
  }

  function PrintedDeviations(head: string, deviators: Option<seq<string>>): string {
    if deviators.None? then head
    else
      var str := head + "&deviations=";
      str + Join(Kept(|str|, deviators.value, true, false))
  }

  function PrintedUri(m: Module): string {
    PrintedDeviations(PrintedFeatures(HeadText(m), EnabledFeatures(m)), m.deviators)
  }

  /** What is printed without a look at the buffer's length fits it: the front part and the two keywords. */
  predicate KeywordsFit(m: Module) {
    && |HeadText(m)| + (if EnabledFeatures(m) == [] then 0 else 10) < NC_CPBLT_BUF_LEN
    && |PrintedFeatures(HeadText(m), EnabledFeatures(m))| + (if m.deviators.None? then 0 else 12) < NC_CPBLT_BUF_LEN
  }

  /** The module part of `nc_server_get_cpblts_version`. */
  method PrintUri(m: Module) returns (str: string)
    requires Separate(Arrays(m.features)) && KeywordsFit(m)
    ensures str == PrintedUri(m) && |str| < NC_CPBLT_BUF_LEN
  {
    hide Join, Kept, Separate, EnabledNames, All, HeadText;
    str := HeadText(m);
    var names := CollectEnabled(m.features);
    if names != [] {
      str := AppendList(str + "&features=", names, true);
    }
    if m.deviators.Some? {
      str := AppendList(str + "&deviations=", m.deviators.value, false);
    }
  }

  /** The features that are printed. */
  function KeptFeatures(m: Module): seq<string> {
    Kept(|HeadText(m) + "&features="|, EnabledFeatures(m), true, true)
  }

  function KeptDeviators(m: Module): seq<string>
    requires m.deviators.Some?
  {
    Kept(|PrintedFeatures(HeadText(m), EnabledFeatures(m)) + "&deviations="|, m.deviators.value, true, false)
  }

  /** The parts of a module that are printed. */
  function PrintedParts(m: Module): Parts {
    Parts(m.ns, m.name, m.revision,
          if EnabledFeatures(m) == [] then None else Some(Join(KeptFeatures(m))),
          if m.deviators.Some? then Some(Join(KeptDeviators(m))) else None)
  }

  lemma PrintedAsParts(m: Module)
    ensures PrintedUri(m) == PartsText(PrintedParts(m))
  {
    hide Join, Kept, EnabledFeatures, HeadText;
    assert HeadText(m) == m.ns + ("?module=" + (m.name + Optional("&revision=", m.revision))) by { HeadOf(m); }
    if EnabledFeatures(m) != [] {
      Glue(HeadText(m), "&features=", Join(KeptFeatures(m)));
    }
    var str := PrintedFeatures(HeadText(m), EnabledFeatures(m));
    if m.deviators.Some? {
      Glue(str, "&deviations=", Join(KeptDeviators(m)));
    }
  }

  lemma HeadOf(m: Module)
    ensures HeadText(m) == m.ns + ("?module=" + (m.name + Optional("&revision=", m.revision)))
  {
  }

  /** A capability shorter than the buffer by more than one character is printed whole. */
  lemma PrintedWhole(m: Module)
    requires |UriText(m)| + 1 < NC_CPBLT_BUF_LEN
    ensures KeywordsFit(m) && PrintedUri(m) == UriText(m)
  {
    hide Join, Kept, EnabledFeatures, HeadText;
    HeadOf(m);
    var names, head := EnabledFeatures(m), HeadText(m);
    if names != [] {
      Glue(head, "&features=", Join(names));
      AllKeptIff(|head + "&features="|, names, true);
    }
    var str := head + Optional("&features=", WholeParts(m).features);
    assert PrintedFeatures(head, names) == str;
    if m.deviators.Some? {
      DeviationsWhole(str, m.deviators.value);
    }
  }

  lemma DeviationsWhole(str: string, names: seq<string>)
    requires |str| + |"&deviations=" + Join(names)| + 1 < NC_CPBLT_BUF_LEN
    ensures PrintedDeviations(str, Some(names)) == str + ("&deviations=" + Join(names))
  {
    hide Join;
    Glue(str, "&deviations=", Join(names));
    if names != [] {
      AllKeptIff(|str + "&deviations="|, names, false);
    }
  }

  lemma Glue(a: string, b: string, c: string)
    ensures a + b + c == a + (b + c) && |a + (b + c)| == |a| + |b| + |c|
  {
  }

  // ----- reading -----

  /** `strstr` from index `i` on */
  function Find(s: string, pat: string, i: nat): (r: Option<nat>)
    requires i <= |s|
    ensures r.Some? ==> i <= r.value && Occurs(s, r.value, pat)
    decreases |s| - i
  {
    if Occurs(s, i, pat) then Some(i)
    else if i == |s| then None
    else Find(s, pat, i + 1)
  }

  /** The end of the value that starts at `i`: the next '&' or the end. */
  function ValueEnd(s: string, i: nat): (r: nat)
    requires i <= |s|
    ensures i <= r <= |s|
    decreases |s| - i
  {
    if i == |s| || s[i] == '&' then i else ValueEnd(s, i + 1)
  }

  function ValueAt(s: string, i: nat): string
    requires i <= |s|
  {
    s[i..ValueEnd(s, i)]
  }

  function ValueOf(s: string, pat: string): Option<string> {
    match Find(s, pat, 0)
    case None => None
    case Some(i) => Some(ValueAt(s, i + |pat|))
  }

  /** The parts of a text between commas. */
  function Split(s: string): seq<string> {
    SplitFrom(s, "")
  }

  function SplitFrom(s: string, part: string): seq<string>
    decreases |s|
  {
    if s == "" then [part]
    else if s[0] == ',' then [part] + SplitFrom(s[1..], "")
    else SplitFrom(s[1..], part + [s[0]])
  }

  function ParseUri(cap: string): Option<SchemaInfo> {
    match Find(cap, "module=", 0)
    case None => None
    case Some(i) =>
      var s := cap[i..];
      var features := ValueOf(s, "features=");
      Some(SchemaInfo(ValueAt(s, 7), ValueOf(s, "revision="), if features.Some? then Split(features.value) else []))
  }

  function ParseUris(caps: seq<string>): seq<SchemaInfo> {
    if caps == [] then []
    else
      var n := |caps| - 1;
      ParseUris(caps[..n]) + match ParseUri(caps[n]) case None => [] case Some(x) => [x]
  }

  /** The loop over the features of a capability: `ptr` runs up to '&' or the end, `ptr2` marks the part. */
  method SplitFeatures(s: string, start: nat) returns (features: seq<string>)
    requires start <= |s|
    ensures features == Split(ValueAt(s, start))
  {
    features := [];
    var ptr, ptr2 := start, start;
    ghost var e := ValueEnd(s, start);
    assert s[start..start] == "";
    while ptr < |s| && s[ptr] != '&'
      invariant start <= ptr2 <= ptr <= e && ValueEnd(s, ptr) == e
      invariant Split(ValueAt(s, start)) == features + SplitFrom(s[ptr..e], s[ptr2..ptr])
      decreases |s| - ptr
    {
      assert ptr < e;
      assert s[ptr..e][0] == s[ptr] && s[ptr..e][1..] == s[ptr + 1..e];
      if s[ptr] == ',' {
        features := features + [s[ptr2..ptr]];
        ptr2 := ptr + 1;
        assert s[ptr2..ptr + 1] == "";
      } else {
        assert s[ptr2..ptr + 1] == s[ptr2..ptr] + [s[ptr]];
      }
      ptr := ptr + 1;
    }
    assert ValueEnd(s, ptr) == ptr;
    assert s[ptr..e] == "";
    features := features + [s[ptr2..ptr]];
  }

  /** `build_schema_info_cpblts` */
  method BuildSchemaInfo(caps: seq<string>) returns (result: seq<SchemaInfo>)
    ensures result == ParseUris(caps)
  {
    hide Find, ValueAt, Split;
    result := [];
    var u := 0;
    assert caps[..0] == [];
    while u < |caps|
      invariant u <= |caps| && result == ParseUris(caps[..u])
    {
      assert caps[..u + 1][..u] == caps[..u];
      var i := Find(caps[u], "module=", 0);
      if i.Some? {
        FoundInRange(caps[u], "module=", i.value);
        var s := caps[u][i.value..];
        var name := ValueAt(s, 7);
        var revision := None;
        var ptr := Find(s, "revision=", 0);
        if ptr.Some? {
          FoundInRange(s, "revision=", ptr.value);
          revision := Some(ValueAt(s, ptr.value + 9));
        }
        var features := [];
        ptr := Find(s, "features=", 0);
        if ptr.Some? {
          FoundInRange(s, "features=", ptr.value);
          features := SplitFeatures(s, ptr.value + 9);
        }
        result := result + [SchemaInfo(name, revision, features)];
      }
      u := u + 1;
    }
    assert caps[..|caps|] == caps;
  }

  lemma FoundInRange(s: string, pat: string, i: nat)
    requires Find(s, pat, 0) == Some(i)
    ensures i + |pat| <= |s|
  {
  }

  // ----- a query text: key=value pairs with '&' between them -----

  datatype Pair = Pair(key: string, value: string)

  function Query(pairs: seq<Pair>): string {
    if pairs == [] then ""
    else pairs[0].key + ("=" + (pairs[0].value + if |pairs| == 1 then "" else "&" + Query(pairs[1..])))
  }

  predicate Bare(s: string) {
    '=' !in s && '&' !in s
  }

  predicate BarePairs(pairs: seq<Pair>) {
    forall i :: 0 <= i < |pairs| ==> Bare(pairs[i].key) && Bare(pairs[i].value)
  }

  predicate EndsIn(s: string, suffix: string) {
    |suffix| <= |s| && s[|s| - |suffix|..] == suffix
  }

  /** No key but `key` itself ends in `key`. */
  predicate Distinguished(pairs: seq<Pair>, key: string) {
    forall i :: 0 <= i < |pairs| && EndsIn(pairs[i].key, key) ==> pairs[i].key == key
  }

  /** The value of the first pair with this key. */
  function Lookup(pairs: seq<Pair>, key: string): Option<string> {
    if pairs == [] then None
    else if pairs[0].key == key then Some(pairs[0].value)
    else Lookup(pairs[1..], key)
  }

  lemma {:induction false} FindSkip(s: string, pat: string, i: nat, j: nat)
    requires i <= j <= |s| && forall k :: i <= k < j ==> !Occurs(s, k, pat)
    ensures Find(s, pat, i) == Find(s, pat, j)
    decreases j - i
  {
    if i < j {
      FindSkip(s, pat, i + 1, j);
    }
  }

  lemma {:induction false} FindBehind(a: string, b: string, pat: string, i: nat)
    requires i <= |b| && pat != ""
    ensures Find(a + b, pat, |a| + i) == match Find(b, pat, i) case None => None case Some(k) => Some(|a| + k)
    decreases |b| - i
  {
    OccursBehind(a, b, pat, i);
    if !Occurs(b, i, pat) && i < |b| {
      FindBehind(a, b, pat, i + 1);
    }
  }

  lemma OccursBehind(a: string, b: string, pat: string, i: nat)
    ensures Occurs(a + b, |a| + i, pat) <==> Occurs(b, i, pat)
  {
  }

  lemma {:induction false} ValueBehind(a: string, b: string, i: nat)
    requires i <= |b|
    ensures ValueEnd(a + b, |a| + i) == |a| + ValueEnd(b, i)
    decreases |b| - i
  {
    if i < |b| && b[i] != '&' {
      ValueBehind(a, b, i + 1);
    }
  }

  /** A value without '&' that ends the text or is followed by '&' is read back. */
  lemma {:induction false} ValueEndsAt(s: string, i: nat, e: nat)
    requires i <= e <= |s| && (forall k :: i <= k < e ==> s[k] != '&') && (e == |s| || s[e] == '&')
    ensures ValueEnd(s, i) == e
    decreases e - i
  {
    if i < e {
      ValueEndsAt(s, i + 1, e);
    }
  }

  lemma ValueBehindText(a: string, b: string, i: nat)
    requires i <= |b|
    ensures ValueAt(a + b, |a| + i) == ValueAt(b, i)
  {
    ValueBehind(a, b, i);
    assert (a + b)[|a| + i..|a| + ValueEnd(b, i)] == b[i..ValueEnd(b, i)];
  }

  lemma ValueOfBehind(a: string, b: string, pat: string)
    requires pat != "" && forall k :: 0 <= k < |a| ==> !Occurs(a + b, k, pat)
    ensures ValueOf(a + b, pat) == ValueOf(b, pat)
  {
    hide Occurs, Find, ValueAt;
    FindSkip(a + b, pat, 0, |a|);
    FindBehind(a, b, pat, 0);
    var r := Find(b, pat, 0);
    if r.Some? {
      FoundInRange(b, pat, r.value);
      ValueBehindText(a, b, r.value + |pat|);
    }
  }

  lemma OccursWithout(t: string, i: nat, pat: string, c: char)
    requires Occurs(t, i, pat) && c !in pat
    ensures forall p :: i <= p < i + |pat| ==> t[p] != c
  {
    forall p | i <= p < i + |pat| ensures t[p] != c {
      assert t[i + (p - i)] == pat[p - i];
    }
  }

  /** Within the first pair and its '&' a key is found only if it is that pair's, at the front. */
  lemma OnlyAtFront(k: string, v: string, rest: string, key: string, i: nat)
    requires Bare(k) && Bare(v) && Bare(key) && (EndsIn(k, key) ==> k == key)
    requires rest == "" || rest[0] == '&'
    requires i <= |k| + 1 + |v| && Occurs(k + ("=" + (v + rest)), i, key + "=")
    ensures i == 0 && k == key
  {
    var t := k + ("=" + (v + rest));
    OccursWithout(t, i, key + "=", '&');
    assert rest != "" ==> t[|k| + 1 + |v|] == '&';
    var j := i + |key|;
    assert (key + "=")[|key|] == '=' && t[j] == '=';
    assert j == |k|;
    forall n | 0 <= n < |key| ensures k[i + n] == key[n] {
      assert (key + "=")[n] == key[n] && t[i + n] == k[i + n];
    }
    assert k[|k| - |key|..] == key;
  }

  /** Looking for `key=` in a query text finds the value of the first pair with that key. */
  lemma {:induction false} QueryLookup(pairs: seq<Pair>, key: string)
    requires BarePairs(pairs) && Bare(key) && Distinguished(pairs, key)
    ensures ValueOf(Query(pairs), key + "=") == Lookup(pairs, key)
  {
    if pairs == [] {
    } else {
      var k, v, rest := pairs[0].key, pairs[0].value, if |pairs| == 1 then "" else "&" + Query(pairs[1..]);
      if k == key {
        FrontValue(k, v, rest);
      } else {
        PastFront(k, v, rest, key);
        if |pairs| > 1 {
          assert k + ("=" + (v + rest)) == (k + ("=" + (v + "&"))) + Query(pairs[1..]);
          ValueOfBehind(k + ("=" + (v + "&")), Query(pairs[1..]), key + "=");
          QueryLookup(pairs[1..], key);
        }
      }
    }
  }

  lemma FrontValue(k: string, v: string, rest: string)
    requires Bare(v) && (rest == "" || rest[0] == '&')
    ensures ValueOf(k + ("=" + (v + rest)), k + "=") == Some(v)
  {
    var t := k + ("=" + (v + rest));
    assert t == (k + "=") + (v + rest);
    assert Occurs(t, 0, k + "=");
    ValueEndsAt(t, |k| + 1, |k| + 1 + |v|);
    assert t[|k| + 1..|k| + 1 + |v|] == v;
  }

  lemma PastFront(k: string, v: string, rest: string, key: string)
    requires Bare(k) && Bare(v) && Bare(key) && (EndsIn(k, key) ==> k == key) && k != key
    requires rest == "" || rest[0] == '&'
    ensures forall i :: 0 <= i <= |k| + 1 + |v| ==> !Occurs(k + ("=" + (v + rest)), i, key + "=")
    ensures rest == "" ==> ValueOf(k + ("=" + (v + rest)), key + "=") == None
  {
    var t := k + ("=" + (v + rest));
    forall i: nat | 0 <= i <= |k| + 1 + |v| ensures !Occurs(t, i, key + "=") {
      if Occurs(t, i, key + "=") {
        OnlyAtFront(k, v, rest, key, i);
      }
    }
    if rest == "" {
      FindSkip(t, key + "=", 0, |t|);
    }
  }

  // ----- the list of features -----

  lemma {:induction false} SplitPlain(s: string, part: string)
    requires ',' !in s
    ensures SplitFrom(s, part) == [part + s]
    decreases |s|
  {
    if s == "" {
      assert part + s == part;
    } else {
      SplitPlain(s[1..], part + [s[0]]);
      assert part + [s[0]] + s[1..] == part + s;
    }
  }

  lemma {:induction false} SplitSnoc(s: string, part: string, x: string)
    requires ',' !in x
    ensures SplitFrom(s + ("," + x), part) == SplitFrom(s, part) + [x]
    decreases |s|
  {
    var t := s + ("," + x);
    if s == "" {
      assert t[0] == ',' && t[1..] == x;
      SplitPlain(x, "");
      assert "" + x == x;
    } else {
      assert t[0] == s[0] && t[1..] == s[1..] + ("," + x);
      if s[0] == ',' {
        SplitSnoc(s[1..], "", x);
      } else {
        SplitSnoc(s[1..], part + [s[0]], x);
      }
    }
  }

  lemma {:induction false} SplitJoin(names: seq<string>)
    requires names != [] && forall i :: 0 <= i < |names| ==> ',' !in names[i]
    ensures Split(Join(names)) == names
  {
    var n := |names| - 1;
    if n == 0 {
      SplitPlain(names[0], "");
      assert "" + names[0] == names[0];
    } else {
      SplitJoin(names[..n]);
      SplitSnoc(Join(names[..n]), "", names[n]);
      assert names[..n] + [names[n]] == names;
    }
  }

  // ----- the round trip -----

  predicate Identifier(s: string) {
    Bare(s) && ',' !in s
  }

  predicate Identifiers(names: seq<string>) {
    forall i :: 0 <= i < |names| ==> Identifier(names[i])
  }

  predicate Printable(m: Module) {
    && Identifier(m.name)
    && (m.revision.Some? ==> Identifier(m.revision.value))
    && Identifiers(EnabledFeatures(m))
    && (m.deviators.Some? ==> Identifiers(m.deviators.value))
  }

  predicate OptionalBare(s: Option<string>) {
    s.Some? ==> Bare(s.value)
  }

  predicate BareParts(p: Parts) {
    Bare(p.name) && OptionalBare(p.revision) && OptionalBare(p.features) && OptionalBare(p.deviations)
  }

  /** What the client should know of the module. */
  function InfoOf(m: Module): SchemaInfo {
    SchemaInfo(m.name, m.revision, EnabledFeatures(m))
  }

  lemma {:induction false} JoinBare(names: seq<string>)
    requires Identifiers(names)
    ensures Bare(Join(names))
  {
    if |names| > 1 {
      JoinBare(names[..|names| - 1]);
    }
  }

  function Perhaps(key: string, value: Option<string>): seq<Pair> {
    if value.Some? then [Pair(key, value.value)] else []
  }

  function LaterPairs(p: Parts): seq<Pair> {
    Perhaps("revision", p.revision) + (Perhaps("features", p.features) + (Perhaps("deviations", p.deviations) + []))
  }

  function PairsOf(p: Parts): seq<Pair> {
    [Pair("module", p.name)] + LaterPairs(p)
  }

  /** The text of pairs that follow others. */
  function Tail(pairs: seq<Pair>): string {
    if pairs == [] then "" else "&" + Query(pairs)
  }

  lemma FirstPair(key: string, value: string, pairs: seq<Pair>)
    ensures Query([Pair(key, value)] + pairs) == key + ("=" + (value + Tail(pairs)))
  {
    var p := [Pair(key, value)] + pairs;
    assert p[1..] == pairs;
  }

  lemma LaterPair(key: string, keyword: string, value: Option<string>, pairs: seq<Pair>)
    requires keyword == "&" + key + "="
    ensures Tail(Perhaps(key, value) + pairs) == Optional(keyword, value) + Tail(pairs)
  {
    hide Query;
    if value.Some? {
      FirstPair(key, value.value, pairs);
      var rest := Tail(pairs);
      assert "&" + (key + ("=" + (value.value + rest))) == ("&" + key + "=" + value.value) + rest;
    } else {
      assert Perhaps(key, value) + pairs == pairs;
    }
  }

  lemma Keywords()
    ensures "&revision=" == "&" + "revision" + "="
    ensures "&features=" == "&" + "features" + "="
    ensures "&deviations=" == "&" + "deviations" + "="
  {
  }

  lemma TailOfPairs(p: Parts)
    ensures Tail(LaterPairs(p)) == Optional("&revision=", p.revision)
                                   + (Optional("&features=", p.features) + Optional("&deviations=", p.deviations))
  {
    hide Query, Tail, Optional, Perhaps;
    Keywords();
    var d := Perhaps("deviations", p.deviations) + [];
    LaterPair("revision", "&revision=", p.revision, Perhaps("features", p.features) + d);
    LaterPair("features", "&features=", p.features, d);
    LaterPair("deviations", "&deviations=", p.deviations, []);
    NoTail(Optional("&deviations=", p.deviations));
  }

  lemma NoTail(s: string)
    ensures s + Tail([]) == s
  {
  }

  lemma Assemble(ns: string, module_: string, name: string, rev: string, fea: string, dev: string)
    ensures ns + (module_ + (name + rev)) + fea + dev == ns + (module_ + (name + (rev + (fea + dev))))
  {
  }

  lemma ModuleKeyword(s: string)
    ensures "?module=" + s == "?" + ("module" + ("=" + s))
  {
  }

  lemma UriIsQuery(p: Parts)
    ensures PartsText(p) == p.ns + ("?" + Query(PairsOf(p)))
  {
    hide Query, Tail, Optional, LaterPairs;
    var rev, fea := Optional("&revision=", p.revision), Optional("&features=", p.features);
    var dev := Optional("&deviations=", p.deviations);
    TailOfPairs(p);
    Assemble(p.ns, "?module=", p.name, rev, fea, dev);
    ModuleKeyword(p.name + (rev + (fea + dev)));
    FirstPair("module", p.name, LaterPairs(p));
  }

  lemma BareKeys()
    ensures Bare("module") && Bare("revision") && Bare("features") && Bare("deviations")
  {
  }

  lemma KeysApart(key: string, i: string)
    requires key in {"revision", "features", "deviations"} && i in {"module", "revision", "features", "deviations"}
    ensures EndsIn(i, key) ==> i == key
  {
    if key == "revision" {
      assert key[7] == 'n' && key[6] == 'o' && key[0] == 'r';
    } else if key == "features" {
      assert key[7] == 's' && key[6] == 'e';
    }
    if |i| >= |key| && EndsIn(i, key) {
      assert i[|i| - |key|..][7] == key[7] && i[|i| - |key|..][6] == key[6] && i[|i| - |key|..][0] == key[0];
    }
  }

  lemma PairsAreBare(p: Parts)
    requires BareParts(p)
    ensures BarePairs(PairsOf(p)) && Distinguished(PairsOf(p), "revision") && Distinguished(PairsOf(p), "features")
    ensures Distinguished(PairsOf(p), "deviations")
  {
    hide Bare, EndsIn;
    BareKeys();
    forall i | 0 <= i < |PairsOf(p)|
      ensures EndsIn(PairsOf(p)[i].key, "revision") ==> PairsOf(p)[i].key == "revision"
      ensures EndsIn(PairsOf(p)[i].key, "features") ==> PairsOf(p)[i].key == "features"
      ensures EndsIn(PairsOf(p)[i].key, "deviations") ==> PairsOf(p)[i].key == "deviations"
    {
      KeysApart("revision", PairsOf(p)[i].key);
      KeysApart("features", PairsOf(p)[i].key);
      KeysApart("deviations", PairsOf(p)[i].key);
    }
  }

  lemma LookupCons(key: string, value: string, rest: seq<Pair>, k: string)
    ensures Lookup([Pair(key, value)] + rest, k) == if key == k then Some(value) else Lookup(rest, k)
  {
    assert ([Pair(key, value)] + rest)[1..] == rest;
  }

  lemma KeysDiffer()
    ensures "module" != "revision" && "module" != "features" && "revision" != "features"
    ensures "deviations" != "revision" && "deviations" != "features" && "deviations" != "module"
  {
    assert "module"[0] != "revision"[0] && "module"[0] != "features"[0] && "revision"[0] != "features"[0];
    assert "deviations"[0] != "revision"[0] && "deviations"[0] != "features"[0] && "deviations"[0] != "module"[0];
  }

  lemma LookupPerhaps(key: string, value: Option<string>, rest: seq<Pair>, k: string)
    ensures Lookup(Perhaps(key, value) + rest, k) == if value.Some? && key == k then value else Lookup(rest, k)
  {
    if value.Some? {
      LookupCons(key, value.value, rest, k);
    } else {
      assert Perhaps(key, value) + rest == rest;
    }
  }

  lemma PairsHold(p: Parts)
    ensures Lookup(PairsOf(p), "revision") == p.revision && Lookup(PairsOf(p), "features") == p.features
    ensures Lookup(PairsOf(p), "deviations") == p.deviations
  {
    hide Lookup, Perhaps;
    KeysDiffer();
    HeldAs(p, "revision");
    HeldAs(p, "features");
    HeldAs(p, "deviations");
  }

  lemma HeldAs(p: Parts, k: string)
    requires k != "module"
    ensures Lookup(PairsOf(p), k)
         == if p.revision.Some? && "revision" == k then p.revision
            else if p.features.Some? && "features" == k then p.features
            else if p.deviations.Some? && "deviations" == k then p.deviations
            else None
  {
    hide Lookup, Perhaps;
    var d := Perhaps("deviations", p.deviations) + [];
    var f := Perhaps("features", p.features) + d;
    LookupPerhaps("deviations", p.deviations, [], k);
    LookupPerhaps("features", p.features, d, k);
    LookupPerhaps("revision", p.revision, f, k);
    LookupCons("module", p.name, LaterPairs(p), k);
    LookupNothing(k);
  }

  lemma LookupNothing(k: string)
    ensures Lookup([], k) == None
  {
  }

  // ----- the namespace in front -----

  /** `pat` stands somewhere in `s`. */
  predicate Contains(s: string, pat: string) {
    exists i: nat :: i <= |s| && Occurs(s, i, pat)
  }

  /** An occurrence that starts before or at the '?' lies within the namespace. */
  lemma BeforeQuestion(ns: string, q: string, i: nat, pat: string)
    requires '?' !in pat && pat != "" && i <= |ns| && Occurs(ns + ("?" + q), i, pat)
    ensures Occurs(ns, i, pat)
  {
    var t := ns + ("?" + q);
    OccursWithout(t, i, pat, '?');
    assert t[|ns|] == '?';
    forall k | 0 <= k < |pat| ensures ns[i + k] == pat[k] {
      assert t[i + k] == pat[k];
    }
  }

  lemma FoundAfterNamespace(ns: string, q: string, pat: string)
    requires '?' !in pat && pat != "" && !Contains(ns, pat) && Occurs(q, 0, pat)
    ensures Find(ns + ("?" + q), pat, 0) == Some(|ns| + 1)
  {
    hide Find, Occurs;
    var t := ns + ("?" + q);
    forall i: nat | 0 <= i < |ns| + 1 ensures !Occurs(t, i, pat) {
      if Occurs(t, i, pat) {
        BeforeQuestion(ns, q, i, pat);
      }
    }
    FindSkip(t, pat, 0, |ns| + 1);
    assert t == (ns + "?") + q;
    OccursBehind(ns + "?", q, pat, 0);
    FoundHere(t, pat, |ns| + 1);
  }

  lemma {:induction false} FindFirst(s: string, pat: string, i: nat, j: nat)
    requires j <= i <= |s| && Occurs(s, i, pat)
    ensures Find(s, pat, j).Some? && Find(s, pat, j).value <= i
    decreases i - j
  {
    if !Occurs(s, j, pat) {
      FindFirst(s, pat, i, j + 1);
    }
  }

  lemma {:induction false} ValueReaches(s: string, i: nat, e: nat)
    requires i <= e <= |s| && forall k :: i <= k < e ==> s[k] != '&'
    ensures ValueEnd(s, i) >= e
    decreases e - i
  {
    if i < e {
      ValueReaches(s, i + 1, e);
    }
  }

  // ----- the theorems -----

  lemma PatternWords()
    ensures "module=" == "module" + "=" && |"module="| == 7 && '?' !in "module="
    ensures "revision=" == "revision" + "=" && "features=" == "features" + "=" && "deviations=" == "deviations" + "="
  {
  }

  lemma TailStart(pairs: seq<Pair>)
    ensures Tail(pairs) == "" || Tail(pairs)[0] == '&'
  {
  }

  lemma QueryStart(p: Parts, q: string)
    requires q == Query(PairsOf(p)) && Bare(p.name)
    ensures Occurs(q, 0, "module=") && ValueAt(q, 7) == p.name && 7 + |p.name| <= |q|
  {
    hide Query, Tail, ValueAt, Find, LaterPairs;
    var later := LaterPairs(p);
    FirstPair("module", p.name, later);
    TailStart(later);
    PatternWords();
    FrontValue("module", p.name, Tail(later));
    assert q == ("module" + "=") + (p.name + Tail(later));
    assert Occurs(q, 0, "module" + "=");
    FoundAtFront(q, "module=");
  }

  lemma FoundAtFront(s: string, pat: string)
    requires Occurs(s, 0, pat)
    ensures Find(s, pat, 0) == Some(0)
  {
  }

  lemma QueryRead(p: Parts, q: string)
    requires BareParts(p) && q == Query(PairsOf(p))
    ensures ValueOf(q, "revision=") == p.revision && ValueOf(q, "features=") == p.features
    ensures ValueOf(q, "deviations=") == p.deviations
  {
    hide Query, PairsOf, ValueOf, Lookup, Bare, BarePairs, Distinguished;
    PatternWords();
    BareKeys();
    PairsAreBare(p);
    PairsHold(p);
    QueryLookup(PairsOf(p), "revision");
    QueryLookup(PairsOf(p), "features");
    QueryLookup(PairsOf(p), "deviations");
  }

  /** Behind a namespace without the text `module=` every part is read back. */
  lemma PartsRead(p: Parts)
    requires BareParts(p) && !Contains(p.ns, "module=")
    ensures ParseUri(PartsText(p))
         == Some(SchemaInfo(p.name, p.revision, if p.features.Some? then Split(p.features.value) else []))
  {
    hide Query, PairsOf, ValueOf, ValueAt, Split, Find, Contains, PartsText, Bare;
    var q := Query(PairsOf(p));
    UriIsQuery(p);
    PatternWords();
    QueryStart(p, q);
    FoundAfterNamespace(p.ns, q, "module=");
    var t := p.ns + ("?" + q);
    assert t[|p.ns| + 1..] == q;
    QueryRead(p, q);
  }

  lemma WholeIsBare(m: Module)
    requires Printable(m)
    ensures BareParts(WholeParts(m))
  {
    hide Join, EnabledFeatures, Bare;
    JoinBare(EnabledFeatures(m));
    if m.deviators.Some? {
      JoinBare(m.deviators.value);
    }
  }

  /** The client reads back from a capability the name, the revision and the enabled features that the server prints
      into it, for every namespace without the text `module=`. */
  lemma UriRoundTrip(m: Module)
    requires Printable(m) && !Contains(m.ns, "module=")
    ensures ParseUri(UriText(m)) == Some(InfoOf(m))
  {
    hide PartsText, ParseUri, Contains, EnabledFeatures, Join, Split;
    WholeIsBare(m);
    PartsRead(WholeParts(m));
    if EnabledFeatures(m) != [] {
      SplitJoin(EnabledFeatures(m));
    }
  }

  // ----- a namespace that contains the text `module=` -----

  /** A value that begins at `i` ends before the text does. */
  predicate EndsInside(s: string, i: nat) {
    i <= |s| && ValueEnd(s, i) < |s|
  }

  /** What `pat` finds in the text, if it finds something, is this value, and it ends there. */
  predicate Gives(s: string, pat: string, value: Option<string>) {
    match Find(s, pat, 0)
    case None => true
    case Some(i) => EndsInside(s, i + |pat|) && value == Some(ValueAt(s, i + |pat|))
  }

  /** The end of the namespace, from its first `module=` on. */
  function Confusion(ns: string): string
    requires Contains(ns, "module=")
  {
    ns[FirstIn(ns, "module=")..]
  }

  function FirstIn(s: string, pat: string): (i: nat)
    requires Contains(s, pat)
    ensures i <= |s| && Occurs(s, i, pat) && Find(s, pat, 0) == Some(i)
  {
    FoundWhere(s, pat);
    Find(s, pat, 0).value
  }

  lemma FoundWhere(s: string, pat: string)
    requires Contains(s, pat)
    ensures Find(s, pat, 0).Some? && Find(s, pat, 0).value <= |s|
  {
    var i: nat :| i <= |s| && Occurs(s, i, pat);
    FindFirst(s, pat, i, 0);
  }

  /** The end of the namespace tells the client by chance what is true of the module: it gives the name, and either no
      revision or the right one, and either no features or the right ones. */
  predicate TellsTheSame(m: Module)
    requires Contains(m.ns, "module=")
  {
    var e := Confusion(m.ns);
    && EndsInside(e, 7) && ValueAt(e, 7) == m.name
    && Gives(e, "revision=", m.revision)
    && match Find(e, "features=", 0)
       case None => true
       case Some(i) => EndsInside(e, i + 9) && Split(ValueAt(e, i + 9)) == EnabledFeatures(m)
  }

  /** Looking behind a text that is followed by '?' and a query. */
  lemma {:induction false} ValueInside(e: string, rest: string, i: nat)
    requires i <= |e| && ValueEnd(e, i) < |e|
    ensures ValueEnd(e + rest, i) == ValueEnd(e, i)
    decreases |e| - i
  {
    if e[i] != '&' { ValueInside(e, rest, i + 1); }
  }

  lemma ValueAtInside(e: string, rest: string, i: nat)
    requires EndsInside(e, i)
    ensures ValueAt(e + rest, i) == ValueAt(e, i)
  {
    ValueInside(e, rest, i);
    assert (e + rest)[i..ValueEnd(e, i)] == e[i..ValueEnd(e, i)];
  }

  /** A value that does not end in the namespace runs on over `?module=`. */
  lemma ValueRunsOver(e: string, q: string, i: nat)
    requires i <= |e| && !EndsInside(e, i) && Occurs(q, 0, "module=")
    ensures '=' in ValueAt(e + ("?" + q), i)
  {
    var t := e + ("?" + q);
    forall k | i <= k < |e| + 8 ensures t[k] != '&' {
      if k < |e| {
        FreeToEnd(e, i, k);
      } else if k > |e| {
        assert q[0 + (k - |e| - 1)] == "module="[k - |e| - 1];
      }
    }
    ValueReaches(t, i, |e| + 8);
    assert q[0 + 6] == "module="[6] && t[|e| + 7] == q[6] == '=';
    assert ValueAt(t, i)[|e| + 7 - i] == '=';
  }

  lemma FreeToEnd(e: string, i: nat, k: nat)
    requires i <= k < |e| && ValueEnd(e, i) == |e|
    ensures e[k] != '&'
  {
    ValueIsFree(e, i, k);
  }

  /** A search that finds something in the namespace stays there. */
  lemma SearchFound(e: string, q: string, pat: string, i: nat)
    requires pat != "" && '?' !in pat && Find(e, pat, 0) == Some(i)
    ensures Find(e + ("?" + q), pat, 0) == Some(i)
  {
    hide Find, Occurs;
    var t := e + ("?" + q);
    FoundInRange(e, pat, i);
    forall k: nat | k < i ensures !Occurs(t, k, pat) {
      if Occurs(t, k, pat) {
        BeforeQuestion(e, q, k, pat);
        FindFirst(e, pat, k, 0);
      }
    }
    FindSkip(t, pat, 0, i);
    OccursBefore(e, "?" + q, pat, i);
    FoundHere(t, pat, i);
  }

  lemma FoundHere(s: string, pat: string, i: nat)
    requires i <= |s| && Occurs(s, i, pat)
    ensures Find(s, pat, i) == Some(i)
  {
  }

  /** Otherwise it finds what the query holds. */
  lemma SearchNotFound(e: string, q: string, pat: string)
    requires pat != "" && '?' !in pat && Find(e, pat, 0) == None
    ensures Find(e + ("?" + q), pat, 0) == match Find(q, pat, 0) case None => None case Some(k) => Some(|e| + 1 + k)
  {
    hide Find, Occurs;
    var t := e + ("?" + q);
    forall k: nat | k < |e| + 1 ensures !Occurs(t, k, pat) {
      if Occurs(t, k, pat) {
        BeforeQuestion(e, q, k, pat);
        FindFirst(e, pat, k, 0);
      }
    }
    FindSkip(t, pat, 0, |e| + 1);
    assert t == (e + "?") + q;
    FindBehind(e + "?", q, pat, 0);
  }

  lemma OccursBefore(a: string, b: string, pat: string, i: nat)
    requires Occurs(a, i, pat)
    ensures Occurs(a + b, i, pat)
  {
  }

  /** The value that a search finds in the namespace ends there, or is not bare. */
  lemma ValueFound(e: string, q: string, pat: string, i: nat)
    requires pat != "" && '?' !in pat && Occurs(q, 0, "module=") && Find(e, pat, 0) == Some(i)
    ensures i + |pat| <= |e| && ValueOf(e + ("?" + q), pat).Some?
    ensures var v := ValueOf(e + ("?" + q), pat).value;
      if EndsInside(e, i + |pat|) then v == ValueAt(e, i + |pat|) else '=' in v
  {
    hide Find, ValueAt, ValueOf, Occurs, EndsInside, ValueEnd;
    SearchFound(e, q, pat, i);
    FoundInRange(e, pat, i);
    ValueOfFound(e + ("?" + q), pat, i);
    if EndsInside(e, i + |pat|) {
      ValueAtInside(e, "?" + q, i + |pat|);
    } else {
      ValueRunsOver(e, q, i + |pat|);
    }
  }

  lemma ValueOfFound(s: string, pat: string, i: nat)
    requires Find(s, pat, 0) == Some(i)
    ensures i + |pat| <= |s| && ValueOf(s, pat) == Some(ValueAt(s, i + |pat|))
  {
    hide Find, ValueAt;
    FoundInRange(s, pat, i);
  }

  lemma ValueNotFound(e: string, q: string, pat: string)
    requires pat != "" && '?' !in pat && Find(e, pat, 0) == None
    ensures ValueOf(e + ("?" + q), pat) == ValueOf(q, pat)
  {
    hide Find, ValueAt, Occurs;
    SearchNotFound(e, q, pat);
    var r := Find(q, pat, 0);
    if r.Some? {
      FoundInRange(q, pat, r.value);
      assert e + ("?" + q) == (e + "?") + q;
      ValueBehindText(e + "?", q, r.value + |pat|);
    }
  }

  /** A character that is no comma is in some part of the text that holds it. */
  lemma {:induction false} PartHolds(s: string, part: string, c: char) returns (k: nat)
    requires c != ',' && (c in s || c in part)
    ensures k < |SplitFrom(s, part)| && c in SplitFrom(s, part)[k]
    decreases |s|
  {
    if s == "" || (s[0] == ',' && c in part) {
      k := 0;
    } else if s[0] == ',' {
      k := PartHolds(s[1..], "", c);
      k := k + 1;
    } else {
      assert c in s ==> c == s[0] || c in s[1..];
      k := PartHolds(s[1..], part + [s[0]], c);
    }
  }

  lemma NoIdentifiers(v: string, names: seq<string>)
    requires '=' in v && Identifiers(names)
    ensures Split(v) != names
  {
    hide SplitFrom;
    var k := PartHolds(v, "", '=');
  }

  /** What the client reads where the namespace contains `module=`. */
  lemma ConfusedRead(m: Module)
    requires Printable(m) && Contains(m.ns, "module=")
    ensures ParseUri(UriText(m)) == Some(InfoOf(m)) <==> TellsTheSame(m)
  {
    hide Query, PairsOf, PartsText, ValueAt, ValueOf, Find, Contains, EnabledFeatures, Join, Bare, Split, Occurs, EndsInside,
      UriText, Identifiers;
    var p, e := WholeParts(m), Confusion(m.ns);
    var q := Query(PairsOf(p));
    WholeIsBare(m);
    UriOfWhole(m);
    UriIsQuery(p);
    QueryStart(p, q);
    QueryRead(p, q);
    WholeNamed(m);
    var t := m.ns + ("?" + q);
    ConfusionFirst(m.ns, q);
    PatternWords();
    NoQuestions();
    NameBoth(e, q);
    RevisionIff(m, e, q);
    FeaturesIff(m, e, q);
  }

  lemma UriOfWhole(m: Module)
    ensures UriText(m) == PartsText(WholeParts(m)) && WholeParts(m).ns == m.ns
  {
  }

  lemma WholeNamed(m: Module)
    requires Printable(m)
    ensures WholeParts(m).name == m.name && Bare(m.name)
  {
  }

  lemma NoQuestions()
    ensures '?' !in "revision=" && '?' !in "features=" && |"revision="| == 9 && |"features="| == 9
  {
  }

  lemma ConfusionFirst(ns: string, q: string)
    requires Contains(ns, "module=")
    ensures var t := ns + ("?" + q);
      && Find(t, "module=", 0) == Some(FirstIn(ns, "module="))
      && t[FirstIn(ns, "module=")..] == Confusion(ns) + ("?" + q) && 7 <= |Confusion(ns)|
  {
    hide Find, Occurs;
    PatternWords();
    SearchFound(ns, q, "module=", FirstIn(ns, "module="));
    FoundInRange(ns, "module=", FirstIn(ns, "module="));
  }

  lemma NameBoth(e: string, q: string)
    requires 7 <= |e| && Occurs(q, 0, "module=")
    ensures var n := ValueAt(e + ("?" + q), 7); if EndsInside(e, 7) then n == ValueAt(e, 7) else '=' in n
  {
    if EndsInside(e, 7) { ValueAtInside(e, "?" + q, 7); } else { ValueRunsOver(e, q, 7); }
  }

  lemma RevisionIff(m: Module, e: string, q: string)
    requires Printable(m) && q == Query(PairsOf(WholeParts(m))) && Occurs(q, 0, "module=")
    ensures ValueOf(e + ("?" + q), "revision=") == m.revision <==> Gives(e, "revision=", m.revision)
  {
    hide Query, PairsOf, ValueAt, ValueOf, Find, EnabledFeatures, Join, Occurs, EndsInside, Identifiers;
    NoQuestions();
    WholeIsBare(m);
    QueryRead(WholeParts(m), q);
    var r := Find(e, "revision=", 0);
    if r.Some? { ValueFound(e, q, "revision=", r.value); } else { ValueNotFound(e, q, "revision="); }
  }

  lemma FeaturesIff(m: Module, e: string, q: string)
    requires Printable(m) && q == Query(PairsOf(WholeParts(m))) && Occurs(q, 0, "module=")
    ensures var v := ValueOf(e + ("?" + q), "features=");
      (if v.Some? then Split(v.value) else []) == EnabledFeatures(m) <==>
        match Find(e, "features=", 0)
        case None => true
        case Some(i) => EndsInside(e, i + 9) && Split(ValueAt(e, i + 9)) == EnabledFeatures(m)
  {
    hide Query, PairsOf, ValueAt, ValueOf, Find, EnabledFeatures, Join, Occurs, EndsInside, Split, Bare;
    NoQuestions();
    WholeIsBare(m);
    QueryRead(WholeParts(m), q);
    var r := Find(e, "features=", 0);
    if r.Some? { ValueFound(e, q, "features=", r.value); } else { ValueNotFound(e, q, "features="); }
    var v := ValueOf(e + ("?" + q), "features=");
    if v.Some? && '=' in v.value { NoIdentifiers(v.value, EnabledFeatures(m)); }
    if EnabledFeatures(m) != [] { SplitJoin(EnabledFeatures(m)); }
  }

  /** For every module: its capability is read back if and only if the namespace does not contain `module=`, or what
      comes after the first one there happens to tell the same. */
  lemma UriRoundTripIff(m: Module)
    requires Printable(m)
    ensures ParseUri(UriText(m)) == Some(InfoOf(m)) <==> !Contains(m.ns, "module=") || TellsTheSame(m)
  {
    hide ParseUri, UriText, Contains, TellsTheSame, InfoOf, Printable;
    if Contains(m.ns, "module=") {
      ConfusedRead(m);
    } else {
      UriRoundTrip(m);
    }
  }

  /** In particular a namespace without '&' must not contain `module=`. */
  lemma WithoutAmpersand(m: Module)
    requires Printable(m) && '&' !in m.ns
    ensures ParseUri(UriText(m)) == Some(InfoOf(m)) <==> !Contains(m.ns, "module=")
  {
    hide ParseUri, UriText, Contains, InfoOf, Printable, Find, Gives, Split;
    UriRoundTripIff(m);
    if Contains(m.ns, "module=") {
      NoEnd(Confusion(m.ns), 7);
    }
  }

  lemma {:induction false} NoEnd(s: string, i: nat)
    requires '&' !in s
    ensures !EndsInside(s, i)
    decreases if i < |s| then |s| - i else 0
  {
    if i < |s| { NoEnd(s, i + 1); }
  }

  lemma {:induction false} ValueIsFree(s: string, i: nat, k: nat)
    requires i <= |s| && i <= k < ValueEnd(s, i)
    ensures s[k] != '&'
    decreases k - i
  {
    if i < k {
      ValueIsFree(s, i + 1, k);
    }
  }

  lemma {:induction false} KeptIdentifiers(len: nat, names: seq<string>, first: bool, stops: bool)
    requires Identifiers(names)
    ensures Identifiers(Kept(len, names, first, stops))
    decreases |names|
  {
    hide Identifier;
    if names != [] {
      assert Identifiers(names[1..]);
      KeptIdentifiers(len, names[1..], first, stops);
      KeptIdentifiers(len + (if first then 0 else 1) + |names[0]|, names[1..], false, stops);
    }
  }

  lemma PrintedIsBare(m: Module)
    requires Printable(m)
    ensures BareParts(PrintedParts(m)) && Identifiers(KeptFeatures(m))
  {
    hide Join, EnabledFeatures, Bare, HeadText, Kept, PrintedFeatures;
    KeptIdentifiers(|HeadText(m) + "&features="|, EnabledFeatures(m), true, true);
    JoinBare(KeptFeatures(m));
    if m.deviators.Some? {
      KeptIdentifiers(|PrintedFeatures(HeadText(m), EnabledFeatures(m)) + "&deviations="|, m.deviators.value, true, false);
      JoinBare(KeptDeviators(m));
    }
  }

  /** What the client reads of what the printer leaves in its buffer, cut off or not: the features that are kept;
      where none of them is, the keyword stands alone and is read as one feature without a name. */
  lemma PrintedIsRead(m: Module)
    requires Printable(m) && !Contains(m.ns, "module=") && KeywordsFit(m)
    ensures ParseUri(PrintedUri(m))
         == Some(SchemaInfo(m.name, m.revision,
                            if EnabledFeatures(m) == [] then [] else if KeptFeatures(m) == [] then [""] else KeptFeatures(m)))
  {
    hide PartsText, ParseUri, Contains, EnabledFeatures, Join, Split, KeptFeatures, KeptDeviators, PrintedUri;
    PrintedAsParts(m);
    PrintedIsBare(m);
    PartsRead(PrintedParts(m));
    if KeptFeatures(m) != [] {
      SplitJoin(KeptFeatures(m));
    } else {
      SplitOfNone();
    }
  }

  /** The modules that deviate a module, as far as they are printed, stand in its capability behind `deviations=`. */
  lemma DeviationsTold(m: Module)
    requires Printable(m) && KeywordsFit(m)
    ensures var t := PrintedUri(m);
      && |m.ns| < |t| && t[..|m.ns|] == m.ns && t[|m.ns|] == '?'
      && var told := ValueOf(t[|m.ns| + 1..], "deviations=");
         if m.deviators.None? then told == None
         else told.Some? && (KeptDeviators(m) != [] ==> Split(told.value) == KeptDeviators(m))
  {
    hide PrintedUri, PartsText, Query, PairsOf, ValueOf, Split, Join, KeptDeviators, KeptFeatures, BareParts, Kept;
    var p := PrintedParts(m);
    PrintedAsParts(m);
    PrintedIsBare(m);
    UriIsQuery(p);
    var q := Query(PairsOf(p));
    QueryRead(p, q);
    BehindQuestion(m.ns, q);
    if m.deviators.Some? && KeptDeviators(m) != [] {
      KeptDeviatorsPlain(m);
      SplitJoin(KeptDeviators(m));
    }
  }

  lemma BehindQuestion(ns: string, q: string)
    ensures var t := ns + ("?" + q); t[..|ns|] == ns && t[|ns|] == '?' && t[|ns| + 1..] == q
  {
  }

  lemma KeptDeviatorsPlain(m: Module)
    requires Printable(m) && m.deviators.Some?
    ensures forall i :: 0 <= i < |KeptDeviators(m)| ==> ',' !in KeptDeviators(m)[i]
  {
    hide Kept;
    KeptIdentifiers(|PrintedFeatures(HeadText(m), EnabledFeatures(m)) + "&deviations="|, m.deviators.value, true, false);
  }

  lemma SplitOfNone()
    ensures Split(Join([])) == [""]
  {
  }

  /** What the printer leaves in its buffer, when the whole text fits with a character to spare. */
  lemma PrintedRoundTrip(m: Module)
    requires Printable(m) && !Contains(m.ns, "module=") && |UriText(m)| + 1 < NC_CPBLT_BUF_LEN
    ensures ParseUri(PrintedUri(m)) == Some(InfoOf(m))
  {
    hide ParseUri, UriText, PrintedUri, Printable, Contains, InfoOf;
    PrintedWhole(m);
    UriRoundTrip(m);
  }

  predicate AllPrintable(modules: seq<Module>) {
    forall i :: 0 <= i < |modules| ==>
      Printable(modules[i]) && !Contains(modules[i].ns, "module=") && |UriText(modules[i])| + 1 < NC_CPBLT_BUF_LEN
  }

  function PrintedUris(modules: seq<Module>): seq<string> {
    seq(|modules|, i requires 0 <= i < |modules| => PrintedUri(modules[i]))
  }

  function Infos(modules: seq<Module>): seq<SchemaInfo> {
    seq(|modules|, i requires 0 <= i < |modules| => InfoOf(modules[i]))
  }
}
