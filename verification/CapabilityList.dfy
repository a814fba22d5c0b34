/** `parse_cpblts` of `session.c`: the capability list of a peer and the protocol version it leads to. */
module CapabilityList {
  import opened CText
  import opened Xml
  import opened RpcError
  import opened Hello

  /** White space at both ends is skipped. */
  function Trimmed(s: string): string {
    var f, l := FirstInk(s, 0, |s|), LastInk(s, 0, |s|);
    if f < l then s[f..l] else ""
  }

  /** `strncmp(cap, uri, strlen(cap)) == 0`: the capability is the URI or a beginning of it. */
  predicate Begins(cap: string, uri: string) {
    |cap| <= |uri| && cap == uri[..|cap|]
  }

  /** The version known so far: -1 for none, 0 for 1.0 and 1 for 1.1. */
  function NextVersion(ver: int, cap: string): int {
    if ver < 0 && Begins(cap, BASE10) then 0
    else if ver < 1 && Begins(cap, BASE11) then 1
    else ver
  }

  function VersionFrom(ver: int, caps: seq<string>): int {
    if caps == [] then ver else NextVersion(VersionFrom(ver, caps[..|caps| - 1]), caps[|caps| - 1])
  }

  function VersionOf(caps: seq<string>): int {
    VersionFrom(-1, caps)
  }

  datatype Parsed = BadList | List(version: int, caps: seq<string>)

  /** The prefixes that stand for the base namespace; no prefix is one of them where it is the default. */
  type Bound = set<Option<string>>

  /** The texts of the capabilities in a list of elements: none when one of them is not a capability or is
      empty. Elements outside the base namespace are skipped. */
  function Texts(kids: seq<Elem>, bound: Bound): Option<seq<string>> {
    if kids == [] then Some([])
    else match Texts(kids[..|kids| - 1], bound)
      case None => None
      case Some(texts) =>
        var x := kids[|kids| - 1];
        if PrefixOf(x.tag) !in bound then Some(texts)
        else if Local(x.tag) != "capability" || Trimmed(x.text) == "" then None
        else Some(texts + [Trimmed(x.text)])
  }

  lemma {:induction false} TextsOfPrefix(kids: seq<Elem>, bound: Bound, i: nat)
    requires i <= |kids| && Texts(kids[..i], bound).None?
    ensures Texts(kids, bound).None?
    decreases |kids| - i
  {
    hide Trimmed, PrefixOf;
    if i < |kids| {
      assert kids[..i + 1][..i] == kids[..i];
      TextsOfPrefix(kids, bound, i + 1);
    } else {
      assert kids[..i] == kids;
    }
  }

  /** `parse_cpblts` */
  method ParseCapabilities(x: Elem, bound: Bound) returns (r: Parsed)
    ensures match Texts(x.kids, bound)
      case None => r.BadList?
      case Some(texts) => r == List(VersionOf(texts), texts)
  {
    hide Trimmed, PrefixOf, NextVersion;
    var ver, list, i := -1, [], 0;
    assert x.kids[..0] == [];
    while i < |x.kids|
      invariant i <= |x.kids| && Texts(x.kids[..i], bound) == Some(list) && ver == VersionOf(list)
    {
      var cpblt := x.kids[i];
      assert x.kids[..i + 1][..i] == x.kids[..i];
      if PrefixOf(cpblt.tag) in bound {
        var cap := Trimmed(cpblt.text);
        if Local(cpblt.tag) != "capability" || cap == "" {
          TextsOfPrefix(x.kids, bound, i + 1);
          return BadList;
        }
        assert (list + [cap])[..|list|] == list;
        ver := NextVersion(ver, cap);
        list := list + [cap];
      }
      i := i + 1;
    }
    assert x.kids[..|x.kids|] == x.kids;
    r := List(ver, list);
  }

  /** A capability that comes through trimming unchanged. */
  predicate Proper(cap: string) {
    cap != "" && !IsSpace(cap[0]) && !IsSpace(cap[|cap| - 1])
  }

  lemma ProperIsTrimmed(cap: string)
    requires Proper(cap)
    ensures Trimmed(cap) == cap
  {
    InkOfPadded(cap, 0, 0, |cap|, |cap|);
  }

  function TrimmedList(caps: seq<string>): seq<string> {
    seq(|caps|, i requires 0 <= i < |caps| => Trimmed(caps[i]))
  }

  predicate SomeBlank(caps: seq<string>) {
    exists i :: 0 <= i < |caps| && Trimmed(caps[i]) == ""
  }

  lemma TextsSnoc(kids: seq<Elem>, bound: Bound, prefix: Option<string>, cap: string)
    requires prefix in bound && PrefixOk(prefix)
    ensures Texts(kids + [Leaf(prefix, "capability", cap)], bound)
         == if Texts(kids, bound).None? || Trimmed(cap) == "" then None else Some(Texts(kids, bound).value + [Trimmed(cap)])
  {
    hide Trimmed, PrefixOf, Local, PrefixOk;
    var all := kids + [Leaf(prefix, "capability", cap)];
    assert all[..|all| - 1] == kids;
    QualifiedParts(prefix, "capability");
  }

  lemma ListSnoc(caps: seq<string>)
    requires caps != []
    ensures var n := |caps| - 1; TrimmedList(caps) == TrimmedList(caps[..n]) + [Trimmed(caps[n])]
    ensures var n := |caps| - 1; SomeBlank(caps) <==> SomeBlank(caps[..n]) || Trimmed(caps[n]) == ""
  {
    hide Trimmed;
    var n := |caps| - 1;
    assert forall i :: 0 <= i < n ==> caps[..n][i] == caps[i];
    if i :| 0 <= i < n && Trimmed(caps[..n][i]) == "" { assert Trimmed(caps[i]) == ""; }
    if i :| 0 <= i < |caps| && Trimmed(caps[i]) == "" { assert i < n ==> Trimmed(caps[..n][i]) == ""; }
  }

  /** The list is recovered with the white space around its entries gone, and refused if and only if an entry is
      blank. */
  lemma {:induction false} TextsOfLeaves(caps: seq<string>, bound: Bound, prefix: Option<string>)
    requires prefix in bound && PrefixOk(prefix)
    ensures Texts(Leaves(prefix, "capability", caps), bound) == if SomeBlank(caps) then None else Some(TrimmedList(caps))
  {
    hide Texts, Leaf, PrefixOk, SomeBlank, TrimmedList, Trimmed;
    if caps == [] {
      NoTexts(bound);
    } else {
      var n := |caps| - 1;
      TextsOfLeaves(caps[..n], bound, prefix);
      TextsSnoc(Leaves(prefix, "capability", caps[..n]), bound, prefix, caps[n]);
      ListSnoc(caps);
    }
  }

  /** Entries without white space around them come through unchanged. */
  lemma ProperUnchanged(caps: seq<string>)
    requires forall i :: 0 <= i < |caps| ==> Proper(caps[i])
    ensures TrimmedList(caps) == caps && !SomeBlank(caps)
  {
    hide Trimmed, Proper;
    forall i | 0 <= i < |caps| ensures Trimmed(caps[i]) == caps[i] && caps[i] != "" {
      ProperIsTrimmed(caps[i]);
      ProperNotEmpty(caps[i]);
    }
  }

  lemma NoTexts(bound: Bound)
    ensures Texts([], bound) == Some([]) && TrimmedList([]) == [] && !SomeBlank([])
  {
  }

  lemma ProperNotEmpty(cap: string)
    requires Proper(cap)
    ensures cap != ""
  {
  }

  // ----- which version a list leads to -----

  /** A proper beginning of both base URIs, which differ in their last character only. */
  predicate Stub(cap: string) {
    cap != "" && |cap| < |BASE10| && cap == BASE10[..|cap|]
  }

  lemma BaseUris()
    ensures |BASE10| == 32 && |BASE11| == 32 && BASE10[..31] == BASE11[..31] && BASE10 != BASE11
  {
    assert BASE10[31] == '0' && BASE11[31] == '1';
  }

  lemma BeginsCases(cap: string)
    requires cap != ""
    ensures Begins(cap, BASE10) <==> cap == BASE10 || Stub(cap)
    ensures Begins(cap, BASE11) <==> cap == BASE11 || Stub(cap)
    ensures !Stub(BASE10) && !Stub(BASE11) && BASE10 != BASE11
  {
    BaseUris();
    hide BASE10, BASE11;
    if |cap| < 32 { assert BASE10[..|cap|] == BASE10[..31][..|cap|] && BASE11[..|cap|] == BASE11[..31][..|cap|]; }
    if |cap| == 32 { assert BASE10[..32] == BASE10 && BASE11[..32] == BASE11; }
  }

  function CountStubs(caps: seq<string>): nat {
    if caps == [] then 0 else CountStubs(caps[..|caps| - 1]) + if Stub(caps[|caps| - 1]) then 1 else 0
  }

  predicate NoneEmpty(caps: seq<string>) {
    forall i :: 0 <= i < |caps| ==> caps[i] != ""
  }

  /** The version of a list, except for a list with one stub and without the newer URI, where the order counts. */
  lemma {:induction false} VersionCases(caps: seq<string>)
    requires NoneEmpty(caps)
    ensures -1 <= VersionOf(caps) <= 1
    ensures BASE11 in caps || CountStubs(caps) >= 2 ==> VersionOf(caps) == 1
    ensures BASE11 !in caps && CountStubs(caps) == 0 ==> VersionOf(caps) == if BASE10 in caps then 0 else -1
    ensures BASE11 !in caps && CountStubs(caps) == 1 ==> VersionOf(caps) >= 0
    ensures BASE11 !in caps && CountStubs(caps) == 1 && BASE10 !in caps ==> VersionOf(caps) == 0
  {
    hide Begins, Stub, BASE10, BASE11;
    if caps != [] {
      var n := |caps| - 1;
      assert NoneEmpty(caps[..n]);
      VersionCases(caps[..n]);
      BeginsCases(caps[n]);
      assert caps == caps[..n] + [caps[n]];
    }
  }

  // ----- does the order matter? -----

  predicate Permuted(a: seq<string>, b: seq<string>) {
    multiset(a) == multiset(b)
  }

  lemma {:induction false} CountStubsAppend(a: seq<string>, b: seq<string>)
    ensures CountStubs(a + b) == CountStubs(a) + CountStubs(b)
    decreases |b|
  {
    hide Stub;
    if b == [] {
      assert a + b == a;
    } else {
      var n := |b| - 1;
      assert (a + b)[..|a| + n] == a + b[..n];
      CountStubsAppend(a, b[..n]);
    }
  }

  lemma CountStubsOne(x: string)
    ensures CountStubs([x]) == if Stub(x) then 1 else 0
  {
    hide Stub;
    assert [x][..0] == [];
  }

  /** Taking out one entry. */
  lemma Without(caps: seq<string>, k: nat) returns (rest: seq<string>)
    requires k < |caps|
    ensures rest == caps[..k] + caps[k + 1..] && multiset(caps) == multiset(rest) + multiset{caps[k]}
    ensures CountStubs(caps) == CountStubs(rest) + if Stub(caps[k]) then 1 else 0
  {
    hide Stub;
    rest := caps[..k] + caps[k + 1..];
    assert caps == caps[..k] + [caps[k]] + caps[k + 1..];
    CountStubsAppend(caps[..k] + [caps[k]], caps[k + 1..]);
    CountStubsAppend(caps[..k], [caps[k]]);
    CountStubsAppend(caps[..k], caps[k + 1..]);
    CountStubsOne(caps[k]);
  }

  lemma Cancel(a: multiset<string>, b: multiset<string>, x: string)
    requires a + multiset{x} == b + multiset{x}
    ensures a == b
  {
    assert (a + multiset{x}) - multiset{x} == a;
    assert (b + multiset{x}) - multiset{x} == b;
  }

  lemma {:induction false} CountStubsPermuted(a: seq<string>, b: seq<string>)
    requires Permuted(a, b)
    ensures CountStubs(a) == CountStubs(b)
    decreases |a|
  {
    hide Stub;
    if a == [] {
      assert |multiset(b)| == 0;
    } else {
      var n := |a| - 1;
      var ra := Without(a, n);
      assert a[n] in multiset(a);
      var k :| 0 <= k < |b| && b[k] == a[n];
      var rb := Without(b, k);
      Cancel(multiset(ra), multiset(rb), a[n]);
      CountStubsPermuted(ra, rb);
    }
  }

  lemma PermutedMembers(a: seq<string>, b: seq<string>, x: string)
    requires Permuted(a, b)
    ensures x in a <==> x in b
  {
    assert x in multiset(a) <==> x in multiset(b);
  }

  lemma PermutedNoneEmpty(a: seq<string>, b: seq<string>)
    requires Permuted(a, b) && NoneEmpty(a)
    ensures NoneEmpty(b)
  {
    forall i | 0 <= i < |b| ensures b[i] != "" { PermutedMembers(a, b, b[i]); }
  }

  /** The condition: the newer URI is there, or there is no stub or more than one, or no older URI. */
  predicate OrderFree(caps: seq<string>) {
    BASE11 in caps || CountStubs(caps) != 1 || BASE10 !in caps
  }

  /** Under the condition every order of the list leads to the same version; in particular when no entry is a
      stub. */
  lemma OrderIrrelevant(caps: seq<string>, other: seq<string>)
    requires NoneEmpty(caps) && Permuted(caps, other) && OrderFree(caps)
    ensures VersionOf(other) == VersionOf(caps)
  {
    hide Stub, VersionOf, BASE10, BASE11, Permuted, NoneEmpty;
    PermutedNoneEmpty(caps, other);
    PermutedMembers(caps, other, BASE10);
    PermutedMembers(caps, other, BASE11);
    CountStubsPermuted(caps, other);
    VersionCases(caps);
    VersionCases(other);
  }

  lemma {:induction false} StaysOld(caps: seq<string>)
    requires NoneEmpty(caps) && BASE11 !in caps && CountStubs(caps) == 0
    ensures VersionFrom(0, caps) == 0
  {
    hide Stub, Begins, BASE10, BASE11;
    if caps != [] {
      var n := |caps| - 1;
      assert NoneEmpty(caps[..n]);
      StaysOld(caps[..n]);
      BeginsCases(caps[n]);
    }
  }

  lemma {:induction false} VersionAppend(ver: int, a: seq<string>, b: seq<string>)
    ensures VersionFrom(ver, a + b) == VersionFrom(VersionFrom(ver, a), b)
    decreases |b|
  {
    hide NextVersion;
    if b == [] {
      assert a + b == a;
    } else {
      var n := |b| - 1;
      assert (a + b)[..|a| + n] == a + b[..n];
      VersionAppend(ver, a, b[..n]);
    }
  }

  lemma VersionOne(ver: int, x: string)
    ensures VersionFrom(ver, [x]) == NextVersion(ver, x)
  {
    hide NextVersion;
    assert [x][..0] == [];
  }

  /** Otherwise two orders of the same list lead to different versions. */
  lemma OrderMatters(caps: seq<string>) returns (first: seq<string>, last: seq<string>)
    requires NoneEmpty(caps) && !OrderFree(caps)
    ensures Permuted(caps, first) && Permuted(caps, last) && VersionOf(first) == 0 && VersionOf(last) == 1
  {
    hide Stub, Begins, BASE10, BASE11;
    var k := StubAt(caps);
    var p := caps[k];
    var rest := Without(caps, k);
    assert NoneEmpty(rest) && BASE11 !in rest && p != BASE10 by {
      BeginsCases(p);
      forall i | 0 <= i < |rest| ensures rest[i] in caps { assert rest[i] == caps[if i < k then i else i + 1]; }
    }
    assert BASE10 in rest by { assert BASE10 in multiset(caps); }
    first, last := [p] + rest, rest + [p];
    BeginsCases(p);
    VersionOne(-1, p);
    StaysOld(rest);
    VersionAppend(-1, [p], rest);
    VersionCases(rest);
    VersionAppend(-1, rest, [p]);
    VersionOne(0, p);
  }

  lemma {:induction false} StubAt(caps: seq<string>) returns (k: nat)
    requires CountStubs(caps) > 0
    ensures k < |caps| && Stub(caps[k])
  {
    hide Stub;
    var n := |caps| - 1;
    if Stub(caps[n]) { k := n; } else { k := StubAt(caps[..n]); }
  }
}
