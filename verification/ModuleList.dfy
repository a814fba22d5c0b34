/** A server's modules on their way to the client: each capability is printed, goes through `add_cpblt` of
    `session.c`, and the list is read by `build_schema_info_cpblts` of `session_client.c`. */
module ModuleList {
  import opened CText
  import opened YangFeatures
  import opened CapabilitySet
  import opened ModuleUri

  function Namespaces(modules: seq<Module>): seq<string> {
    seq(|modules|, i requires 0 <= i < |modules| => modules[i].ns)
  }

  /** The capability of a module is the same as its namespace up to the first '?'. */
  lemma {:induction false} StemOfNamespace(ns: string, rest: string)
    requires rest != "" && rest[0] == '?'
    ensures Stem(ns + rest) == Stem(ns)
  {
    if ns == "" {
      assert ns + rest == rest;
    } else {
      assert (ns + rest)[0] == ns[0] && (ns + rest)[1..] == ns[1..] + rest;
      StemOfNamespace(ns[1..], rest);
    }
  }

  lemma StemOfPrinted(m: Module)
    ensures Stem(PrintedUri(m)) == Stem(m.ns)
  {
    hide Stem, PrintedUri, PrintedParts, Query, PairsOf, PartsText;
    PrintedAsParts(m);
    UriIsQuery(PrintedParts(m));
    SameNamespace(m);
    StemOfNamespace(m.ns, "?" + Query(PairsOf(PrintedParts(m))));
  }

  lemma SameNamespace(m: Module)
    ensures PrintedParts(m).ns == m.ns
  {
  }

  lemma StemsOfPrinted(front: seq<string>, modules: seq<Module>)
    ensures DistinctStems(front + PrintedUris(modules)) <==> DistinctStems(front + Namespaces(modules))
  {
    hide Stem, PrintedUri;
    var a, b := front + PrintedUris(modules), front + Namespaces(modules);
    forall i | 0 <= i < |a| ensures Stem(a[i]) == Stem(b[i]) {
      if i >= |front| {
        StemOfPrinted(modules[i - |front|]);
      }
    }
  }

  // ----- what add_cpblt keeps -----

  /** Every capability is kept if and only if no two in the list share a stem. */
  lemma {:induction false} KeptIff(front: seq<string>, more: seq<string>) returns (kept: seq<string>)
    requires DistinctStems(front)
    ensures AddedAll(front, more) == front + kept && |kept| <= |more|
    ensures |kept| == |more| <==> DistinctStems(front + more)
    ensures |kept| == |more| ==> kept == more
  {
    hide Stem;
    if more == [] {
      kept := [];
      assert front + [] == front;
    } else {
      var n := |more| - 1;
      var before := KeptIff(front, more[..n]);
      var all := front + before;
      var whole := front + more;
      assert whole[..|whole| - 1] == front + more[..n];
      if HasStem(all, Stem(more[n])) {
        kept := before;
        if |before| == n {
          assert whole[|whole| - 1] == more[n];
          SharesStem(whole);
        } else {
          PrefixDistinct(whole);
        }
      } else {
        kept := before + [more[n]];
        assert front + kept == all + [more[n]];
        if |before| == n {
          assert more == more[..n] + [more[n]];
          OneMoreStem(whole);
        } else {
          PrefixDistinct(whole);
        }
      }
    }
  }

  lemma SharesStem(all: seq<string>)
    requires all != [] && HasStem(all[..|all| - 1], Stem(all[|all| - 1]))
    ensures !DistinctStems(all)
  {
    hide Stem;
    var n := |all| - 1;
    var i :| 0 <= i < n && Stem(all[..n][i]) == Stem(all[n]);
    assert all[..n][i] == all[i];
  }

  lemma OneMoreStem(all: seq<string>)
    requires all != [] && !HasStem(all[..|all| - 1], Stem(all[|all| - 1])) && DistinctStems(all[..|all| - 1])
    ensures DistinctStems(all)
  {
    hide Stem;
    var n := |all| - 1;
    assert forall i :: 0 <= i < n ==> all[..n][i] == all[i];
  }

  lemma PrefixDistinct(all: seq<string>)
    requires all != [] && !DistinctStems(all[..|all| - 1])
    ensures !DistinctStems(all)
  {
    hide Stem;
    var n := |all| - 1;
    assert forall i :: 0 <= i < n ==> all[..n][i] == all[i];
  }

  // ----- what the client reads -----

  /** Capabilities that name no module. */
  predicate NoModules(caps: seq<string>) {
    forall i :: 0 <= i < |caps| ==> ParseUri(caps[i]).None?
  }

  lemma {:induction false} ReadBehind(front: seq<string>, more: seq<string>)
    requires NoModules(front)
    ensures ParseUris(front + more) == ParseUris(more) && |ParseUris(more)| <= |more|
    decreases |front| + |more|
  {
    hide ParseUri;
    var all := front + more;
    var n := |all| - 1;
    if more != [] {
      assert all[..n] == front + more[..|more| - 1];
      ReadBehind(front, more[..|more| - 1]);
    } else if front != [] {
      assert all == front && all[..n] == front[..n] + [];
      ReadBehind(front[..n], []);
    }
  }

  lemma {:induction false} PrintedAreRead(modules: seq<Module>)
    requires AllPrintable(modules)
    ensures ParseUris(PrintedUris(modules)) == Infos(modules)
  {
    hide ParseUri, UriText, PrintedUri, InfoOf, Printable, Contains;
    if modules != [] {
      var n := |modules| - 1;
      PrintedAreRead(modules[..n]);
      assert PrintedUris(modules)[..n] == PrintedUris(modules[..n]);
      PrintedRoundTrip(modules[n]);
      assert Infos(modules) == Infos(modules[..n]) + [InfoOf(modules[n])];
    }
  }

  /** A server's list of modules, behind capabilities that name none, reaches the client whole and in order if and only
      if no two of the capabilities and namespaces agree up to the first '?'. */
  lemma ModulesReachClientIff(front: seq<string>, modules: seq<Module>)
    requires AllPrintable(modules) && DistinctStems(front) && NoModules(front)
    ensures ParseUris(AddedAll(front, PrintedUris(modules))) == Infos(modules)
       <==> DistinctStems(front + Namespaces(modules))
  {
    hide AllPrintable, DistinctStems, NoModules, AddedAll, ParseUris;
    var kept := KeptIff(front, PrintedUris(modules));
    StemsOfPrinted(front, modules);
    ReadBehind(front, kept);
    PrintedAreRead(modules);
  }

  /** Of two revisions of a module only the first one reaches the client. */
  lemma SecondRevisionIsLost(m: Module, date: string)
    requires var ms := [m, m.(revision := Some(date))]; AllPrintable(ms)
    ensures var ms := [m, m.(revision := Some(date))]; ParseUris(AddedAll([], PrintedUris(ms))) == [InfoOf(m)]
  {
    hide ParseUri, UriText, PrintedUri, InfoOf, Printable, Contains, Stem;
    var ms := [m, m.(revision := Some(date))];
    var texts := PrintedUris(ms);
    StemOfPrinted(ms[0]);
    StemOfPrinted(ms[1]);
    assert texts[..1] == [texts[0]] && [texts[0]][..0] == [];
    assert AddedAll([], [texts[0]]) == [texts[0]];
    assert Stem([texts[0]][0]) == Stem(texts[1]);
    assert AddedAll([], texts) == [texts[0]];
    assert AllPrintable([m]);
    PrintedAreRead([m]);
    assert PrintedUris([m]) == [texts[0]] && Infos([m]) == [InfoOf(m)];
  }

  /** For instance the module `m` of the namespace `urn:x` in its revisions of 2020 and 2021. */
  lemma TwoRevisions()
    ensures var m := Module("urn:x", "m", Some("2020-01-01"), Features([], []), None);
      ParseUris(AddedAll([], PrintedUris([m, m.(revision := Some("2021-01-01"))]))) == [InfoOf(m)]
  {
    hide ParseUri, PrintedUri, InfoOf, UriText, Printable, Contains;
    var m := Module("urn:x", "m", Some("2020-01-01"), Features([], []), None);
    SmallModule("2020-01-01");
    SmallModule("2021-01-01");
    SecondRevisionIsLost(m, "2021-01-01");
  }

  lemma SmallModule(date: string)
    requires |date| == 10 && Identifier(date)
    ensures var m := Module("urn:x", "m", Some(date), Features([], []), None);
      Printable(m) && !Contains(m.ns, "module=") && |UriText(m)| + 1 < NC_CPBLT_BUF_LEN
  {
    var m := Module("urn:x", "m", Some(date), Features([], []), None);
    assert All(m.features) == [];
    assert EnabledFeatures(m) == [];
    assert |"module="| > |m.ns|;
  }
}
