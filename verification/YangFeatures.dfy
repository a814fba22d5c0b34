/** `nc_lys_next_feature` of `session.c`: walking over the features of a YANG module, those of its submodules
    first. A feature is known by its address, and the iterator's only memory is the last feature and its index
    in the array that it came from. */
module YangFeatures {
  import opened CText

  datatype Feature = Feature(address: nat, name: string, enabled: bool)

  /** The feature arrays of the included submodules, and the module's own array. */
  datatype Features = Features(subs: seq<seq<Feature>>, own: seq<Feature>)

  function Flatten(arrays: seq<seq<Feature>>): seq<Feature> {
    if arrays == [] then [] else Flatten(arrays[..|arrays| - 1]) + arrays[|arrays| - 1]
  }

  function Arrays(m: Features): seq<seq<Feature>> {
    m.subs + [m.own]
  }

  /** All features in the order of the walk. */
  function All(m: Features): seq<Feature> {
    Flatten(m.subs) + m.own
  }

  /** No two places hold the same address. */
  predicate Separate(arrays: seq<seq<Feature>>) {
    forall a, i, b, j |
      0 <= a < |arrays| && 0 <= i < |arrays[a]| && 0 <= b < |arrays| && 0 <= j < |arrays[b]| ::
      arrays[a][i].address == arrays[b][j].address ==> a == b && i == j
  }

  /** Where array number `a` begins in the walk. */
  function Offset(arrays: seq<seq<Feature>>, a: nat): nat
    requires a <= |arrays|
  {
    |Flatten(arrays[..a])|
  }

  lemma FlattenSnoc(arrays: seq<seq<Feature>>, x: seq<Feature>)
    ensures Flatten(arrays + [x]) == Flatten(arrays) + x
  {
    assert (arrays + [x])[..|arrays|] == arrays;
  }

  lemma OffsetStep(arrays: seq<seq<Feature>>, a: nat)
    requires a < |arrays|
    ensures Offset(arrays, a + 1) == Offset(arrays, a) + |arrays[a]|
  {
    assert arrays[..a + 1] == arrays[..a] + [arrays[a]];
    FlattenSnoc(arrays[..a], arrays[a]);
  }

  lemma {:induction false} FlattenAt(arrays: seq<seq<Feature>>, a: nat, i: nat)
    requires a < |arrays| && i < |arrays[a]|
    ensures Offset(arrays, a) + i < |Flatten(arrays)| && Flatten(arrays)[Offset(arrays, a) + i] == arrays[a][i]
    decreases |arrays|
  {
    var n := |arrays| - 1;
    if a < n {
      FlattenAt(arrays[..n], a, i);
      assert arrays[..n][..a] == arrays[..a] && arrays[..n][a] == arrays[a];
    }
  }

  lemma AllIsFlat(m: Features)
    ensures Flatten(Arrays(m)) == All(m) && Offset(Arrays(m), |m.subs|) + |m.own| == |All(m)|
  {
    FlattenSnoc(m.subs, m.own);
    assert Arrays(m)[..|m.subs|] == m.subs;
  }

  /** The place of position `k` of the walk: array `a`, index `i`. */
  ghost predicate PlaceOf(m: Features, k: nat, a: nat, i: nat) {
    a < |Arrays(m)| && i < |Arrays(m)[a]| && k == Offset(Arrays(m), a) + i
  }

  /** `nc_lys_next_feature`: from the feature at position `k` of the walk to the one at position `k + 1`, or
      from the start to position 0; null at the end. */
  method NextFeature(last: Option<Feature>, m: Features, index: nat, ghost k: int, ghost place: nat)
    returns (next: Option<Feature>, idx: nat, ghost place': nat)
    requires Separate(Arrays(m))
    requires last.None? ==> k == -1
    requires last.Some? ==> k >= 0 && PlaceOf(m, k, place, index) && Arrays(m)[place][index] == last.value
    ensures next.Some? <==> k + 1 < |All(m)|
    ensures next.Some? ==> next.value == All(m)[k + 1]
    ensures next.Some? ==> PlaceOf(m, k + 1, place', idx) && Arrays(m)[place'][idx] == next.value
  {
    hide Flatten, Separate;
    AllIsFlat(m);
    idx := index;
    var i := 0;
    if last.Some? {
      i := FindSub(last.value, m, idx, place);
      idx := idx + 1;
    } else {
      idx := 0;
      FirstOffset(m);
    }
    while i < |m.subs| && idx == |m.subs[i]|
      invariant i <= |m.subs| && idx <= |Arrays(m)[i]| && Offset(Arrays(m), i) + idx == k + 1
    {
      OffsetStep(Arrays(m), i);
      i := i + 1;
      idx := 0;
    }
    place' := i;
    if i < |m.subs| {
      FlattenAt(Arrays(m), i, idx);
      next := Some(m.subs[i][idx]);
    } else if idx < |m.own| {
      FlattenAt(Arrays(m), i, idx);
      next := Some(m.own[idx]);
    } else {
      next := None;
    }
  }

  lemma FirstOffset(m: Features)
    ensures Offset(Arrays(m), 0) == 0
  {
  }

  /** The first loop: the submodule that the last feature came from, or the number of submodules. */
  method FindSub(last: Feature, m: Features, idx: nat, ghost place: nat) returns (i: nat)
    requires Separate(Arrays(m)) && place < |Arrays(m)| && idx < |Arrays(m)[place]| && Arrays(m)[place][idx] == last
    ensures i == place
  {
    i := 0;
    while i < |m.subs|
      invariant i <= place && i <= |m.subs|
    {
      assert Arrays(m)[i] == m.subs[i];
      if idx < |m.subs[i]| && last.address == m.subs[i][idx].address {
        return;
      }
      i := i + 1;
    }
  }

  /** The names of the enabled features among `fs`. */
  function EnabledNames(fs: seq<Feature>): seq<string> {
    if fs == [] then []
    else EnabledNames(fs[..|fs| - 1]) + if fs[|fs| - 1].enabled then [fs[|fs| - 1].name] else []
  }

  /** The caller's loop: every feature comes exactly once, in the order of the walk. */
  method CollectEnabled(m: Features) returns (names: seq<string>)
    requires Separate(Arrays(m))
    ensures names == EnabledNames(All(m))
  {
    hide Separate, PlaceOf, Arrays, All;
    names := [];
    ghost var k: nat, place: nat := 0, 0;
    var feat, idx: nat;
    feat, idx, place := NextFeature(None, m, 0, -1, 0);
    PlaceInRange(m, 0, place, idx, feat);
    assert All(m)[..0] == [];
    while feat.Some?
      invariant 0 <= k <= |All(m)| && names == EnabledNames(All(m)[..k])
      invariant feat.Some? <==> k < |All(m)|
      invariant feat.Some? ==> feat.value == All(m)[k] && PlaceOf(m, k, place, idx)
      invariant feat.Some? ==> place < |Arrays(m)| && idx < |Arrays(m)[place]| && Arrays(m)[place][idx] == feat.value
      decreases |All(m)| - k
    {
      if feat.value.enabled {
        names := names + [feat.value.name];
      }
      assert All(m)[..k + 1][..k] == All(m)[..k];
      feat, idx, place := NextFeature(feat, m, idx, k, place);
      PlaceInRange(m, k + 1, place, idx, feat);
      k := k + 1;
    }
    assert All(m)[..k] == All(m);
  }

  lemma PlaceInRange(m: Features, k: nat, a: nat, i: nat, f: Option<Feature>)
    ensures f.Some? && PlaceOf(m, k, a, i) ==> a < |Arrays(m)| && i < |Arrays(m)[a]|
  {
  }

  // ----- the enabled ones -----

  lemma {:induction false} EnabledIn(fs: seq<Feature>, name: string)
    ensures name in EnabledNames(fs) <==> exists k :: 0 <= k < |fs| && fs[k].enabled && fs[k].name == name
  {
    if fs != [] {
      var n := |fs| - 1;
      EnabledIn(fs[..n], name);
      assert forall k :: 0 <= k < n ==> fs[..n][k] == fs[k];
      if k :| 0 <= k < |fs| && fs[k].enabled && fs[k].name == name && k < n {
        assert fs[..n][k] == fs[k];
      }
    }
  }

  lemma {:induction false} FlattenFrom(arrays: seq<seq<Feature>>, k: nat) returns (a: nat, i: nat)
    requires k < |Flatten(arrays)|
    ensures a < |arrays| && i < |arrays[a]| && arrays[a][i] == Flatten(arrays)[k]
    decreases |arrays|
  {
    var n := |arrays| - 1;
    var front := Flatten(arrays[..n]);
    if k < |front| {
      a, i := FlattenFrom(arrays[..n], k);
      assert arrays[..n][a] == arrays[a];
    } else {
      a, i := n, k - |front|;
    }
  }

  /** A name is told if and only if the module or one of its submodules has a feature of that name which is enabled. */
  lemma EnabledIff(m: Features, name: string)
    ensures name in EnabledNames(All(m))
       <==> exists a, i :: 0 <= a < |Arrays(m)| && 0 <= i < |Arrays(m)[a]|
                           && Arrays(m)[a][i].enabled && Arrays(m)[a][i].name == name
  {
    hide EnabledNames, Flatten;
    AllIsFlat(m);
    EnabledIn(All(m), name);
    if name in EnabledNames(All(m)) {
      var k :| 0 <= k < |All(m)| && All(m)[k].enabled && All(m)[k].name == name;
      var a, i := FlattenFrom(Arrays(m), k);
      assert Arrays(m)[a][i].enabled;
    }
    if a, i :| 0 <= a < |Arrays(m)| && 0 <= i < |Arrays(m)[a]| && Arrays(m)[a][i].enabled && Arrays(m)[a][i].name == name {
      FlattenAt(Arrays(m), a, i);
      assert All(m)[Offset(Arrays(m), a) + i].enabled;
    }
  }
}
