/** What `read_values`, `read_json` and `json_foreach` make of configurations that need not be well formed: entries
    without a number, switches without a port list, and switches at any depth. */
module ConfigPartial {
  import opened CText
  import opened JsonGrammar
  import opened Numerals
  import opened ConfigTree

  // ----- entries that lack a number -----

  /** Entry `j` is the last one up to `i` that gives a number at this place. */
  predicate LastGiven(entries: seq<Option<Value>>, place: nat, j: nat, i: nat)
    requires i < |entries|
  {
    j <= i && IsRealOf(ChildAt(entries[j], place)) && forall k :: j < k <= i ==> !IsRealOf(ChildAt(entries[k], place))
  }

  predicate NoneGiven(entries: seq<Option<Value>>, place: nat, i: nat)
    requires i < |entries|
  {
    forall k :: 0 <= k <= i ==> !IsRealOf(ChildAt(entries[k], place))
  }

  lemma {:induction false} AllPairs(entries: seq<Option<Value>>, current: PortValues)
    ensures |PairsFrom(entries, current)| == |entries|
    decreases |entries|
  {
    hide NextPair;
    if entries != [] { AllPairs(entries[1..], NextPair(current, entries[0])); }
  }

  lemma {:induction false} NothingGiven(entries: seq<Option<Value>>, current: PortValues, i: nat)
    requires i < |entries|
    ensures |PairsFrom(entries, current)| == |entries|
    ensures NoneGiven(entries, 0, i) ==> PairsFrom(entries, current)[i].period == current.period
    ensures NoneGiven(entries, 1, i) ==> PairsFrom(entries, current)[i].gates == current.gates
    decreases |entries|
  {
    hide IsRealOf, ChildAt, RealOf, AsInt;
    AllPairs(entries, current);
    if i > 0 {
      assert forall k :: 0 <= k < |entries| - 1 ==> entries[1..][k] == entries[k + 1];
      NothingGiven(entries[1..], NextPair(current, entries[0]), i - 1);
    }
  }

  /** An entry of a schedule has the period and the gates that it gives itself, or else those of the last entry before it
      that gives them; before the first one that does they are what was there at the start. */
  lemma {:induction false} CarriedOver(entries: seq<Option<Value>>, current: PortValues, i: nat, j: nat)
    requires i < |entries|
    ensures |PairsFrom(entries, current)| == |entries|
    ensures LastGiven(entries, 0, j, i) ==>
      PairsFrom(entries, current)[i].period == Some(RealOf(ChildAt(entries[j], 0)))
    ensures LastGiven(entries, 1, j, i) ==>
      PairsFrom(entries, current)[i].gates == Some(AsInt(RealOf(ChildAt(entries[j], 1))))
    decreases |entries|
  {
    hide IsRealOf, ChildAt, RealOf, AsInt;
    AllPairs(entries, current);
    var next := NextPair(current, entries[0]);
    assert forall k :: 0 <= k < |entries| - 1 ==> entries[1..][k] == entries[k + 1];
    if i > 0 {
      if j > 0 {
        CarriedOver(entries[1..], next, i - 1, j - 1);
      } else {
        NothingGiven(entries[1..], next, i - 1);
      }
    }
  }

  // ----- parts of a value -----

  function PartsOf(v: Value): seq<Value> {
    match v
    case VArray(items) => items
    case VObject(fields) => seq(|fields|, i requires 0 <= i < |fields| => fields[i].value)
    case _ => []
  }

  /** The part that a path of positions leads to. */
  function PartAt(v: Value, path: seq<nat>): Option<Value>
    decreases |path|
  {
    if path == [] then Some(v)
    else if path[0] < |PartsOf(v)| then PartAt(PartsOf(v)[path[0]], path[1..])
    else None
  }

  /** An object whose field `switch` is a string while its field `port_list` is no array. */
  predicate LacksPorts(v: Value) {
    var name, ports := FieldNamed(v, "switch"), FieldNamed(v, "port_list");
    name.Some? && name.value.VString? && !(ports.Some? && ports.value.VArray?)
  }

  lemma {:induction false} FieldsAsItems(fields: seq<Field>)
    ensures CollectFields(fields) == CollectItems(PartsOf(VObject(fields)))
    decreases |fields|
  {
    hide Collect;
    if fields != [] {
      FieldsAsItems(fields[1..]);
      assert PartsOf(VObject(fields))[1..] == PartsOf(VObject(fields[1..]));
    }
  }

  lemma CollectParts(v: Value)
    ensures Collect(v) == Both(SwitchOf(v), CollectItems(PartsOf(v)))
    ensures SwitchOf(v).None? <==> LacksPorts(v)
  {
    hide FieldNamed, CollectItems, CollectFields;
    if v.VObject? { FieldsAsItems(v.fields); }
    NoItems();
  }

  lemma NoItems()
    ensures CollectItems([]) == Some([])
  {
  }

  /** What a list of parts gives: nothing if one of them does, and otherwise what they give one after the other. */
  lemma {:induction false} ItemsCollected(items: seq<Value>, c: SwitchConf)
    ensures CollectItems(items).None? <==> exists i :: 0 <= i < |items| && Collect(items[i]).None?
    ensures CollectItems(items).Some? ==>
      (c in CollectItems(items).value <==> exists i :: 0 <= i < |items| && Collect(items[i]).Some? && c in Collect(items[i]).value)
    decreases |items|
  {
    hide Collect;
    if items != [] {
      var rest := items[1..];
      ItemsCollected(rest, c);
      assert forall i :: 1 <= i < |items| ==> items[i] == rest[i - 1];
      if CollectItems(rest).None? {
        var i :| 0 <= i < |rest| && Collect(rest[i]).None?;
        assert items[i + 1] == rest[i];
      } else if c in CollectItems(rest).value {
        var i :| 0 <= i < |rest| && Collect(rest[i]).Some? && c in Collect(rest[i]).value;
        assert items[i + 1] == rest[i];
      }
    }
  }

  ghost predicate LacksSomewhere(v: Value) {
    exists path :: PartAt(v, path).Some? && LacksPorts(PartAt(v, path).value)
  }

  lemma Deeper(v: Value, i: nat, path: seq<nat>)
    requires i < |PartsOf(v)|
    ensures PartAt(v, [i] + path) == PartAt(PartsOf(v)[i], path)
  {
    assert ([i] + path)[1..] == path;
  }

  lemma PartIsSmaller(v: Value, i: nat)
    requires i < |PartsOf(v)|
    ensures PartsOf(v)[i] < v
  {
  }

  /** For every value: reading it ends the program if and only if somewhere in it, at any depth, a switch has no list of
      ports. */
  lemma {:induction false} EndsIff(v: Value)
    ensures Collect(v).None? <==> LacksSomewhere(v)
    decreases v
  {
    hide Collect, SwitchOf, LacksPorts, CollectItems;
    CollectParts(v);
    var parts := PartsOf(v);
    forall i | 0 <= i < |parts| ensures Collect(parts[i]).None? <==> LacksSomewhere(parts[i]) {
      PartIsSmaller(v, i);
      EndsIff(parts[i]);
    }
    ItemsCollected(parts, SwitchConf("", []));
    LacksHereOrBelow(v);
  }

  lemma LacksHereOrBelow(v: Value)
    ensures LacksSomewhere(v) <==> LacksPorts(v) || exists i :: 0 <= i < |PartsOf(v)| && LacksSomewhere(PartsOf(v)[i])
  {
    hide LacksPorts, PartsOf;
    if LacksSomewhere(v) {
      var path :| PartAt(v, path).Some? && LacksPorts(PartAt(v, path).value);
      if path != [] {
        assert PartAt(PartsOf(v)[path[0]], path[1..]).Some?;
        assert LacksSomewhere(PartsOf(v)[path[0]]);
      }
    }
    if LacksPorts(v) { assert PartAt(v, []) == Some(v); }
    if i :| 0 <= i < |PartsOf(v)| && LacksSomewhere(PartsOf(v)[i]) {
      var path :| PartAt(PartsOf(v)[i], path).Some? && LacksPorts(PartAt(PartsOf(v)[i], path).value);
      Deeper(v, i, path);
      assert PartAt(v, [i] + path).Some?;
    }
  }

  /** A part of the value that describes this switch. */
  ghost predicate DescribedIn(v: Value, c: SwitchConf) {
    exists path :: PartAt(v, path).Some? && SwitchOf(PartAt(v, path).value) == Some([c])
  }

  /** For every value that is read: a switch is collected if and only if some part of the value, at any depth, describes
      it. */
  lemma {:induction false} CollectedIff(v: Value, c: SwitchConf)
    requires Collect(v).Some?
    ensures c in Collect(v).value <==> DescribedIn(v, c)
    decreases v
  {
    hide Collect, SwitchOf, CollectItems;
    CollectParts(v);
    var parts := PartsOf(v);
    ItemsCollected(parts, c);
    forall i | 0 <= i < |parts| ensures Collect(parts[i]).Some? && (c in Collect(parts[i]).value <==> DescribedIn(parts[i], c)) {
      PartIsSmaller(v, i);
      CollectedIff(parts[i], c);
    }
    AtMostOne(v);
    DescribedHereOrBelow(v, c);
  }

  lemma AtMostOne(v: Value)
    requires SwitchOf(v).Some?
    ensures SwitchOf(v).value == [] || SwitchOf(v).value == [SwitchOf(v).value[0]]
  {
    hide FieldNamed, PortsOf;
  }

  lemma DescribedHereOrBelow(v: Value, c: SwitchConf)
    ensures DescribedIn(v, c) <==> SwitchOf(v) == Some([c]) || exists i :: 0 <= i < |PartsOf(v)| && DescribedIn(PartsOf(v)[i], c)
  {
    hide SwitchOf, PartsOf;
    if DescribedIn(v, c) {
      var path :| PartAt(v, path).Some? && SwitchOf(PartAt(v, path).value) == Some([c]);
      if path != [] {
        assert PartAt(PartsOf(v)[path[0]], path[1..]).Some?;
        assert DescribedIn(PartsOf(v)[path[0]], c);
      }
    }
    if SwitchOf(v) == Some([c]) { assert PartAt(v, []) == Some(v); }
    if i :| 0 <= i < |PartsOf(v)| && DescribedIn(PartsOf(v)[i], c) {
      var path :| PartAt(PartsOf(v)[i], path).Some? && SwitchOf(PartAt(PartsOf(v)[i], path).value) == Some([c]);
      Deeper(v, i, path);
      assert PartAt(v, [i] + path).Some?;
    }
  }
}
