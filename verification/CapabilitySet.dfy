/** `add_cpblt` of `session.c`: the server's growing array of capabilities, without duplicates up to the
    parameters behind the first '?'. */
module CapabilitySet {
  import opened CText

  /** A capability without its parameters. */
  function Stem(s: string): string {
    if s == "" || s[0] == '?' then "" else [s[0]] + Stem(s[1..])
  }

  function StemLength(s: string): (n: nat)
    ensures n == |Stem(s)| && n <= |s| && s[..n] == Stem(s) && (n < |s| ==> s[n] == '?') && '?' !in s[..n]
  {
    if s == "" || s[0] == '?' then 0
    else
      var n := 1 + StemLength(s[1..]);
      assert s[..n] == [s[0]] + s[1..][..n - 1];
      n
  }

  /** The test of the loop: the entry agrees with the capability on its stem, and ends there or goes on with
      parameters. */
  predicate SameUpTo(entry: string, cap: string, len: nat)
    requires len <= |cap|
  {
    len <= |entry| && entry[..len] == cap[..len] && (At(entry, len) == '\0' || At(entry, len) == '?')
  }

  /** The test finds exactly the entries with the same stem. */
  lemma SameUpToIsStem(entry: string, cap: string)
    requires '\0' !in entry
    ensures SameUpTo(entry, cap, StemLength(cap)) <==> Stem(entry) == Stem(cap)
  {
    var n := StemLength(cap);
    if SameUpTo(entry, cap, n) {
      if n < |entry| { assert entry[n] in entry; }
    }
    assert StemLength(entry) == |Stem(entry)|;
  }

  predicate HasStem(caps: seq<string>, stem: string) {
    exists i :: 0 <= i < |caps| && Stem(caps[i]) == stem
  }

  function Added(caps: seq<string>, cap: string): seq<string> {
    if HasStem(caps, Stem(cap)) then caps else caps + [cap]
  }

  predicate DistinctStems(caps: seq<string>) {
    forall i, j :: 0 <= i < j < |caps| ==> Stem(caps[i]) != Stem(caps[j])
  }

  predicate AllNulFree(caps: seq<string>) {
    forall i :: 0 <= i < |caps| ==> '\0' !in caps[i]
  }

  /** The array with its two counters; the entries are the first `count` places. */
  class Caps {
    var items: array<string>
    var size: nat
    var count: nat

    ghost predicate Valid()
      reads this, items
    {
      count <= size == items.Length && AllNulFree(items[..count]) && DistinctStems(items[..count])
    }

    ghost function Entries(): seq<string>
      reads this, items
      requires Valid()
    {
      items[..count]
    }

    constructor ()
      ensures Valid() && fresh(items) && Entries() == []
    {
      items := new string[10];
      size, count := 10, 0;
    }

    /** `add_cpblt` with a capability */
    method Add(cap: string)
      requires Valid() && '\0' !in cap
      modifies this, items
      ensures Valid() && Entries() == Added(old(Entries()), cap)
      ensures items == old(items) || fresh(items)
    {
      hide Stem;
      ghost var was := items[..count];
      var len := StemLength(cap);
      var i := 0;
      while i < count
        invariant 0 <= i <= count && forall j :: 0 <= j < i ==> Stem(was[j]) != Stem(cap)
        modifies {}
      {
        SameUpToIsStem(items[i], cap);
        if SameUpTo(items[i], cap, len) {
          assert Stem(was[i]) == Stem(cap);
          return;
        }
        i := i + 1;
      }
      if count == size {
        size := size + 5;
        var bigger := new string[size];
        var j := 0;
        while j < count
          invariant 0 <= j <= count && bigger[..j] == was[..j]
          modifies bigger
        {
          bigger[j] := items[j];
          j := j + 1;
        }
        items := bigger;
      }
      items[count] := cap;
      count := count + 1;
      AddedOne(was, cap, items[..count]);
    }
  }

  lemma AddedOne(was: seq<string>, cap: string, now: seq<string>)
    requires DistinctStems(was) && AllNulFree(was) && '\0' !in cap && now == was + [cap]
    requires forall j :: 0 <= j < |was| ==> Stem(was[j]) != Stem(cap)
    ensures DistinctStems(now) && AllNulFree(now) && now == Added(was, cap)
  {
    hide Stem;
  }

  // ----- runs -----

  function AddedAll(caps: seq<string>, more: seq<string>): seq<string> {
    if more == [] then caps else Added(AddedAll(caps, more[..|more| - 1]), more[|more| - 1])
  }

  /** The entries of a list that have a stem not met before them. */
  function FirstOfStems(list: seq<string>): seq<string> {
    if list == [] then []
    else
      var n := |list| - 1;
      FirstOfStems(list[..n]) + if HasStem(list[..n], Stem(list[n])) then [] else [list[n]]
  }

  lemma {:induction false} SameStems(list: seq<string>, stem: string)
    ensures HasStem(FirstOfStems(list), stem) <==> HasStem(list, stem)
  {
    hide Stem, HasStem;
    if list != [] {
      var n := |list| - 1;
      SameStems(list[..n], stem);
      assert list == list[..n] + [list[n]];
      assert FirstOfStems(list[..n]) + [] == FirstOfStems(list[..n]);
      HasStemSnoc(list[..n], list[n], stem);
      HasStemSnoc(FirstOfStems(list[..n]), list[n], stem);
    }
  }

  lemma HasStemSnoc(caps: seq<string>, x: string, stem: string)
    ensures HasStem(caps + [x], stem) <==> HasStem(caps, stem) || Stem(x) == stem
  {
    hide Stem;
    var all := caps + [x];
    assert all[|caps|] == x;
    if HasStem(caps, stem) {
      var i :| 0 <= i < |caps| && Stem(caps[i]) == stem;
      assert all[i] == caps[i];
    }
  }

  /** Any run of additions: of the capabilities with the same stem the first one is kept, the rest are not, and
      what is kept is in the order of the additions. */
  lemma {:induction false} RunKeepsFirst(more: seq<string>)
    ensures AddedAll([], more) == FirstOfStems(more) && DistinctStems(AddedAll([], more))
  {
    hide Stem, HasStem;
    if more != [] {
      var n := |more| - 1;
      RunKeepsFirst(more[..n]);
      SameStems(more[..n], Stem(more[n]));
      if !HasStem(more[..n], Stem(more[n])) { NewStem(FirstOfStems(more[..n]), more[n]); }
    }
  }

  lemma NewStem(caps: seq<string>, x: string)
    requires DistinctStems(caps) && !HasStem(caps, Stem(x))
    ensures DistinctStems(caps + [x])
  {
    hide Stem;
  }
}
