/** Exactly which `<hello>` elements the two ends accept (`parse_cpblts`, `nc_recv_client_hello_io` and
    `nc_recv_server_hello_io` of `session.c`), for every element that a peer may send. */
module HelloAccepted {
  import opened CText
  import opened Numerals
  import opened Xml
  import opened RpcError
  import opened CapabilityList
  import opened Handshake

  /** What trimming leaves: the text between blanks. */
  lemma TrimmedBetween(a: string, t: string, b: string)
    requires IsBlank(a) && IsBlank(b) && (t == "" || Proper(t))
    ensures Trimmed(a + (t + b)) == t
  {
    var s := a + (t + b);
    var l, r := |a|, |a| + |t|;
    assert forall k :: 0 <= k < |a| ==> s[k] == a[k];
    assert forall k :: 0 <= k < |b| ==> s[r + k] == b[k];
    assert SpacesIn(s, 0, l) && SpacesIn(s, r, |s|) by {
      forall k | r <= k < |s| ensures IsSpace(s[k]) { assert s[k] == b[k - r]; }
    }
    if t != "" { assert s[l] == t[0] && s[r - 1] == t[|t| - 1]; }
    InkOfPadded(s, 0, l, r, |s|);
    assert s[l..r] == t;
  }

  // ----- the list of capabilities -----

  predicate InBase(x: Elem, bound: Bound) {
    PrefixOf(x.tag) in bound
  }

  predicate EntryOk(x: Elem) {
    Local(x.tag) == "capability" && Trimmed(x.text) != ""
  }

  /** The elements of the base namespace in order. */
  function BaseKids(kids: seq<Elem>, bound: Bound): seq<Elem> {
    if kids == [] then []
    else (if InBase(kids[0], bound) then [kids[0]] else []) + BaseKids(kids[1..], bound)
  }

  function TrimmedTexts(xs: seq<Elem>): seq<string> {
    seq(|xs|, i requires 0 <= i < |xs| => Trimmed(xs[i].text))
  }

  lemma {:induction false} BaseSnoc(kids: seq<Elem>, x: Elem, bound: Bound)
    ensures BaseKids(kids + [x], bound) == BaseKids(kids, bound) + if InBase(x, bound) then [x] else []
    decreases |kids|
  {
    hide InBase;
    if kids != [] {
      assert (kids + [x])[1..] == kids[1..] + [x];
      BaseSnoc(kids[1..], x, bound);
    } else {
      assert (kids + [x])[1..] == [];
    }
  }

  predicate AllEntries(xs: seq<Elem>) {
    forall i :: 0 <= i < |xs| ==> EntryOk(xs[i])
  }

  lemma EntriesSnoc(xs: seq<Elem>, x: Elem)
    ensures AllEntries(xs + [x]) <==> AllEntries(xs) && EntryOk(x)
    ensures TrimmedTexts(xs + [x]) == TrimmedTexts(xs) + [Trimmed(x.text)]
  {
    hide EntryOk;
    var all := xs + [x];
    if AllEntries(all) {
      assert all[|xs|] == x;
      forall i | 0 <= i < |xs| ensures EntryOk(xs[i]) { assert all[i] == xs[i]; }
    }
  }

  /** A list is taken if and only if every element of the base namespace in it is a capability that is not blank, and
      then its entries are those texts, trimmed, in order. */
  lemma {:induction false} ListIff(kids: seq<Elem>, bound: Bound)
    ensures Texts(kids, bound)
         == if AllEntries(BaseKids(kids, bound)) then Some(TrimmedTexts(BaseKids(kids, bound))) else None
    decreases |kids|
  {
    hide Trimmed, PrefixOf, Local, AllEntries, TrimmedTexts;
    if kids == [] {
      NoEntries();
    } else {
      var n := |kids| - 1;
      assert kids == kids[..n] + [kids[n]];
      ListIff(kids[..n], bound);
      BaseSnoc(kids[..n], kids[n], bound);
      EntriesSnoc(BaseKids(kids[..n], bound), kids[n]);
      assert BaseKids(kids[..n], bound) + [] == BaseKids(kids[..n], bound);
    }
  }

  lemma NoEntries()
    ensures AllEntries([]) && TrimmedTexts([]) == []
  {
  }

  // ----- the session id -----

  predicate IsSessionId(text: string, n: nat, blanks: string, plus: string, digits: string) {
    && text == blanks + (plus + digits) && IsBlank(blanks) && (plus == "" || plus == "+")
    && digits != "" && AllDigits(digits) && DigitsValue(digits) == n && 1 <= n < UINT32
  }

  lemma SessionIdShown(text: string, n: nat, blanks: string, plus: string, digits: string)
    requires IsSessionId(text, n, blanks, plus, digits)
    ensures SessionId(text) == Some(n)
  {
    var i, j := |blanks|, |blanks| + |plus|;
    assert forall k :: 0 <= k < i ==> text[k] == blanks[k];
    assert forall k :: 0 <= k < |digits| ==> text[j + k] == digits[k];
    assert text[i] == (plus + digits)[0];
    assert FirstInk(text, 0, |text|) == i;
    assert DigitsEnd(text, j) == |text| by {
      forall k | j <= k < |text| ensures IsDigit(text[k]) { assert text[k] == digits[k - j]; }
    }
    assert text[j..|text|] == digits;
  }

  lemma SessionIdTaken(text: string, n: nat) returns (blanks: string, plus: string, digits: string)
    requires SessionId(text) == Some(n)
    ensures IsSessionId(text, n, blanks, plus, digits)
  {
    hide IsBlank, IsSessionId, FirstInk;
    var i := FirstInk(text, 0, |text|);
    var j := if At(text, i) == '+' then i + 1 else i;
    blanks, plus, digits := text[0..i], text[i..j], text[j..|text|];
    IdParts(text, i, j, n);
  }

  lemma IdParts(text: string, i: nat, j: nat, n: nat)
    requires i <= j < |text| && SpacesIn(text, 0, i) && (j == i || (j == i + 1 && At(text, i) == '+'))
    requires AllDigits(text[j..|text|]) && DigitsValue(text[j..|text|]) == n && 1 <= n < UINT32
    ensures IsSessionId(text, n, text[0..i], text[i..j], text[j..|text|])
  {
    hide DigitsValue, AllDigits;
    ThreeParts(text, 0, i, j, |text|);
    WholeText(text);
    SignPart(text, i, j);
  }

  lemma WholeText(t: string)
    ensures t[0..|t|] == t
  {
  }

  lemma SignPart(t: string, i: nat, j: nat)
    requires i <= j <= |t| && (j == i || (j == i + 1 && At(t, i) == '+'))
    ensures t[i..j] == "" || t[i..j] == "+"
  {
  }

  /** A session id is taken if and only if it is written in digits, from 1 to the largest 32-bit number, perhaps with
      blanks and a plus sign before them. */
  lemma SessionIdIff(text: string, n: nat)
    ensures SessionId(text) == Some(n) <==> exists blanks, plus, digits :: IsSessionId(text, n, blanks, plus, digits)
  {
    hide SessionId, IsSessionId;
    if SessionId(text) == Some(n) {
      var blanks, plus, digits := SessionIdTaken(text, n);
    }
    if blanks, plus, digits :| IsSessionId(text, n, blanks, plus, digits) {
      SessionIdShown(text, n, blanks, plus, digits);
    }
  }

  // ----- the whole element -----

  predicate IsId(x: Elem, bound: Bound) {
    InBase(x, bound) && Local(x.tag) == "session-id"
  }

  predicate IsList(x: Elem, bound: Bound) {
    InBase(x, bound) && Local(x.tag) == "capabilities"
  }

  /** A list that is taken and leads to a version. */
  predicate ListOk(x: Elem, bound: Bound) {
    Texts(x.kids, bound).Some? && VersionOf(Texts(x.kids, bound).value) >= 0
  }

  /** A child outside the base namespace, a valid list or, for a client, a valid id. */
  predicate KidOk(x: Elem, bound: Bound, client: bool) {
    InBase(x, bound) ==>
      if IsList(x, bound) then ListOk(x, bound) else client && IsId(x, bound) && SessionId(x.text).Some?
  }

  predicate KidsOk(kids: seq<Elem>, bound: Bound, client: bool) {
    forall i :: 0 <= i < |kids| ==> KidOk(kids[i], bound, client)
  }

  predicate HasList(kids: seq<Elem>, bound: Bound) {
    exists i :: 0 <= i < |kids| && IsList(kids[i], bound)
  }

  predicate HasId(kids: seq<Elem>, bound: Bound) {
    exists i :: 0 <= i < |kids| && IsId(kids[i], bound)
  }

  predicate OneList(kids: seq<Elem>, bound: Bound) {
    forall i, j :: 0 <= i < j < |kids| ==> !(IsList(kids[i], bound) && IsList(kids[j], bound))
  }

  lemma HasFront(kids: seq<Elem>, bound: Bound)
    requires kids != []
    ensures HasList(kids, bound) <==> IsList(kids[0], bound) || HasList(kids[1..], bound)
    ensures HasId(kids, bound) <==> IsId(kids[0], bound) || HasId(kids[1..], bound)
  {
    hide IsList, IsId;
    var rest := kids[1..];
    assert forall i :: 1 <= i < |kids| ==> kids[i] == rest[i - 1];
    if HasList(rest, bound) { var i :| 0 <= i < |rest| && IsList(rest[i], bound); assert IsList(kids[i + 1], bound); }
    if HasId(rest, bound) { var i :| 0 <= i < |rest| && IsId(rest[i], bound); assert IsId(kids[i + 1], bound); }
  }

  lemma OneFront(kids: seq<Elem>, bound: Bound)
    requires kids != []
    ensures OneList(kids, bound) <==> OneList(kids[1..], bound) && !(IsList(kids[0], bound) && HasList(kids[1..], bound))
  {
    hide IsList;
    var rest := kids[1..];
    assert forall i :: 1 <= i < |kids| ==> kids[i] == rest[i - 1];
    if OneList(kids, bound) {
      forall i, j | 0 <= i < j < |rest| ensures !(IsList(rest[i], bound) && IsList(rest[j], bound)) {
        assert rest[i] == kids[i + 1] && rest[j] == kids[j + 1];
      }
      if HasList(rest, bound) { var i :| 0 <= i < |rest| && IsList(rest[i], bound); assert rest[i] == kids[i + 1]; }
    }
  }

  lemma OkFront(kids: seq<Elem>, bound: Bound, client: bool)
    requires kids != []
    ensures KidsOk(kids, bound, client) <==> KidOk(kids[0], bound, client) && KidsOk(kids[1..], bound, client)
  {
    hide KidOk;
    var rest := kids[1..];
    assert forall i :: 1 <= i < |kids| ==> kids[i] == rest[i - 1];
    if KidsOk(kids, bound, client) {
      forall i | 0 <= i < |rest| ensures KidOk(rest[i], bound, client) { assert rest[i] == kids[i + 1]; }
    }
  }

  lemma FrontSplits(kids: seq<Elem>, bound: Bound, client: bool)
    requires kids != []
    ensures var (x, rest) := (kids[0], kids[1..]);
      && (HasList(kids, bound) <==> IsList(x, bound) || HasList(rest, bound))
      && (HasId(kids, bound) <==> IsId(x, bound) || HasId(rest, bound))
      && (OneList(kids, bound) <==> OneList(rest, bound) && !(IsList(x, bound) && HasList(rest, bound)))
      && (KidsOk(kids, bound, client) <==> KidOk(x, bound, client) && KidsOk(rest, bound, client))
  {
    hide IsList, IsId, KidOk, HasList, HasId, OneList, KidsOk;
    HasFront(kids, bound);
    OneFront(kids, bound);
    OkFront(kids, bound, client);
  }

  /** An accepted `<hello>` leaves the list that it holds, or what was there before, and the last of its ids. */
  predicate Kept(r: Peer, kids: seq<Elem>, bound: Bound, id: nat, ver: int, caps: seq<string>)
    requires r.Agreed?
  {
    && (forall i :: 0 <= i < |kids| && IsList(kids[i], bound) ==>
          Texts(kids[i].kids, bound) == Some(r.caps) && r.version == VersionOf(r.caps))
    && (!HasList(kids, bound) ==> r.version == ver && r.caps == caps)
    && (forall i :: 0 <= i < |kids| && IsId(kids[i], bound) && !HasId(kids[i + 1..], bound) ==>
          SessionId(kids[i].text) == Some(r.id))
    && (!HasId(kids, bound) ==> r.id == id)
  }

  lemma KeptFront(r: Peer, kids: seq<Elem>, bound: Bound, id: nat, ver: int, caps: seq<string>,
                    id': nat, ver': int, caps': seq<string>)
    requires r.Agreed? && kids != [] && Kept(r, kids[1..], bound, id', ver', caps')
    requires var x := kids[0];
      && (if IsList(x, bound) then Texts(x.kids, bound) == Some(caps') && ver' == VersionOf(caps') && !HasList(kids[1..], bound)
          else ver' == ver && caps' == caps)
      && (if IsId(x, bound) then SessionId(x.text) == Some(id') else id' == id)
    ensures Kept(r, kids, bound, id, ver, caps)
  {
    hide IsList, IsId, Texts, SessionId, VersionOf;
    FrontSplits(kids, bound, true);
    var rest := kids[1..];
    assert forall i :: 1 <= i < |kids| ==> kids[i] == rest[i - 1] && kids[i + 1..] == rest[i - 1 + 1..];
  }

  lemma {:induction false} ClientFromIff(kids: seq<Elem>, bound: Bound, flag: bool, id: nat, ver: int, caps: seq<string>)
    ensures var r := ClientFrom(kids, bound, flag, id, ver, caps);
      && (r.Agreed? <==> KidsOk(kids, bound, true) && OneList(kids, bound) && !(flag && HasList(kids, bound))
                         && (id != 0 || HasId(kids, bound)))
      && (r.Agreed? ==> Kept(r, kids, bound, id, ver, caps))
    decreases |kids|
  {
    hide PrefixOf, Local, SessionId, Texts, VersionOf, KidsOk, OneList, HasList, HasId, Kept;
    var r := ClientFrom(kids, bound, flag, id, ver, caps);
    if kids == [] {
      NoKids(bound);
      NoneKept(r, bound, id, ver, caps);
    } else {
      var x, rest := kids[0], kids[1..];
      FrontSplits(kids, bound, true);
      Names();
      if !InBase(x, bound) {
        ClientFromIff(rest, bound, flag, id, ver, caps);
        if r.Agreed? { KeptFront(r, kids, bound, id, ver, caps, id, ver, caps); }
      } else if IsId(x, bound) && SessionId(x.text).Some? {
        var n := SessionId(x.text).value;
        IdPositive(x.text);
        ClientFromIff(rest, bound, flag, n, ver, caps);
        if r.Agreed? { KeptFront(r, kids, bound, id, ver, caps, n, ver, caps); }
      } else if IsList(x, bound) && !flag && ListOk(x, bound) {
        var texts := Texts(x.kids, bound).value;
        ClientFromIff(rest, bound, true, id, VersionOf(texts), texts);
        if r.Agreed? { KeptFront(r, kids, bound, id, ver, caps, id, VersionOf(texts), texts); }
      }
    }
  }

  lemma Names()
    ensures "session-id" != "capabilities"
  {
    assert |"session-id"| == 10 && |"capabilities"| == 12;
  }

  lemma IdPositive(text: string)
    requires SessionId(text).Some?
    ensures SessionId(text).value > 0
  {
  }

  lemma NoKids(bound: Bound)
    ensures KidsOk([], bound, true) && KidsOk([], bound, false) && OneList([], bound)
    ensures !HasList([], bound) && !HasId([], bound)
  {
  }

  lemma NoneKept(r: Peer, bound: Bound, id: nat, ver: int, caps: seq<string>)
    ensures r == Agreed(ver, id, caps) ==> Kept(r, [], bound, id, ver, caps)
  {
  }

  /** The client accepts a `<hello>` if and only if it holds, of the base namespace, nothing but at most one valid list
      of capabilities and at least one session id, all of them valid; it keeps the list and the last id. Without a list
      the version stays 1.0. */
  lemma ClientAcceptsIff(kids: seq<Elem>, bound: Bound)
    ensures var r := ClientFrom(kids, bound, false, 0, 0, []);
      && (r.Agreed? <==> KidsOk(kids, bound, true) && OneList(kids, bound) && HasId(kids, bound))
      && (r.Agreed? ==> Kept(r, kids, bound, 0, 0, []))
  {
    hide ClientFrom, KidsOk, OneList, HasList, HasId, Kept;
    ClientFromIff(kids, bound, false, 0, 0, []);
  }

  lemma {:induction false} ServerFromIff(kids: seq<Elem>, bound: Bound, flag: bool, ver: int)
    ensures var r := ServerFrom(kids, bound, flag, ver);
      && (r.Agreed? <==> KidsOk(kids, bound, false) && OneList(kids, bound) && !(flag && HasList(kids, bound)))
      && (r.Agreed? ==> VersionLeft(r.version, kids, bound, ver))
    decreases |kids|
  {
    hide PrefixOf, Local, Texts, VersionOf, KidsOk, OneList, HasList, HasId, VersionLeft, SessionId;
    var r := ServerFrom(kids, bound, flag, ver);
    if kids == [] {
      NoKids(bound);
      NoVersionLeft(bound, ver);
    } else {
      var x, rest := kids[0], kids[1..];
      FrontSplits(kids, bound, false);
      if !InBase(x, bound) {
        ServerFromIff(rest, bound, flag, ver);
        if r.Agreed? { VersionFront(r.version, kids, bound, ver, ver); }
      } else if IsList(x, bound) && !flag && ListOk(x, bound) {
        var v := VersionOf(Texts(x.kids, bound).value);
        ServerFromIff(rest, bound, true, v);
        if r.Agreed? { VersionFront(r.version, kids, bound, ver, v); }
      }
    }
  }

  /** The version of the list, or the one from before. */
  predicate VersionLeft(version: int, kids: seq<Elem>, bound: Bound, ver: int) {
    && (forall i :: 0 <= i < |kids| && IsList(kids[i], bound) ==>
          Texts(kids[i].kids, bound).Some? && version == VersionOf(Texts(kids[i].kids, bound).value))
    && (!HasList(kids, bound) ==> version == ver)
  }

  lemma NoVersionLeft(bound: Bound, ver: int)
    ensures VersionLeft(ver, [], bound, ver)
  {
  }

  lemma VersionFront(version: int, kids: seq<Elem>, bound: Bound, ver: int, ver': int)
    requires kids != [] && VersionLeft(version, kids[1..], bound, ver')
    requires var x := kids[0];
      if IsList(x, bound) then Texts(x.kids, bound).Some? && ver' == VersionOf(Texts(x.kids, bound).value) && !HasList(kids[1..], bound)
      else ver' == ver
    ensures VersionLeft(version, kids, bound, ver)
  {
    hide IsList, Texts, VersionOf;
    FrontSplits(kids, bound, false);
    assert forall i :: 1 <= i < |kids| ==> kids[i] == kids[1..][i - 1];
  }

  /** The server accepts a `<hello>` if and only if it holds, of the base namespace, nothing but at most one valid list of
      capabilities. */
  lemma ServerAcceptsIff(kids: seq<Elem>, bound: Bound)
    ensures var r := ServerFrom(kids, bound, false, 0);
      && (r.Agreed? <==> KidsOk(kids, bound, false) && OneList(kids, bound))
      && (r.Agreed? ==> VersionLeft(r.version, kids, bound, 0))
  {
    hide ServerFrom, KidsOk, OneList, HasList, VersionLeft;
    ServerFromIff(kids, bound, false, 0);
  }
}
