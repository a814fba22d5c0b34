/** `nc_read_until` of `io.c`: bytes are taken from the session until an end tag has been read. Never more
    than the missing part of the tag is taken at a time, so that nothing behind the tag is consumed. */
module EndTag {
  import opened CText

  const BUFFERSIZE := 512

  /** The bytes that the transport still delivers. A read that cannot be served in full fails. */
  class Wire {
    var rest: string

    constructor (bytes: string)
      ensures rest == bytes
    {
      rest := bytes;
    }

    /** `nc_read` */
    method Take(count: nat) returns (r: Option<string>)
      modifies this
      ensures count <= |old(rest)| ==> r == Some(old(rest)[..count]) && rest == old(rest)[count..]
      ensures count > |old(rest)| ==> r == None && rest == ""
    {
      if count <= |rest| {
        r := Some(rest[..count]);
        rest := rest[count..];
      } else {
        r := None;
        rest := "";
      }
    }
  }

  // ----- the search as a function of the bytes -----

  /** The first `k` characters of the tag are the last `k` of the `c` bytes read. */
  predicate EndsWith(s: string, c: nat, tag: string, k: nat) {
    k <= c <= |s| && k <= |tag| && s[c - k..c] == tag[..k]
  }

  /** The longest start of the tag, of at most `i` characters, that ends at `c`. */
  function Retry(s: string, c: nat, tag: string, i: nat): (k: nat)
    requires i <= c <= |s| && i <= |tag|
    ensures k <= i && EndsWith(s, c, tag, k)
    ensures forall j :: k < j <= i ==> !EndsWith(s, c, tag, j)
  {
    if i == 0 || EndsWith(s, c, tag, i) then i else Retry(s, c, tag, i - 1)
  }

  /** How much of the tag is matched once `c` bytes are read, when `matched` was before the last read. */
  function Rematch(s: string, c: nat, tag: string, matched: nat): nat
    requires matched < |tag| && |tag| - matched <= c <= |s|
  {
    var need := |tag| - matched;
    if s[c - need..c] == tag[matched..] then |tag| else Retry(s, c, tag, need - 1)
  }

  /** Number of bytes taken until the tag is found, from the state `count`, `matched` of the loop on. */
  function Search(s: string, tag: string, count: nat, matched: nat, limit: nat): (r: Option<nat>)
    requires matched < |tag| && count <= |s|
    ensures r.Some? ==> count + (|tag| - matched) <= r.value <= |s|
    decreases |s| - count
  {
    var c := count + (|tag| - matched);
    if (limit != 0 && count == limit) || c > |s| then None
    else
      var m := Rematch(s, c, tag, matched);
      if m == |tag| then Some(c) else Search(s, tag, c, m, limit)
  }

  function Until(s: string, tag: string): (r: Option<nat>)
    requires tag != ""
    ensures r.Some? ==> |tag| <= r.value <= |s|
  {
    Search(s, tag, 0, 0, 0)
  }

  lemma Glue(s: string, count: nat, c: nat, tag: string, matched: nat)
    requires matched <= |tag| && EndsWith(s, count, tag, matched)
    requires c == count + (|tag| - matched) <= |s| && s[count..c] == tag[matched..]
    ensures EndsWith(s, c, tag, |tag|)
  {
    assert s[c - |tag|..c] == s[count - matched..count] + s[count..c];
    assert tag[..|tag|] == tag[..matched] + tag[matched..];
  }

  /** The matched counter stays true: after every read it is the length of a start of the tag that ends the data. */
  lemma RematchIsTrue(s: string, tag: string, count: nat, matched: nat)
    requires matched < |tag| && EndsWith(s, count, tag, matched) && count + (|tag| - matched) <= |s|
    ensures var c := count + (|tag| - matched); EndsWith(s, c, tag, Rematch(s, c, tag, matched))
  {
    hide EndsWith, Retry;
    CountInRange(s, count, tag, matched);
    var c := count + (|tag| - matched);
    if s[count..c] == tag[matched..] {
      Glue(s, count, c, tag, matched);
    }
  }

  /** Soundness: what is taken ends with the tag, provided the matched counter told the truth. */
  lemma {:induction false} SearchEndsWithTag(s: string, tag: string, count: nat, matched: nat, limit: nat)
    requires matched < |tag| && EndsWith(s, count, tag, matched)
    ensures var r := Search(s, tag, count, matched, limit); r.Some? ==> EndsWith(s, r.value, tag, |tag|)
    decreases |s| - count
  {
    hide EndsWith, Retry;
    CountInRange(s, count, tag, matched);
    var c := count + (|tag| - matched);
    if !(limit != 0 && count == limit) && c <= |s| {
      RematchIsTrue(s, tag, count, matched);
      if Rematch(s, c, tag, matched) != |tag| {
        SearchEndsWithTag(s, tag, c, Rematch(s, c, tag, matched), limit);
      }
    }
  }

  lemma CountInRange(s: string, count: nat, tag: string, matched: nat)
    requires EndsWith(s, count, tag, matched)
    ensures matched <= count <= |s|
  {
  }

  lemma UntilEndsWithTag(s: string, tag: string)
    requires tag != ""
    ensures var r := Until(s, tag); r.Some? ==> |tag| <= r.value <= |s| && s[r.value - |tag|..r.value] == tag
  {
    hide Search;
    SearchEndsWithTag(s, tag, 0, 0, 0);
    var r := Until(s, tag);
    assert r.Some? ==> tag[..|tag|] == tag;
  }

  // ----- the limit -----

  /** A limit that the tag keeps within changes nothing. */
  lemma {:induction false} LimitPermits(s: string, tag: string, count: nat, matched: nat, limit: nat)
    requires matched < |tag| && count <= |s|
    requires var r := Search(s, tag, count, matched, 0); r.Some? ==> r.value <= limit
    requires limit != 0 && Search(s, tag, count, matched, 0).Some?
    ensures Search(s, tag, count, matched, limit) == Search(s, tag, count, matched, 0)
    decreases |s| - count
  {
    hide Retry, EndsWith;
    var c := count + (|tag| - matched);
    if c <= |s| && Rematch(s, c, tag, matched) != |tag| {
      LimitPermits(s, tag, c, Rematch(s, c, tag, matched), limit);
    }
  }

  /** With a tag of one character every number of bytes is looked at, so the limit is exact: the tag is found if and only
      if it is found without the limit and within it. */
  lemma {:induction false} LimitIsExact(s: string, c: char, count: nat, limit: nat)
    requires count <= |s| && 0 < limit && count <= limit
    ensures var (r, free) := (Search(s, [c], count, 0, limit), Search(s, [c], count, 0, 0));
      r == if free.Some? && free.value <= limit then free else None
    decreases |s| - count
  {
    if count < limit && count < |s| {
      assert Retry(s, count + 1, [c], 0) == 0;
      LimitIsExact(s, c, count + 1, limit);
    }
  }

  // ----- the method -----

  /** The buffer of `nc_read_until`: `size` characters and a terminating zero. */
  method Grow(chunk: array<char>, count: nat, size: nat) returns (bigger: array<char>)
    requires count <= chunk.Length <= size + 1
    ensures fresh(bigger) && bigger.Length == size + 1 && bigger[..count] == chunk[..count]
  {
    bigger := new char[size + 1];
    var i := 0;
    while i < count
      invariant i <= count && bigger[..i] == chunk[..i]
    {
      bigger[i] := chunk[i];
      i := i + 1;
    }
  }

  /** The inner loop: how much of the tag the bytes read so far end with. */
  method MatchTail(chunk: array<char>, count: nat, tag: string, was: nat) returns (matched: nat)
    requires was < |tag| && |tag| - was <= count <= chunk.Length
    ensures matched == Rematch(chunk[..count], count, tag, was) <= |tag|
  {
    ghost var s := chunk[..count];
    var need := |tag| - was;
    matched := was;
    var i := need;
    while i > 0
      invariant 0 <= i <= need && matched == (if i == need then was else 0)
      invariant i < need ==> s[count - need..count] != tag[was..] && Retry(s, count, tag, need - 1) == Retry(s, count, tag, i)
    {
      assert chunk[count - i..count] == s[count - i..count];
      if chunk[count - i..count] == tag[matched..matched + i] {
        assert i == need ==> tag[matched..matched + i] == tag[was..];
        matched := matched + i;
        return;
      }
      assert i == need ==> tag[matched..matched + i] == tag[was..];
      matched := 0;
      i := i - 1;
    }
  }

  /** `nc_read_until`: the bytes up to the tag are returned and nothing behind it is taken. Reads stay inside
      the buffer, which grows with them, and so does the terminating zero that a read puts behind its bytes. */
  method ReadUntil(wire: Wire, tag: string, limit: nat) returns (r: Option<string>)
    requires 0 < |tag| <= BUFFERSIZE
    modifies wire
    ensures match Search(old(wire.rest), tag, 0, 0, limit)
      case None => r == None
      case Some(n) => r == Some(old(wire.rest)[..n]) && wire.rest == old(wire.rest)[n..]
  {
    hide Rematch, Retry, Search;
    ghost var s := wire.rest;
    var size := if limit != 0 && limit < BUFFERSIZE then limit else BUFFERSIZE;
    var chunk := new char[size + 1];
    var count: nat, matched: nat := 0, 0;
    while true
      invariant 0 <= count <= size && chunk.Length == size + 1 && fresh(chunk) && matched < |tag|
      invariant count <= |s| && chunk[..count] == s[..count] && wire.rest == s[count..]
      invariant Search(s, tag, 0, 0, limit) == Search(s, tag, count, matched, limit)
      decreases |s| - count
    {
      SearchUnfolds(s, tag, count, matched, limit);
      if limit != 0 && count == limit { return None; }
      var need := |tag| - matched;
      if count + need >= size {
        size := size + BUFFERSIZE;
        chunk := Grow(chunk, count, size);
      }
      assert count + need < chunk.Length;
      var bytes := wire.Take(need);
      if bytes == None { return None; }
      Store(chunk, count, bytes.value);
      Longer(s, count, need);
      RematchOfPrefix(s, count + need, tag, matched);
      count := count + need;
      matched := MatchTail(chunk, count, tag, matched);
      if matched == |tag| { break; }
    }
    chunk[count] := '\0';
    r := Some(chunk[..count]);
  }

  lemma SearchUnfolds(s: string, tag: string, count: nat, matched: nat, limit: nat)
    requires matched < |tag| && count <= |s|
    ensures var c := count + (|tag| - matched);
      Search(s, tag, count, matched, limit) ==
        if (limit != 0 && count == limit) || c > |s| then None
        else if Rematch(s, c, tag, matched) == |tag| then Some(c)
        else Search(s, tag, c, Rematch(s, c, tag, matched), limit)
  {
    hide Rematch;
  }

  lemma Longer(s: string, count: nat, need: nat)
    requires count + need <= |s|
    ensures s[..count] + s[count..][..need] == s[..count + need] && s[count..][need..] == s[count + need..]
  {
  }

  /** The bytes of a read, with a zero behind them. */
  method Store(chunk: array<char>, at: nat, bytes: string)
    requires at + |bytes| < chunk.Length
    modifies chunk
    ensures chunk[..at + |bytes|] == old(chunk[..at]) + bytes
  {
    var i := 0;
    while i < |bytes|
      invariant i <= |bytes| && chunk[..at + i] == old(chunk[..at]) + bytes[..i]
    {
      chunk[at + i] := bytes[i];
      i := i + 1;
    }
    chunk[at + |bytes|] := '\0';
  }

  /** Only the bytes read so far count. */
  lemma RematchOfPrefix(s: string, c: nat, tag: string, matched: nat)
    requires matched < |tag| && |tag| - matched <= c <= |s|
    ensures Rematch(s[..c], c, tag, matched) == Rematch(s, c, tag, matched)
  {
    var need := |tag| - matched;
    assert s[..c][c - need..c] == s[c - need..c];
    RetryOfPrefix(s, c, tag, need - 1);
  }

  lemma {:induction false} RetryOfPrefix(s: string, c: nat, tag: string, i: nat)
    requires i <= c <= |s| && i <= |tag|
    ensures Retry(s[..c], c, tag, i) == Retry(s, c, tag, i)
  {
    assert s[..c][c - i..c] == s[c - i..c];
    if i > 0 { RetryOfPrefix(s, c, tag, i - 1); }
  }
}
