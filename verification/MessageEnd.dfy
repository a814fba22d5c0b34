/** How exact the end-tag search is for the NETCONF 1.0 end of message, section 4.3 of RFC 6242. After a
    failed partial match the search goes on with tails of the last read only, so that it can miss an end of
    message; this module says for which messages it does not. */
module MessageEnd {
  import opened CText
  import opened EndTag

  const EOM := "]]>]]>"

  // ----- matching, character by character -----

  /** The last `k` of `c` bytes are the first `k` of the end of message. */
  predicate Tail(s: string, c: nat, k: nat)
    requires k <= c <= |s| && k <= 6
  {
    && (k >= 1 ==> s[c - k] == ']') && (k >= 2 ==> s[c - k + 1] == ']') && (k >= 3 ==> s[c - k + 2] == '>')
    && (k >= 4 ==> s[c - k + 3] == ']') && (k >= 5 ==> s[c - k + 4] == ']') && (k >= 6 ==> s[c - k + 5] == '>')
  }

  /** The last bytes are the end of message from its character `k` on. */
  predicate Completes(s: string, c: nat, k: nat)
    requires k < 6 && 6 - k <= c <= |s|
  {
    && (k == 0 ==> s[c - 6] == ']') && (k <= 1 ==> s[c - 5] == ']') && (k <= 2 ==> s[c - 4] == '>')
    && (k <= 3 ==> s[c - 3] == ']') && (k <= 4 ==> s[c - 2] == ']') && s[c - 1] == '>'
  }

  function Longest(s: string, c: nat, i: nat): nat
    requires i <= c <= |s| && i <= 5
  {
    if i == 0 then 0 else if Tail(s, c, i) then i else Longest(s, c, i - 1)
  }

  /** Slices are equal exactly when their characters are. */
  lemma SlicesEqual(s: string, p: nat, u: string, q: nat, k: nat)
    requires p + k <= |s| && q + k <= |u| && k <= 6
    ensures s[p..p + k] == u[q..q + k] <==>
      && (k >= 1 ==> s[p] == u[q]) && (k >= 2 ==> s[p + 1] == u[q + 1]) && (k >= 3 ==> s[p + 2] == u[q + 2])
      && (k >= 4 ==> s[p + 3] == u[q + 3]) && (k >= 5 ==> s[p + 4] == u[q + 4]) && (k >= 6 ==> s[p + 5] == u[q + 5])
  {
    var a, b := s[p..p + k], u[q..q + k];
    if a == b {
      if k >= 1 { assert a[0] == b[0]; }
      if k >= 2 { assert a[1] == b[1]; }
      if k >= 3 { assert a[2] == b[2]; }
      if k >= 4 { assert a[3] == b[3]; }
      if k >= 5 { assert a[4] == b[4]; }
      if k >= 6 { assert a[5] == b[5]; }
    }
  }

  lemma TailIs(s: string, c: nat, k: nat)
    requires k <= c <= |s| && k <= 6
    ensures EndsWith(s, c, EOM, k) <==> Tail(s, c, k)
  {
    SlicesEqual(s, c - k, EOM, 0, k);
  }

  lemma {:induction false} RetryIsLongest(s: string, c: nat, i: nat)
    requires i <= c <= |s| && i <= 5
    ensures Retry(s, c, EOM, i) == Longest(s, c, i)
  {
    TailIs(s, c, i);
    if i > 0 { RetryIsLongest(s, c, i - 1); }
  }

  lemma CompletesIs(s: string, c: nat, k: nat)
    requires k < 6 && 6 - k <= c <= |s|
    ensures s[c - (6 - k)..c] == EOM[k..] <==> Completes(s, c, k)
  {
    assert EOM[0] == ']' && EOM[1] == ']' && EOM[2] == '>' && EOM[3] == ']' && EOM[4] == ']' && EOM[5] == '>';
    match k
    case 0 => SlicesEqual(s, c - 6, EOM, 0, 6);
    case 1 => SlicesEqual(s, c - 5, EOM, 1, 5);
    case 2 => SlicesEqual(s, c - 4, EOM, 2, 4);
    case 3 => SlicesEqual(s, c - 3, EOM, 3, 3);
    case 4 => SlicesEqual(s, c - 2, EOM, 4, 2);
    case _ => SlicesEqual(s, c - 1, EOM, 5, 1);
  }

  lemma RematchIs(s: string, c: nat, k: nat)
    requires k < 6 && 6 - k <= c <= |s|
    ensures Rematch(s, c, EOM, k) == if Completes(s, c, k) then 6 else Longest(s, c, 5 - k)
  {
    CompletesIs(s, c, k);
    RetryIsLongest(s, c, 5 - k);
  }

  // ----- the search over a message and its end -----

  /** Up to `n` there is no "]]>". */
  predicate Clean(s: string, n: nat)
    requires n <= |s|
  {
    forall i :: 0 <= i < n - 2 ==> !(s[i] == ']' && s[i + 1] == ']' && s[i + 2] == '>')
  }

  /** The end of message stands at `n`. */
  predicate EomAt(s: string, n: nat) {
    n + 6 <= |s| && Completes(s, n + 6, 0)
  }

  /** How many brackets, up to two, stand before `c`. */
  function Run2(s: string, c: nat): nat
    requires 2 <= c <= |s|
  {
    if s[c - 1] != ']' then 0 else if s[c - 2] != ']' then 1 else 2
  }

  /** Whether reading on from `p` with `k` characters matched, the last read that begins inside the message
      takes between 1 and `4 - k` characters of it, so that at least two of the end of message come with it. */
  predicate Lucky(s: string, n: nat, p: nat, k: nat)
    requires n <= |s| && k <= 2 && p <= n
    decreases n - p
  {
    if p + 6 - k <= n then Lucky(s, n, p + 6 - k, Run2(s, p + 6 - k))
    else 1 <= n - p <= 4 - k
  }

  /** The condition on a message: it does not end in a bracket, or the reads fall on it luckily. */
  predicate Separable(s: string, n: nat)
    requires n <= |s|
  {
    n == 0 || s[n - 1] != ']' || Lucky(s, n, 0, 0)
  }

  /** The loop's state while it is inside the message. */
  predicate Within(s: string, n: nat, p: nat, k: nat) {
    && n <= |s| && p <= n && k <= 2 && k <= p && Clean(s, n)
    && (k >= 1 ==> s[p - 1] == ']') && (k == 2 ==> s[p - 2] == ']') && (k == 0 && p > 0 ==> s[p - 1] != ']')
  }

  lemma {:induction false} LongestIs(s: string, c: nat, i: nat, k: nat)
    requires k <= i <= c <= |s| && i <= 5 && Tail(s, c, k)
    requires forall x :: k < x <= i ==> !Tail(s, c, x)
    ensures Longest(s, c, i) == k
  {
    if k < i { LongestIs(s, c, i - 1, k); }
  }

  /** A longer tail that lies inside the message would hold "]]>". */
  lemma NoLongTail(s: string, n: nat, c: nat, i: nat)
    requires n <= |s| && Clean(s, n) && 3 <= i <= 5 && i <= c <= |s| && c - i + 3 <= n
    ensures !Tail(s, c, i)
  {
    assert !(s[c - i] == ']' && s[c - i + 1] == ']' && s[c - i + 2] == '>');
  }

  /** A read that ends inside the message. */
  lemma InsideRead(s: string, n: nat, p: nat, k: nat)
    requires Within(s, n, p, k) && p + 6 - k <= n
    ensures Rematch(s, p + 6 - k, EOM, k) == Run2(s, p + 6 - k)
    ensures Within(s, n, p + 6 - k, Run2(s, p + 6 - k))
  {
    hide Rematch;
    var c := p + 6 - k;
    RematchIs(s, c, k);
    assert !(s[c - 3] == ']' && s[c - 2] == ']' && s[c - 1] == '>');
    forall x | 3 <= x <= 5 - k ensures !Tail(s, c, x) { NoLongTail(s, n, c, x); }
    LongestIs(s, c, 5 - k, Run2(s, c));
  }

  lemma Finishing(s: string, n: nat, j: nat)
    requires EomAt(s, n) && j < 6
    ensures Search(s, EOM, n + j, j, 0) == Some(n + 6)
  {
    RematchIs(s, n + 6, j);
    hide Rematch;
  }

  lemma SearchStep(s: string, p: nat, k: nat, r: nat)
    requires k < 6 && r < 6 && p + 6 - k <= |s| && Rematch(s, p + 6 - k, EOM, k) == r
    ensures Search(s, EOM, p, k, 0) == Search(s, EOM, p + 6 - k, r, 0)
  {
    hide Rematch;
  }

  /** Five characters of the end of message are read, and only its second pair of brackets is noticed. */
  lemma Overrun(s: string, n: nat)
    requires EomAt(s, n)
    ensures Search(s, EOM, n + 5, 2, 0) != Some(n + 6) && Search(s, EOM, n + 4, 1, 0) != Some(n + 6)
  {
    hide Rematch;
  }

  /** The message ends in a bracket that is matched when its end is about to be read. */
  lemma MissedAtEnd(s: string, n: nat, k: nat)
    requires EomAt(s, n) && 1 <= k <= 2
    ensures Search(s, EOM, n, k, 0) != Some(n + 6)
  {
    var c, r := n + 6 - k, if k == 1 then 2 else 1;
    RematchIs(s, c, k);
    LongestIs(s, c, 5 - k, r);
    SearchStep(s, n, k, r);
    Overrun(s, n);
  }

  /** One bracket of the end of message was taken for the second of a pair. */
  lemma MissedAfterOne(s: string, n: nat)
    requires EomAt(s, n)
    ensures Search(s, EOM, n + 1, 2, 0) != Some(n + 6)
  {
    RematchIs(s, n + 5, 2);
    LongestIs(s, n + 5, 3, 2);
    SearchStep(s, n + 1, 2, 2);
    Overrun(s, n);
  }

  /** A read across the end of the message completes no match. */
  lemma CrossingIncomplete(s: string, n: nat, p: nat, k: nat, j: nat)
    requires Within(s, n, p, k) && p < n && p + 6 - k == n + j && 1 <= j && EomAt(s, n)
    ensures !Completes(s, n + j, k)
  {
    if j == 3 { assert !(s[n - 3] == ']' && s[n - 2] == ']' && s[n - 1] == '>'); }
  }

  lemma CrossingTails(s: string, n: nat, j: nat, x: nat)
    requires EomAt(s, n) && Clean(s, n) && 1 <= j < x <= 5 && n + j >= x
    ensures Tail(s, n + j, j)
    ensures Tail(s, n + j, x) <==> j == 1 && x == 2 && s[n - 1] == ']'
  {
    if x - j >= 3 { NoLongTail(s, n, n + j, x); }
  }

  /** What the read that takes the last characters of the message and the first `j` of its end matches. */
  lemma CrossingMatch(s: string, n: nat, p: nat, k: nat, j: nat)
    requires Within(s, n, p, k) && p < n && p + 6 - k == n + j && 1 <= j && EomAt(s, n)
    ensures Rematch(s, n + j, EOM, k) == if j == 1 && s[n - 1] == ']' then 2 else j
  {
    hide Rematch, Clean, EomAt, Completes, Tail;
    EomInRange(s, n);
    var c, r := n + j, if j == 1 && s[n - 1] == ']' then 2 else j;
    RematchIs(s, c, k);
    CrossingIncomplete(s, n, p, k, j);
    forall x | j < x <= 5 - k ensures Tail(s, c, x) <==> j == 1 && x == 2 && s[n - 1] == ']' {
      CrossingTails(s, n, j, x);
    }
    if r == j { TagStarts(s, n, j); }
    LongestIs(s, c, 5 - k, r);
  }

  lemma TagStarts(s: string, n: nat, j: nat)
    requires EomAt(s, n) && 1 <= j <= 5
    ensures Tail(s, n + j, j)
  {
  }

  /** The read that takes the last characters of the message and the first of its end. */
  lemma CrossingRead(s: string, n: nat, p: nat, k: nat)
    requires Within(s, n, p, k) && p + 6 - k > n && EomAt(s, n)
    ensures Search(s, EOM, p, k, 0) == Some(n + 6) <==> n == 0 || s[n - 1] != ']' || 1 <= n - p <= 4 - k
  {
    hide Search, Rematch, EomAt, Clean;
    if p == n {
      if k == 0 { Finishing(s, n, 0); } else { MissedAtEnd(s, n, k); }
    } else {
      var j := p + 6 - k - n;
      CrossingMatch(s, n, p, k, j);
      assert n + j <= |s| by { EomInRange(s, n); }
      if j == 1 && s[n - 1] == ']' {
        SearchStep(s, p, k, 2);
        MissedAfterOne(s, n);
      } else {
        SearchStep(s, p, k, j);
        Finishing(s, n, j);
      }
    }
  }

  lemma EomInRange(s: string, n: nat)
    requires EomAt(s, n)
    ensures n + 6 <= |s|
  {
  }

  lemma {:induction false} SearchExactIff(s: string, n: nat, p: nat, k: nat)
    requires Within(s, n, p, k) && EomAt(s, n)
    ensures Search(s, EOM, p, k, 0) == Some(n + 6) <==> n == 0 || s[n - 1] != ']' || Lucky(s, n, p, k)
    decreases n - p
  {
    hide Rematch, Clean, EomAt, Search;
    EomInRange(s, n);
    if p + 6 - k <= n {
      InsideRead(s, n, p, k);
      SearchStep(s, p, k, Run2(s, p + 6 - k));
      SearchExactIff(s, n, p + 6 - k, Run2(s, p + 6 - k));
    } else {
      CrossingRead(s, n, p, k);
    }
  }

  /** For every message without "]]>", and whatever follows its end: exactly the message and its end are taken
      if and only if the message is separable. */
  lemma ExactIff(m: string, rest: string)
    requires Clean(m, |m|)
    ensures Until(m + EOM + rest, EOM) == Some(|m| + 6) <==> Separable(m, |m|)
  {
    var s, n := m + EOM + rest, |m|;
    assert forall i :: 0 <= i < n ==> s[i] == m[i];
    assert EomAt(s, n) by {
      assert s[n] == EOM[0] && s[n + 1] == EOM[1] && s[n + 2] == EOM[2];
      assert s[n + 3] == EOM[3] && s[n + 4] == EOM[4] && s[n + 5] == EOM[5];
    }
    SearchExactIff(s, n, 0, 0);
    LuckyOfPrefix(m, s, 0, 0);
  }

  lemma {:induction false} LuckyOfPrefix(m: string, s: string, p: nat, k: nat)
    requires |m| <= |s| && (forall i :: 0 <= i < |m| ==> s[i] == m[i]) && k <= 2 && p <= |m|
    ensures Lucky(m, |m|, p, k) == Lucky(s, |m|, p, k)
    decreases |m| - p
  {
    if p + 6 - k <= |m| { LuckyOfPrefix(m, s, p + 6 - k, Run2(m, p + 6 - k)); }
  }

  /** In particular for every message without "]]>" that does not end in a bracket, as XML text never does. */
  lemma Exact(m: string, rest: string)
    requires Clean(m, |m|) && (m != "" ==> m[|m| - 1] != ']')
    ensures Until(m + EOM + rest, EOM) == Some(|m| + 6)
  {
    hide Until;
    ExactIff(m, rest);
  }

  /** A message of six characters that ends in a bracket swallows its own end. */
  lemma BracketSwallowsEnd(rest: string)
    ensures Until("abcde]" + EOM + rest, EOM) != Some(12)
  {
    hide Until;
    ExactIff("abcde]", rest);
    assert !Lucky("abcde]", 6, 0, 0);
  }
}
