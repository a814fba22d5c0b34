/** Zero-terminated text as the C sources see it, and the library calls on it that they rely on. */
module CText {

  datatype Option<+T> = None | Some(value: T)

  /** The character at index `i`; at and past the end a C string reads as the terminating zero. */
  function At(t: string, i: nat): char {
    if i < |t| then t[i] else '\0'
  }

  /** `isspace` in the C locale: space, tab, newline, vertical tab, form feed, carriage return. */
  predicate IsSpace(c: char) {
    c == ' ' || '\t' <= c <= '\r'
  }

  predicate IsDigit(c: char) {
    '0' <= c <= '9'
  }

  predicate AllDigits(s: string) {
    forall i :: 0 <= i < |s| ==> IsDigit(s[i])
  }

  /** `s` stands in `t` at index `i`. */
  predicate Occurs(t: string, i: nat, s: string) {
    i + |s| <= |t| && forall k :: 0 <= k < |s| ==> t[i + k] == s[k]
  }

  lemma OccursSplit(t: string, i: nat, a: string, b: string)
    requires Occurs(t, i, a + b)
    ensures Occurs(t, i, a) && Occurs(t, i + |a|, b)
  {
    forall k | 0 <= k < |a| ensures t[i + k] == a[k] { assert (a + b)[k] == a[k]; }
    forall k | 0 <= k < |b| ensures t[i + |a| + k] == b[k] { assert (a + b)[|a| + k] == b[k]; }
  }

  lemma OccursAt(t: string, i: nat, s: string, k: nat)
    requires Occurs(t, i, s) && k < |s|
    ensures i + k < |t| && t[i + k] == s[k]
  {
  }

  /** Nothing but white space. */
  predicate IsBlank(s: string) {
    forall i :: 0 <= i < |s| ==> IsSpace(s[i])
  }

  lemma ThreeParts(t: string, a: nat, b: nat, c: nat, d: nat)
    requires a <= b <= c <= d <= |t|
    ensures t[a..d] == t[a..b] + (t[b..c] + t[c..d])
  {
  }

  lemma Assoc(a: string, b: string, c: string)
    ensures (a + b) + c == a + (b + c)
  {
  }

  predicate SpacesIn(t: string, i: nat, e: nat)
    requires i <= e <= |t|
  {
    forall k :: i <= k < e ==> IsSpace(t[k])
  }

  /** Index of the first character of `t[i..e]` that is no space, or `e`. */
  function FirstInk(t: string, i: nat, e: nat): (r: nat)
    requires i <= e <= |t|
    ensures i <= r <= e && SpacesIn(t, i, r) && (r < e ==> !IsSpace(t[r]))
    decreases e - i
  {
    if i < e && IsSpace(t[i]) then FirstInk(t, i + 1, e) else i
  }

  /** One past the last character of `t[i..e]` that is no space, or `i`. */
  function LastInk(t: string, i: nat, e: nat): (r: nat)
    requires i <= e <= |t|
    ensures i <= r <= e && SpacesIn(t, r, e) && (i < r ==> !IsSpace(t[r - 1]))
    decreases e - i
  {
    if i < e && IsSpace(t[e - 1]) then LastInk(t, i, e - 1) else e
  }

  /** White space around a core that starts and ends with ink is exactly what the two searches skip. */
  lemma InkOfPadded(t: string, i: nat, a: nat, b: nat, e: nat)
    requires i <= a <= b <= e <= |t|
    requires SpacesIn(t, i, a) && SpacesIn(t, b, e)
    requires a < b ==> !IsSpace(t[a]) && !IsSpace(t[b - 1])
    ensures a < b ==> FirstInk(t, i, e) == a && LastInk(t, i, e) == b
    ensures a == b ==> FirstInk(t, i, e) == e && LastInk(t, i, e) == i
  {
  }

  /** One past the run of decimal digits that starts at `i`. */
  function DigitsEnd(t: string, i: nat): (r: nat)
    requires i <= |t|
    ensures i <= r <= |t| && !IsDigit(At(t, r))
    ensures forall k :: i <= k < r ==> IsDigit(t[k])
    decreases |t| - i
  {
    if IsDigit(At(t, i)) then DigitsEnd(t, i + 1) else i
  }
}
