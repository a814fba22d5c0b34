/** The lexical level of `App/json/json.c`: where the next structural character is, what text lies before
    it, how a quoted text is decoded and which kind of value a text is. */
module JsonLex {
  import opened CText

  datatype Kind = Empty | Object | Array | String | Number | Boolean | Null

  predicate IsToken(c: char) {
    c == '{' || c == '[' || c == ':' || c == ',' || c == ']' || c == '}'
  }

  predicate IsEscape(c: char) {
    c == '\\' || c == '/' || c == '"' || c == 'b' || c == 'f' || c == 'n' || c == 'r' || c == 't'
  }

  /** What the quote counter of the scanner tells apart: none seen, an odd number, a positive even number. */
  datatype Quoting = Bare | Inside | After

  function Toggle(q: Quoting): Quoting {
    if q.Inside? then After else Inside
  }

  function QuotingOf(quotes: nat): Quoting {
    if quotes == 0 then Bare else if quotes % 2 == 1 then Inside else After
  }

  /** Index of the next structural character outside quotes, or of the end of the text. */
  function Delim(t: string, i: nat, q: Quoting): (r: Option<nat>)
    requires i <= |t|
    ensures r.Some? ==> i <= r.value <= |t|
    ensures r.Some? ==> IsToken(At(t, r.value)) || At(t, r.value) == '\0'
    decreases |t| - i
  {
    var c := At(t, i);
    if c == '\0' then if q.Inside? then None else Some(i)
    else if c == '\\' then
      if q.Inside? && IsEscape(At(t, i + 1)) then Delim(t, i + 2, q) else None
    else if c == '"' then Delim(t, i + 1, Toggle(q))
    else if !q.Inside? && IsToken(c) then Some(i)
    else if q.After? && !IsSpace(c) then None
    else Delim(t, i + 1, q)
  }

  /** A scanned piece: the structural character, and the first and last character of the text before it. */
  datatype Lexeme = Lexeme(token: nat, left: nat, right: nat)

  function Lex(t: string, i: nat): (r: Option<Lexeme>)
    requires i <= |t|
    ensures r.Some? ==> i <= r.value.left <= r.value.right <= r.value.token <= |t|
    ensures r.Some? ==> (r.value.left == r.value.token <==> r.value.right == r.value.token)
  {
    match Delim(t, i, Bare)
    case None => None
    case Some(d) =>
      var f, l := FirstInk(t, i, d), LastInk(t, i, d);
      if f == d then Some(Lexeme(d, d, d))
      else
        Some(Lexeme(d, f, l - 1))
  }

  /** `json_scan` */
  method Scan(t: string, start: nat) returns (r: Option<Lexeme>)
    requires start <= |t|
    ensures r == Lex(t, start)
  {
    var str := start;
    var left: int, right: int := -1, -1;
    var quotes := 0;
    while At(t, str) != '\0'
      invariant start <= str <= |t|
      invariant Delim(t, start, Bare) == Delim(t, str, QuotingOf(quotes))
      invariant left == -1 <==> right == -1
      invariant left == -1 ==> SpacesIn(t, start, str) && quotes == 0
      invariant left != -1 ==> start <= left <= right < str && SpacesIn(t, start, left) && !IsSpace(t[left])
      invariant left != -1 ==> !IsSpace(t[right]) && SpacesIn(t, right + 1, str)
      decreases |t| - str
    {
      if t[str] == '\\' {
        if quotes % 2 == 0 { return None; }
        str := str + 1;
        if !IsEscape(At(t, str)) { return None; }
      } else if t[str] == '"' {
        quotes := quotes + 1;
      } else if quotes % 2 == 0 {
        if IsToken(t[str]) { break; }
        if quotes > 0 && !IsSpace(t[str]) { return None; }
      }
      if !IsSpace(t[str]) {
        if left == -1 { left := str; }
        right := str;
      }
      str := str + 1;
    }
    if quotes % 2 == 1 { return None; }
    if left == -1 {
      InkOfPadded(t, start, str, str, str);
      left := str;
      right := str;
    } else {
      InkOfPadded(t, start, left, right + 1, str);
    }
    r := Some(Lexeme(str, left, right));
  }

  // ----- json_copy -----

  /** The character an escape stands for; other characters after a backslash are dropped. */
  function Unescape(c: char): Option<char> {
    match c
    case '\\' => Some('\\')
    case '/' => Some('/')
    case '"' => Some('"')
    case 'b' => Some('\U{8}')
    case 'f' => Some('\U{C}')
    case 'n' => Some('\n')
    case 'r' => Some('\r')
    case 't' => Some('\t')
    case _ => None
  }

  /** The decoded text of `t[i..e]`, where `q` says what quotes were met before `i`. */
  function Decoded(t: string, i: nat, e: nat, q: Quoting): (r: string)
    ensures |r| <= if i < e then e - i else 0
    decreases if i < e then e - i else 0
  {
    if i >= e then ""
    else if At(t, i) == '\\' then
      var rest := Decoded(t, i + 2, e, q);
      match Unescape(At(t, i + 1)) case Some(c) => [c] + rest case None => rest
    else if At(t, i) == '"' then Decoded(t, i + 1, e, Toggle(q))
    else if q.After? then Decoded(t, i + 1, e, q)
    else [At(t, i)] + Decoded(t, i + 1, e, q)
  }

  /** `json_copy` on the `size` characters at `left`; every store stays inside the `size + 1` allocated. */
  method Copy(t: string, left: nat, size: nat) returns (copy: string)
    ensures copy == Decoded(t, left, left + size, Bare)
  {
    var buf := new char[size + 1];
    var quotes, n, i := 0, 0, 0;
    while i < size
      invariant n <= i <= size + 1 && n <= size
      invariant Decoded(t, left, left + size, Bare) == buf[..n] + Decoded(t, left + i, left + size, QuotingOf(quotes))
    {
      ghost var kept := buf[..n];
      if At(t, left + i) == '\\' {
        i := i + 1;
        var c := Unescape(At(t, left + i));
        if c.Some? {
          buf[n] := c.value;
          n := n + 1;
          assert buf[..n] == kept + [c.value];
        }
      } else if At(t, left + i) == '"' {
        quotes := quotes + 1;
      } else if quotes == 0 || quotes % 2 == 1 {
        buf[n] := At(t, left + i);
        n := n + 1;
        assert buf[..n] == kept + [At(t, left + i)];
      }
      i := i + 1;
    }
    buf[n] := '\0';
    copy := buf[..n];
  }

  // ----- json_set_value -----

  predicate IsHexDigit(c: char) {
    IsDigit(c) || 'a' <= c <= 'f' || 'A' <= c <= 'F'
  }

  predicate IsWordChar(c: char) {
    IsDigit(c) || 'a' <= c <= 'z' || 'A' <= c <= 'Z' || c == '_'
  }

  function Lower(c: char): char {
    if 'A' <= c <= 'Z' then (c as int + 32) as char else c
  }

  predicate OccursFolded(t: string, i: nat, word: string) {
    i + |word| <= |t| && forall k :: 0 <= k < |word| ==> Lower(t[i + k]) == word[k]
  }

  function HexEnd(t: string, i: nat): (r: nat)
    requires i <= |t|
    ensures i <= r <= |t|
    decreases |t| - i
  {
    if IsHexDigit(At(t, i)) then HexEnd(t, i + 1) else i
  }

  function WordEnd(t: string, i: nat): (r: nat)
    requires i <= |t|
    ensures i <= r <= |t|
    decreases |t| - i
  {
    if IsWordChar(At(t, i)) then WordEnd(t, i + 1) else i
  }

  /** One past an exponent introduced by `mark` at `i`, or `i` when there is none. */
  function ExponentEnd(t: string, i: nat, mark: char): (r: nat)
    requires i <= |t| && mark != '\0'
    ensures i <= r <= |t|
  {
    if Lower(At(t, i)) != mark then i
    else
      var j := if At(t, i + 1) == '+' || At(t, i + 1) == '-' then i + 2 else i + 1;
      if IsDigit(At(t, j)) then DigitsEnd(t, j) else i
  }

  /** One past `strtod`'s decimal subject at `i`, or `i` when there is none. */
  function DecimalEnd(t: string, i: nat): (r: nat)
    requires i <= |t|
    ensures i <= r <= |t|
  {
    var a := DigitsEnd(t, i);
    var b := if At(t, a) == '.' then DigitsEnd(t, a + 1) else a;
    if a == i && b <= a + 1 then i else ExponentEnd(t, b, 'e')
  }

  /** One past `strtod`'s hexadecimal subject at `i`, or `i` when there is none. */
  function HexadecimalEnd(t: string, i: nat): (r: nat)
    requires i <= |t|
    ensures i <= r <= |t|
  {
    if At(t, i) != '0' || Lower(At(t, i + 1)) != 'x' then i
    else
      var a := HexEnd(t, i + 2);
      var b := if At(t, a) == '.' then HexEnd(t, a + 1) else a;
      if a == i + 2 && b <= a + 1 then i else ExponentEnd(t, b, 'p')
  }

  /** The end pointer of `strtod` in the C locale; `i` when nothing can be converted. */
  function StrtodEnd(t: string, i: nat): (r: nat)
    requires i <= |t|
    ensures i <= r <= |t|
  {
    var s := FirstInk(t, i, |t|);
    var j := if At(t, s) == '+' || At(t, s) == '-' then s + 1 else s;
    if OccursFolded(t, j, "infinity") then j + 8
    else if OccursFolded(t, j, "inf") then j + 3
    else if OccursFolded(t, j, "nan") then
      if At(t, j + 3) == '(' && At(t, WordEnd(t, j + 4)) == ')' then WordEnd(t, j + 4) + 1 else j + 3
    else if HexadecimalEnd(t, j) > j then HexadecimalEnd(t, j)
    else if DecimalEnd(t, j) > j then DecimalEnd(t, j)
    else i
  }

  /** The kind `json_set_value` gives to the text from `left` to `right`, when it accepts it. */
  function Classify(t: string, left: nat, right: nat): Option<Kind>
    requires left <= right < |t|
  {
    var word := t[left..right + 1];
    if t[left] == '"' && t[right] == '"' then Some(String)
    else if word == "null" then Some(Null)
    else if word == "true" || word == "false" then Some(Boolean)
    else if StrtodEnd(t, left) > right then Some(Number)
    else None
  }
}
