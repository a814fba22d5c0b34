/** The words that `strtod` takes whole in the C locale, as a grammar of their own: `json_set_value` of
    `App/json/json.c` accepts a bare word as a number if and only if it is one of them. */
module JsonNumeral {
  import opened CText
  import opened JsonLex
  import opened JsonGrammar

  predicate IsPlain(c: char) {
    !IsToken(c) && c != '"' && c != '\\' && c != '\0'
  }

  /** A word none of whose characters can end a piece or start a quoted text. */
  predicate PlainWord(s: string) {
    forall k :: 0 <= k < |s| ==> IsPlain(s[k]) && !IsSpace(s[k])
  }

  predicate Stops(c: char) {
    IsSpace(c) || IsToken(c) || c == '\0'
  }

  lemma {:induction false} DigitsEndAt(t: string, i: nat, ds: string)
    requires Occurs(t, i, ds) && AllDigits(ds) && !IsDigit(At(t, i + |ds|))
    ensures DigitsEnd(t, i) == i + |ds|
  {
    forall k | i <= k < i + |ds| ensures IsDigit(t[k]) { OccursAt(t, i, ds, k - i); }
  }

  /** "inf", "infinity" or "nan" in any case, the last one with letters in parentheses or without, or digits to base
      ten or sixteen with a point and a scale or without. */
  datatype Numeral =
    | Infinite(sign: string, word: string)
    | NotNumber(sign: string, word: string, tag: Option<string>)
    | Written(sign: string, hex: bool, prefix: string, whole: string, fraction: Option<string>, scale: Option<Exponent>)

  predicate SignOk(s: string) {
    s == "" || s == "+" || s == "-"
  }

  predicate Folds(s: string, word: string) {
    |s| == |word| && forall k :: 0 <= k < |s| ==> Lower(s[k]) == word[k]
  }

  predicate AllHex(s: string) {
    forall k :: 0 <= k < |s| ==> IsHexDigit(s[k])
  }

  predicate DigitsOf(hex: bool, s: string) {
    if hex then AllHex(s) else AllDigits(s)
  }

  predicate AllWord(s: string) {
    forall k :: 0 <= k < |s| ==> IsWordChar(s[k])
  }

  predicate ScaleOk(hex: bool, x: Exponent) {
    Lower(x.mark) == (if hex then 'p' else 'e') && SignOk(x.sign) && Digits(x.digits)
  }

  predicate NumeralOk(n: Numeral) {
    && SignOk(n.sign)
    && match n
       case Infinite(_, word) => Folds(word, "inf") || Folds(word, "infinity")
       case NotNumber(_, word, tag) => Folds(word, "nan") && (tag.Some? ==> AllWord(tag.value))
       case Written(_, hex, prefix, whole, fraction, scale) =>
         && (if hex then Folds(prefix, "0x") else prefix == "")
         && DigitsOf(hex, whole) && (fraction.Some? ==> DigitsOf(hex, fraction.value))
         && (whole != "" || (fraction.Some? && fraction.value != ""))
         && (scale.Some? ==> ScaleOk(hex, scale.value))
  }

  function ShowTag(x: Option<string>): string {
    match x
    case None => ""
    case Some(s) => "(" + (s + ")")
  }

  function ShowMantissa(whole: string, fraction: Option<string>, scale: Option<Exponent>): string {
    whole + (ShowFraction(fraction) + ShowExponent(scale))
  }

  function ShowUnsigned(n: Numeral): string {
    match n
    case Infinite(_, word) => word
    case NotNumber(_, word, tag) => word + ShowTag(tag)
    case Written(_, _, prefix, whole, fraction, scale) => prefix + ShowMantissa(whole, fraction, scale)
  }

  function ShowNumeral(n: Numeral): string {
    n.sign + ShowUnsigned(n)
  }

  // ----- what is shown is taken -----

  lemma {:induction false} HexEndAt(t: string, i: nat, s: string)
    requires Occurs(t, i, s) && AllHex(s) && !IsHexDigit(At(t, i + |s|))
    ensures HexEnd(t, i) == i + |s|
    decreases |s|
  {
    if s != "" {
      OccursAt(t, i, s, 0);
      OccursTail(t, i, s);
      HexEndAt(t, i + 1, s[1..]);
    }
  }

  lemma {:induction false} WordEndAt(t: string, i: nat, s: string)
    requires Occurs(t, i, s) && AllWord(s) && !IsWordChar(At(t, i + |s|))
    ensures WordEnd(t, i) == i + |s|
    decreases |s|
  {
    if s != "" {
      OccursAt(t, i, s, 0);
      OccursTail(t, i, s);
      WordEndAt(t, i + 1, s[1..]);
    }
  }

  lemma OccursTail(t: string, i: nat, s: string)
    requires Occurs(t, i, s) && s != ""
    ensures Occurs(t, i + 1, s[1..])
  {
    forall k | 0 <= k < |s| - 1 ensures t[i + 1 + k] == s[1..][k] { OccursAt(t, i, s, k + 1); }
  }

  /** One past the digits to the base. */
  function BaseEnd(hex: bool, t: string, i: nat): (r: nat)
    requires i <= |t|
    ensures i <= r <= |t|
  {
    if hex then HexEnd(t, i) else DigitsEnd(t, i)
  }

  predicate IsBaseDigit(hex: bool, c: char) {
    if hex then IsHexDigit(c) else IsDigit(c)
  }

  function Mark(hex: bool): char {
    if hex then 'p' else 'e'
  }

  lemma BaseEndAt(hex: bool, t: string, i: nat, s: string)
    requires Occurs(t, i, s) && DigitsOf(hex, s) && !IsBaseDigit(hex, At(t, i + |s|))
    ensures BaseEnd(hex, t, i) == i + |s|
  {
    if hex { HexEndAt(t, i, s); } else { DigitsEndAt(t, i, s); }
  }

  /** One past the digits and the fraction. */
  function MantissaEnd(hex: bool, t: string, i: nat): (r: nat)
    requires i <= |t|
    ensures i <= r <= |t|
  {
    var a := BaseEnd(hex, t, i);
    if At(t, a) == '.' then BaseEnd(hex, t, a + 1) else a
  }

  /** One past digits, fraction and scale, or `i` when there are no digits. */
  function WrittenEnd(hex: bool, t: string, i: nat): (r: nat)
    requires i <= |t|
    ensures i <= r <= |t|
  {
    var a, b := BaseEnd(hex, t, i), MantissaEnd(hex, t, i);
    if a == i && b <= a + 1 then i else ExponentEnd(t, b, Mark(hex))
  }

  lemma ExponentEndIs(t: string, i: nat, j: nat, mark: char)
    requires j <= |t| && mark != '\0' && Lower(At(t, i)) == mark && IsDigit(At(t, j))
    requires j == i + 1 || (j == i + 2 && (At(t, i + 1) == '+' || At(t, i + 1) == '-'))
    ensures ExponentEnd(t, i, mark) == DigitsEnd(t, j)
  {
    hide DigitsEnd;
  }

  lemma ScaleEndAt(hex: bool, t: string, i: nat, x: Option<Exponent>)
    requires Occurs(t, i, ShowExponent(x)) && Stops(At(t, i + |ShowExponent(x)|))
    requires x.Some? ==> ScaleOk(hex, x.value)
    ensures ExponentEnd(t, i, Mark(hex)) == i + |ShowExponent(x)|
    ensures (hex ==> !IsHexDigit(At(t, i))) && !IsDigit(At(t, i)) && At(t, i) != '.' && Lower(At(t, i)) != 'x'
  {
    hide DigitsEnd;
    if x.Some? {
      var e := x.value;
      OccursSplit(t, i, [e.mark], e.sign + e.digits);
      OccursSplit(t, i + 1, e.sign, e.digits);
      OccursAt(t, i, [e.mark], 0);
      var j := i + 1 + |e.sign|;
      OccursAt(t, j, e.digits, 0);
      assert IsDigit(e.digits[0]);
      if e.sign != "" { OccursAt(t, i + 1, e.sign, 0); }
      hide Occurs, AllDigits, ExponentEnd;
      ExponentEndIs(t, i, j, Mark(hex));
      DigitsEndAt(t, j, e.digits);
    }
  }

  lemma MantissaEndAt(hex: bool, t: string, i: nat, whole: string, f: Option<string>)
    requires DigitsOf(hex, whole) && (f.Some? ==> DigitsOf(hex, f.value))
    requires Occurs(t, i, whole + ShowFraction(f))
    requires !IsBaseDigit(hex, At(t, i + |whole + ShowFraction(f)|)) && At(t, i + |whole + ShowFraction(f)|) != '.'
    ensures BaseEnd(hex, t, i) == i + |whole| && MantissaEnd(hex, t, i) == i + |whole + ShowFraction(f)|
  {
    hide BaseEnd, DigitsOf;
    OccursSplit(t, i, whole, ShowFraction(f));
    var a := i + |whole|;
    if f.Some? {
      OccursSplit(t, a, ".", f.value);
      OccursAt(t, a, ".", 0);
      BaseEndAt(hex, t, a + 1, f.value);
    }
    BaseEndAt(hex, t, i, whole);
  }

  lemma WrittenEndAt(hex: bool, t: string, i: nat, whole: string, f: Option<string>, x: Option<Exponent>)
    requires DigitsOf(hex, whole) && (f.Some? ==> DigitsOf(hex, f.value))
    requires whole != "" || (f.Some? && f.value != "")
    requires x.Some? ==> ScaleOk(hex, x.value)
    requires Occurs(t, i, ShowMantissa(whole, f, x)) && Stops(At(t, i + |ShowMantissa(whole, f, x)|))
    ensures WrittenEnd(hex, t, i) == i + |ShowMantissa(whole, f, x)|
  {
    hide BaseEnd, DigitsOf, MantissaEnd, ExponentEnd, ScaleOk, Occurs, ShowMantissa, ShowFraction, ShowExponent, Stops;
    var front := whole + ShowFraction(f);
    MantissaSplits(whole, f, x);
    OccursSplit(t, i, front, ShowExponent(x));
    ScaleEndAt(hex, t, i + |front|, x);
    MantissaEndAt(hex, t, i, whole, f);
  }

  lemma MantissaSplits(whole: string, f: Option<string>, x: Option<Exponent>)
    ensures ShowMantissa(whole, f, x) == (whole + ShowFraction(f)) + ShowExponent(x)
    ensures |whole + ShowFraction(f)| == |whole| + match f case None => 0 case Some(s) => 1 + |s|
  {
    hide ShowExponent;
    Assoc(whole, ShowFraction(f), ShowExponent(x));
  }

  /** The two ways in which the library reads digits are one. */
  lemma EndsAreWritten(t: string, i: nat)
    requires i <= |t|
    ensures DecimalEnd(t, i) == WrittenEnd(false, t, i)
    ensures var h := At(t, i) == '0' && Lower(At(t, i + 1)) == 'x';
      && (!h ==> HexadecimalEnd(t, i) == i)
      && (h ==> i + 2 <= |t| && var e := WrittenEnd(true, t, i + 2); HexadecimalEnd(t, i) == if e == i + 2 then i else e)
  {
    hide DigitsEnd, HexEnd, ExponentEnd;
  }

  // ----- the sign and the choice of the form -----

  /** The end of a number without its sign, as `strtod` looks for the forms in turn; `j` when there is none. */
  function UnsignedEnd(t: string, j: nat): nat
    requires j <= |t|
  {
    if OccursFolded(t, j, "infinity") then j + 8
    else if OccursFolded(t, j, "inf") then j + 3
    else if OccursFolded(t, j, "nan") then
      if At(t, j + 3) == '(' && At(t, WordEnd(t, j + 4)) == ')' then WordEnd(t, j + 4) + 1 else j + 3
    else if HexadecimalEnd(t, j) > j then HexadecimalEnd(t, j)
    else DecimalEnd(t, j)
  }

  predicate IsSign(c: char) {
    c == '+' || c == '-'
  }

  lemma EndOfSigned(t: string, i: nat)
    requires i <= |t| && !IsSpace(At(t, i))
    ensures var j := if IsSign(At(t, i)) then i + 1 else i;
      j <= |t| && StrtodEnd(t, i) == if UnsignedEnd(t, j) > j then UnsignedEnd(t, j) else i
  {
    hide HexadecimalEnd, DecimalEnd, WordEnd, OccursFolded;
    assert FirstInk(t, i, |t|) == i;
  }

  lemma FoldedAt(t: string, j: nat, s: string, word: string)
    requires Occurs(t, j, s) && Folds(s, word)
    ensures OccursFolded(t, j, word)
  {
    forall k | 0 <= k < |word| ensures Lower(t[j + k]) == word[k] { OccursAt(t, j, s, k); }
  }

  /** A word of which one character differs does not stand here. */
  lemma NotFolded(t: string, j: nat, word: string, k: nat)
    requires k < |word| && Lower(At(t, j + k)) != word[k]
    ensures !OccursFolded(t, j, word)
  {
  }

  lemma InfiniteEndAt(t: string, j: nat, word: string)
    requires Occurs(t, j, word) && Stops(At(t, j + |word|)) && (Folds(word, "inf") || Folds(word, "infinity"))
    ensures UnsignedEnd(t, j) == j + |word|
  {
    hide HexadecimalEnd, DecimalEnd, WordEnd, OccursFolded, Occurs;
    if Folds(word, "infinity") {
      FoldedAt(t, j, word, "infinity");
    } else {
      FoldedAt(t, j, word, "inf");
      assert "infinity"[3] == 'i';
      NotFolded(t, j, "infinity", 3);
    }
  }

  lemma NanEndAt(t: string, j: nat, word: string, tag: Option<string>)
    requires Folds(word, "nan") && (tag.Some? ==> AllWord(tag.value))
    requires Occurs(t, j, word + ShowTag(tag)) && Stops(At(t, j + |word + ShowTag(tag)|))
    ensures UnsignedEnd(t, j) == j + |word + ShowTag(tag)|
  {
    hide HexadecimalEnd, DecimalEnd, WordEnd, OccursFolded, Occurs, AllWord;
    OccursSplit(t, j, word, ShowTag(tag));
    FoldedAt(t, j, word, "nan");
    OccursAt(t, j, word, 0);
    assert "infinity"[0] == 'i' && "inf"[0] == 'i' && "nan"[0] == 'n';
    NotFolded(t, j, "infinity", 0);
    NotFolded(t, j, "inf", 0);
    if tag.Some? {
      var s := tag.value;
      OccursSplit(t, j + 3, "(", s + ")");
      OccursSplit(t, j + 4, s, ")");
      OccursAt(t, j + 3, "(", 0);
      OccursAt(t, j + 4 + |s|, ")", 0);
      WordEndAt(t, j + 4, s);
    }
  }

  lemma NoWordHere(t: string, j: nat)
    requires IsDigit(At(t, j)) || At(t, j) == '.'
    ensures !OccursFolded(t, j, "infinity") && !OccursFolded(t, j, "inf") && !OccursFolded(t, j, "nan")
  {
    assert "infinity"[0] == 'i' && "inf"[0] == 'i' && "nan"[0] == 'n';
    NotFolded(t, j, "infinity", 0);
    NotFolded(t, j, "inf", 0);
    NotFolded(t, j, "nan", 0);
  }

  /** What the first two characters of digits to base ten are. */
  lemma DecimalStart(t: string, j: nat, whole: string, f: Option<string>, x: Option<Exponent>)
    requires AllDigits(whole) && (whole != "" || (f.Some? && f.value != ""))
    requires x.Some? ==> ScaleOk(false, x.value)
    requires Occurs(t, j, ShowMantissa(whole, f, x)) && Stops(At(t, j + |ShowMantissa(whole, f, x)|))
    ensures (IsDigit(At(t, j)) && Lower(At(t, j + 1)) != 'x') || At(t, j) == '.'
  {
    OccursSplit(t, j, whole, ShowFraction(f) + ShowExponent(x));
    var a := j + |whole|;
    OccursSplit(t, a, ShowFraction(f), ShowExponent(x));
    if whole == "" {
      OccursAt(t, a, ShowFraction(f), 0);
    } else {
      OccursAt(t, j, whole, 0);
      assert IsDigit(whole[0]);
      if |whole| > 1 {
        OccursAt(t, j, whole, 1);
        assert IsDigit(whole[1]);
      } else if f.Some? {
        OccursAt(t, a, ShowFraction(f), 0);
      } else if x.Some? {
        OccursAt(t, a, ShowExponent(x), 0);
      }
    }
  }

  lemma DigitsEndShown(hex: bool, t: string, j: nat, prefix: string, whole: string, f: Option<string>, x: Option<Exponent>)
    requires NumeralOk(Written("", hex, prefix, whole, f, x))
    requires Occurs(t, j, prefix + ShowMantissa(whole, f, x))
    requires Stops(At(t, j + |prefix + ShowMantissa(whole, f, x)|))
    ensures UnsignedEnd(t, j) == j + |prefix + ShowMantissa(whole, f, x)|
    ensures IsDigit(At(t, j)) || At(t, j) == '.'
  {
    hide HexadecimalEnd, DecimalEnd, WordEnd, OccursFolded, Occurs, ShowMantissa, WrittenEnd, DigitsOf, ScaleOk, Stops;
    OccursSplit(t, j, prefix, ShowMantissa(whole, f, x));
    var i := j + |prefix|;
    WrittenEndAt(hex, t, i, whole, f, x);
    EndsAreWritten(t, j);
    if hex {
      OccursAt(t, j, prefix, 0);
      OccursAt(t, j, prefix, 1);
      assert "0x"[0] == '0' && "0x"[1] == 'x';
      MantissaNotEmpty(whole, f, x);
    } else {
      BaseTen(whole);
      DecimalStart(t, j, whole, f, x);
    }
    NoWordHere(t, j);
  }

  lemma BaseTen(whole: string)
    requires DigitsOf(false, whole)
    ensures AllDigits(whole)
  {
  }

  lemma MantissaNotEmpty(whole: string, f: Option<string>, x: Option<Exponent>)
    requires whole != "" || (f.Some? && f.value != "")
    ensures ShowMantissa(whole, f, x) != ""
  {
  }

  lemma UnsignedEndAt(t: string, j: nat, n: Numeral)
    requires NumeralOk(n) && Occurs(t, j, ShowUnsigned(n)) && Stops(At(t, j + |ShowUnsigned(n)|))
    ensures UnsignedEnd(t, j) == j + |ShowUnsigned(n)| && j < |t| && !IsSign(t[j]) && !IsSpace(t[j]) && |ShowUnsigned(n)| > 0
  {
    hide UnsignedEnd, Stops, ShowMantissa, DigitsOf, ScaleOk, Occurs;
    match n
    case Infinite(_, word) =>
      InfiniteEndAt(t, j, word);
      OccursAt(t, j, word, 0);
      assert "infinity"[0] == 'i' && "inf"[0] == 'i';
    case NotNumber(_, word, tag) =>
      NanEndAt(t, j, word, tag);
      OccursSplit(t, j, word, ShowTag(tag));
      OccursAt(t, j, word, 0);
      assert "nan"[0] == 'n';
    case Written(_, hex, prefix, whole, f, x) =>
      DigitsEndShown(hex, t, j, prefix, whole, f, x);
      MantissaNotEmpty(whole, f, x);
  }

  /** A numeral that ends before a blank, a structural character or the end of the text is taken whole. */
  lemma NumeralEndAt(t: string, i: nat, n: Numeral)
    requires NumeralOk(n) && Occurs(t, i, ShowNumeral(n)) && Stops(At(t, i + |ShowNumeral(n)|))
    ensures StrtodEnd(t, i) == i + |ShowNumeral(n)| && ShowNumeral(n) != ""
  {
    hide UnsignedEnd, StrtodEnd, Stops, ShowUnsigned, Occurs;
    OccursSplit(t, i, n.sign, ShowUnsigned(n));
    if n.sign != "" { OccursAt(t, i, n.sign, 0); }
    UnsignedEndAt(t, i + |n.sign|, n);
    EndOfSigned(t, i);
  }

  // ----- what is taken is shown -----

  lemma HexesTaken(t: string, i: nat)
    requires i <= |t|
    ensures AllHex(t[i..HexEnd(t, i)])
    decreases |t| - i
  {
    if IsHexDigit(At(t, i)) {
      HexesTaken(t, i + 1);
      assert t[i..HexEnd(t, i)] == [t[i]] + t[i + 1..HexEnd(t, i)];
    }
  }

  lemma WordTaken(t: string, i: nat)
    requires i <= |t|
    ensures AllWord(t[i..WordEnd(t, i)])
    decreases |t| - i
  {
    if IsWordChar(At(t, i)) {
      WordTaken(t, i + 1);
      assert t[i..WordEnd(t, i)] == [t[i]] + t[i + 1..WordEnd(t, i)];
    }
  }

  lemma BaseTaken(hex: bool, t: string, i: nat)
    requires i <= |t|
    ensures DigitsOf(hex, t[i..BaseEnd(hex, t, i)])
  {
    if hex { HexesTaken(t, i); }
  }

  lemma ScaleTaken(hex: bool, t: string, i: nat) returns (x: Option<Exponent>)
    requires i <= |t|
    ensures x.Some? ==> ScaleOk(hex, x.value)
    ensures t[i..ExponentEnd(t, i, Mark(hex))] == ShowExponent(x)
  {
    var e := ExponentEnd(t, i, Mark(hex));
    if e == i {
      x := None;
    } else {
      var j := if At(t, i + 1) == '+' || At(t, i + 1) == '-' then i + 2 else i + 1;
      x := Some(Exponent(t[i], t[i + 1..j], t[j..e]));
      assert e == DigitsEnd(t, j);
      assert t[i..e] == [t[i]] + (t[i + 1..j] + t[j..e]);
    }
  }

  lemma FractionTaken(hex: bool, t: string, a: nat) returns (f: Option<string>)
    requires a <= |t|
    ensures f.Some? ==> DigitsOf(hex, f.value)
    ensures var b := if At(t, a) == '.' then BaseEnd(hex, t, a + 1) else a;
      t[a..b] == ShowFraction(f) && (f.Some? && f.value != "" <==> b > a + 1)
  {
    hide BaseEnd, DigitsOf;
    if At(t, a) == '.' {
      var b := BaseEnd(hex, t, a + 1);
      BaseTaken(hex, t, a + 1);
      f := Some(t[a + 1..b]);
      assert t[a..b] == "." + t[a + 1..b];
    } else {
      f := None;
    }
  }

  lemma WrittenTaken(hex: bool, t: string, i: nat) returns (whole: string, f: Option<string>, x: Option<Exponent>)
    requires i <= |t| && WrittenEnd(hex, t, i) > i
    ensures DigitsOf(hex, whole) && (f.Some? ==> DigitsOf(hex, f.value)) && (x.Some? ==> ScaleOk(hex, x.value))
    ensures whole != "" || (f.Some? && f.value != "")
    ensures t[i..WrittenEnd(hex, t, i)] == ShowMantissa(whole, f, x)
  {
    hide BaseEnd, DigitsOf, ExponentEnd, ScaleOk, ShowFraction, ShowExponent;
    var a, b, e := BaseEnd(hex, t, i), MantissaEnd(hex, t, i), WrittenEnd(hex, t, i);
    whole := t[i..a];
    BaseTaken(hex, t, i);
    f := FractionTaken(hex, t, a);
    x := ScaleTaken(hex, t, b);
    assert t[i..e] == t[i..a] + (t[a..b] + t[b..e]);
  }

  lemma FoldedTaken(t: string, j: nat, word: string)
    requires OccursFolded(t, j, word)
    ensures j + |word| <= |t| && Folds(t[j..j + |word|], word)
  {
  }

  lemma UnsignedTaken(t: string, j: nat, sign: string) returns (n: Numeral)
    requires j <= |t| && UnsignedEnd(t, j) > j && SignOk(sign)
    ensures UnsignedEnd(t, j) <= |t| && NumeralOk(n) && n.sign == sign && t[j..UnsignedEnd(t, j)] == ShowUnsigned(n)
  {
    hide HexadecimalEnd, DecimalEnd, WordEnd, OccursFolded, WrittenEnd, DigitsOf, ScaleOk, ShowMantissa;
    var e := UnsignedEnd(t, j);
    if OccursFolded(t, j, "infinity") || OccursFolded(t, j, "inf") {
      var word := if OccursFolded(t, j, "infinity") then "infinity" else "inf";
      FoldedTaken(t, j, word);
      n := Infinite(sign, t[j..e]);
    } else if OccursFolded(t, j, "nan") {
      FoldedTaken(t, j, "nan");
      n := NanTaken(t, j, sign);
    } else {
      EndsAreWritten(t, j);
      n := DigitsTaken(t, j, sign);
    }
  }

  lemma NanTaken(t: string, j: nat, sign: string) returns (n: Numeral)
    requires j + 3 <= |t| && Folds(t[j..j + 3], "nan") && SignOk(sign)
    ensures NumeralOk(n) && n.sign == sign
    ensures var e := if At(t, j + 3) == '(' && At(t, WordEnd(t, j + 4)) == ')' then WordEnd(t, j + 4) + 1 else j + 3;
      e <= |t| && t[j..e] == ShowUnsigned(n)
  {
    hide WordEnd;
    if At(t, j + 3) == '(' && At(t, WordEnd(t, j + 4)) == ')' {
      var b := WordEnd(t, j + 4);
      WordTaken(t, j + 4);
      n := NotNumber(sign, t[j..j + 3], Some(t[j + 4..b]));
      assert t[j..b + 1] == t[j..j + 3] + ("(" + (t[j + 4..b] + ")"));
    } else {
      n := NotNumber(sign, t[j..j + 3], None);
      assert t[j..j + 3] + "" == t[j..j + 3];
    }
  }

  lemma DigitsTaken(t: string, j: nat, sign: string) returns (n: Numeral)
    requires j <= |t| && SignOk(sign)
    requires HexadecimalEnd(t, j) > j || DecimalEnd(t, j) > j
    ensures NumeralOk(n) && n.sign == sign
    ensures var e := if HexadecimalEnd(t, j) > j then HexadecimalEnd(t, j) else DecimalEnd(t, j);
      t[j..e] == ShowUnsigned(n)
  {
    hide HexadecimalEnd, DecimalEnd, WrittenEnd, DigitsOf, ScaleOk, ShowMantissa;
    EndsAreWritten(t, j);
    if HexadecimalEnd(t, j) > j {
      var whole, f, x := WrittenTaken(true, t, j + 2);
      n := Written(sign, true, t[j..j + 2], whole, f, x);
      assert "0x"[0] == '0' && "0x"[1] == 'x';
      assert t[j..HexadecimalEnd(t, j)] == t[j..j + 2] + t[j + 2..HexadecimalEnd(t, j)];
    } else {
      var whole, f, x := WrittenTaken(false, t, j);
      n := Written(sign, false, "", whole, f, x);
    }
  }

  /** What `strtod` takes of a text that does not begin with a blank is a numeral. */
  lemma NumeralTaken(t: string, i: nat) returns (n: Numeral)
    requires i < |t| && !IsSpace(t[i]) && StrtodEnd(t, i) > i
    ensures NumeralOk(n) && t[i..StrtodEnd(t, i)] == ShowNumeral(n)
  {
    hide UnsignedEnd, StrtodEnd, ShowUnsigned;
    EndOfSigned(t, i);
    var j := if IsSign(At(t, i)) then i + 1 else i;
    n := UnsignedTaken(t, j, t[i..j]);
    assert t[i..StrtodEnd(t, i)] == t[i..j] + t[j..StrtodEnd(t, i)];
  }

  // ----- numerals as words -----

  lemma PlainConcat(a: string, b: string)
    requires PlainWord(a) && PlainWord(b)
    ensures PlainWord(a + b)
  {
  }

  lemma FoldedIsPlain(s: string, word: string)
    requires Folds(s, word) && (word == "inf" || word == "infinity" || word == "nan" || word == "0x")
    ensures PlainWord(s)
  {
    forall k | 0 <= k < |s| ensures IsPlain(s[k]) && !IsSpace(s[k]) {
      assert Lower(s[k]) == word[k];
    }
  }

  lemma MantissaIsPlain(hex: bool, whole: string, f: Option<string>, x: Option<Exponent>)
    requires DigitsOf(hex, whole) && (f.Some? ==> DigitsOf(hex, f.value)) && (x.Some? ==> ScaleOk(hex, x.value))
    ensures PlainWord(ShowMantissa(whole, f, x))
  {
    hide ShowFraction, ShowExponent;
    assert PlainWord(ShowFraction(f)) by { FractionIsPlain(hex, f); }
    assert PlainWord(ShowExponent(x)) by { ScaleIsPlain(hex, x); }
    PlainConcat(ShowFraction(f), ShowExponent(x));
    PlainConcat(whole, ShowFraction(f) + ShowExponent(x));
  }

  lemma FractionIsPlain(hex: bool, f: Option<string>)
    requires f.Some? ==> DigitsOf(hex, f.value)
    ensures PlainWord(ShowFraction(f))
  {
  }

  lemma ScaleIsPlain(hex: bool, x: Option<Exponent>)
    requires x.Some? ==> ScaleOk(hex, x.value)
    ensures PlainWord(ShowExponent(x))
  {
    if x.Some? { PlainConcat(x.value.sign, x.value.digits); }
  }

  lemma TagIsPlain(tag: Option<string>)
    requires tag.Some? ==> AllWord(tag.value)
    ensures PlainWord(ShowTag(tag))
  {
  }

  lemma NumeralIsPlain(n: Numeral)
    requires NumeralOk(n)
    ensures PlainWord(ShowNumeral(n))
  {
    hide PlainWord, DigitsOf, ScaleOk, ShowMantissa, ShowTag, AllWord;
    SignIsPlain(n.sign);
    match n {
    case Infinite(_, word) => FoldedIsPlain(word, if Folds(word, "inf") then "inf" else "infinity");
    case NotNumber(_, word, tag) =>
      FoldedIsPlain(word, "nan");
      TagIsPlain(tag);
      PlainConcat(word, ShowTag(tag));
    case Written(_, hex, prefix, whole, f, x) =>
      MantissaIsPlain(hex, whole, f, x);
      PrefixIsPlain(hex, prefix);
      PlainConcat(prefix, ShowMantissa(whole, f, x));
    }
    PlainConcat(n.sign, ShowUnsigned(n));
  }

  lemma SignIsPlain(s: string)
    requires SignOk(s)
    ensures PlainWord(s)
  {
  }

  lemma PrefixIsPlain(hex: bool, prefix: string)
    requires if hex then Folds(prefix, "0x") else prefix == ""
    ensures PlainWord(prefix)
  {
    if hex { FoldedIsPlain(prefix, "0x"); }
  }

  lemma NoStopIn(t: string, left: nat, e: nat)
    requires left <= e <= |t| && PlainWord(t[left..e])
    ensures forall k :: left <= k < e ==> !Stops(t[k])
  {
    forall k | left <= k < e ensures !Stops(t[k]) { assert t[left..e][k - left] == t[k]; }
  }

  lemma EndsBefore(t: string, left: nat, e: nat, stop: nat)
    requires left <= e <= |t| && left <= stop && PlainWord(t[left..e]) && Stops(At(t, stop))
    ensures e <= stop
  {
    NoStopIn(t, left, e);
  }

  /** For every text and every word in it before a blank, a structural character or the end: `strtod` reaches the end of
      the word if and only if the word is a numeral. */
  lemma StrtodIff(t: string, left: nat, right: nat)
    requires left <= right < |t| && !IsSpace(t[left]) && Stops(At(t, right + 1))
    ensures StrtodEnd(t, left) > right <==> exists n :: NumeralOk(n) && t[left..right + 1] == ShowNumeral(n)
  {
    hide StrtodEnd, NumeralOk, ShowNumeral;
    if StrtodEnd(t, left) > right {
      var n := NumeralTaken(t, left);
      NumeralIsPlain(n);
      EndsBefore(t, left, StrtodEnd(t, left), right + 1);
      assert t[left..right + 1] == ShowNumeral(n);
    }
    if n :| NumeralOk(n) && t[left..right + 1] == ShowNumeral(n) {
      assert Occurs(t, left, ShowNumeral(n));
      NumeralEndAt(t, left, n);
    }
  }
}
