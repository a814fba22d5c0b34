/** The pieces between structural characters: which texts `json_scan`, `json_set_name` and `json_set_value` of
    `App/json/json.c` take as blanks, as a name and as a value, in terms of the accepted grammar. */
module JsonPieces {
  import opened CText
  import opened JsonLex
  import opened JsonTree
  import opened JsonGrammar
  import opened JsonNumeral
  import opened JsonCompleteness
  import opened JsonLoose

  // ----- what is shown is taken -----

  lemma {:induction false} DecodedOverChrs(t: string, i: nat, e: nat, s: seq<Chr>)
    requires ChrsOk(s) && Occurs(t, i, ShowChrs(s)) && i + |ShowChrs(s)| <= e
    ensures Decoded(t, i, e, Inside) == ReadChrs(s) + Decoded(t, i + |ShowChrs(s)|, e, Inside)
    decreases |s|
  {
    if s != [] {
      hide Decoded, Occurs, ShowChr, ReadChr, ShowChrs, ReadChrs, ChrsOk, ChrOk;
      ChrsFront(s);
      OccursSplit(t, i, ShowChr(s[0]), ShowChrs(s[1..]));
      ChrStep(t, i, e, s[0]);
      DecodedOverChrs(t, i + |ShowChr(s[0])|, e, s[1..]);
      Assoc(ReadChr(s[0]), ReadChrs(s[1..]), Decoded(t, i + |ShowChrs(s)|, e, Inside));
    }
  }

  lemma ChrsFront(s: seq<Chr>)
    requires s != [] && ChrsOk(s)
    ensures ShowChrs(s) == ShowChr(s[0]) + ShowChrs(s[1..]) && ReadChrs(s) == ReadChr(s[0]) + ReadChrs(s[1..])
    ensures ChrOk(s[0]) && ChrsOk(s[1..])
  {
  }

  lemma QuoteStep(t: string, i: nat, e: nat, q: Quoting)
    requires i < |t| && i < e && t[i] == '"'
    ensures Delim(t, i, q) == Delim(t, i + 1, Toggle(q))
    ensures Decoded(t, i, e, q) == Decoded(t, i + 1, e, Toggle(q))
  {
  }

  lemma StringTaken(t: string, l: nat, e: nat, s: seq<Chr>, q: Quoting)
    requires ChrsOk(s) && Occurs(t, l, ShowString(s)) && l + |ShowString(s)| <= e && !q.Inside?
    ensures Delim(t, l, q) == Delim(t, l + |ShowString(s)|, After)
    ensures Decoded(t, l, e, q) == ReadChrs(s) + Decoded(t, l + |ShowString(s)|, e, After)
  {
    hide Delim, Decoded, ShowString, Occurs, ChrsOk, ReadChrs;
    StringAt(t, l, s);
    QuoteStep(t, l, e, q);
    DelimSkipsChrs(t, l + 1, s);
    DecodedOverChrs(t, l + 1, e, s);
    QuoteStep(t, l + 1 + |ShowChrs(s)|, e, Inside);
  }

  lemma {:induction false} DecodedSkipsSpaces(t: string, i: nat, j: nat, e: nat)
    requires i <= j <= |t| && j <= e && SpacesIn(t, i, j)
    ensures Decoded(t, i, e, After) == Decoded(t, j, e, After)
    decreases j - i
  {
    if i < j { DecodedSkipsSpaces(t, i + 1, j, e); }
  }

  /** Joined strings are one piece, and read as one string. */
  lemma {:induction false} StringsTaken(t: string, l: nat, e: nat, s: Strings, q: Quoting)
    requires StringsOk(s) && Occurs(t, l, ShowStrings(s)) && l + |ShowStrings(s)| <= e && !q.Inside?
    ensures Delim(t, l, q) == Delim(t, l + |ShowStrings(s)|, After)
    ensures Decoded(t, l, e, q) == ReadStrings(s) + Decoded(t, l + |ShowStrings(s)|, e, After)
    decreases s
  {
    hide Delim, Decoded, ShowString, Occurs, ChrsOk, ReadChrs, IsBlank;
    match s
    case One(chars) => StringTaken(t, l, e, chars, q);
    case Joined(chars, gap, rest) =>
      var a := l + |ShowString(chars)|;
      var b := a + |gap|;
      OccursSplit(t, l, ShowString(chars), gap + ShowStrings(rest));
      OccursSplit(t, a, gap, ShowStrings(rest));
      StringTaken(t, l, e, chars, q);
      DelimSkipsBlank(t, a, gap, After);
      DecodedSkipsSpaces(t, a, b, e);
      StringsTaken(t, b, e, rest, After);
  }

  lemma {:induction false} StringsEnds(t: string, l: nat, s: Strings)
    requires Occurs(t, l, ShowStrings(s))
    ensures |ShowStrings(s)| >= 2 && l + |ShowStrings(s)| <= |t| && t[l] == '"' && t[l + |ShowStrings(s)| - 1] == '"'
    decreases s
  {
    hide ShowString, Occurs;
    match s
    case One(chars) => StringAt(t, l, chars);
    case Joined(chars, gap, rest) =>
      OccursSplit(t, l, ShowString(chars), gap + ShowStrings(rest));
      OccursSplit(t, l + |ShowString(chars)|, gap, ShowStrings(rest));
      StringAt(t, l, chars);
      StringsEnds(t, l + |ShowString(chars)| + |gap|, rest);
  }

  /** Strings in blanks, up to a structural character. */
  lemma LexStrings(t: string, pos: nat, before: string, s: Strings, after: string) returns (x: Lexeme)
    requires Occurs(t, pos, before + (ShowStrings(s) + after)) && IsBlank(before) && StringsOk(s) && IsBlank(after)
    requires Closes(At(t, pos + |before + (ShowStrings(s) + after)|))
    ensures x.token == pos + |before + (ShowStrings(s) + after)| <= |t| && Lex(t, pos) == Some(x)
    ensures x.left < x.right < x.token && t[x.left] == '"' && t[x.right] == '"'
    ensures Decoded(t, x.left, x.right + 1, Bare) == ReadStrings(s)
  {
    hide Delim, Lex, ShowStrings, SpacesIn, StringsOk, ReadStrings, Occurs, IsBlank;
    var l := pos + |before|;
    var r := l + |ShowStrings(s)|;
    var q := r + |after|;
    OccursSplit(t, pos, before, ShowStrings(s) + after);
    OccursSplit(t, l, ShowStrings(s), after);
    StringsEnds(t, l, s);
    StringsTaken(t, l, r, s, Bare);
    DelimSkipsBlank(t, pos, before, Bare);
    DelimSkipsBlank(t, r, after, After);
    DelimCloses(t, q, After);
    LexIs(t, pos, l, r, q);
    x := Lexeme(q, l, r - 1);
  }

  lemma ClassifyNumeral(t: string, left: nat, right: nat, n: Numeral)
    requires NumeralOk(n) && left <= right < |t| && t[left..right + 1] == ShowNumeral(n) && Stops(At(t, right + 1))
    requires t[left] != '"'
    ensures Classify(t, left, right) == Some(Number)
  {
    assert Occurs(t, left, ShowNumeral(n));
    NumeralEndAt(t, left, n);
    NumeralIsNoWord(n);
    hide StrtodEnd, NumeralOk, ShowNumeral;
  }

  /** No numeral is one of the three words. */
  lemma NumeralIsNoWord(n: Numeral)
    requires NumeralOk(n)
    ensures ShowNumeral(n) != "null" && ShowNumeral(n) != "true" && ShowNumeral(n) != "false"
  {
    var s := ShowNumeral(n);
    NumeralStart(n);
    assert "null"[0] == 'n' && "null"[1] == 'u' && "true"[0] == 't' && "false"[0] == 'f';
  }

  lemma NumeralStart(n: Numeral)
    requires NumeralOk(n)
    ensures var s := ShowNumeral(n); s != "" && s[0] != 't' && s[0] != 'f' && (s[0] == 'n' ==> |s| >= 2 && Lower(s[1]) == 'a')
  {
    hide ShowExponent, ScaleOk;
    if n.sign == "" {
      var u := ShowUnsigned(n);
      assert ShowNumeral(n) == u;
      match n
      case Infinite(_, word) => assert "inf"[0] == 'i' && "infinity"[0] == 'i';
      case NotNumber(_, word, tag) => assert "nan"[0] == 'n' && "nan"[1] == 'a' && u[0] == word[0] && u[1] == word[1];
      case Written(_, hex, prefix, whole, f, x) =>
        if hex {
          assert "0x"[0] == '0' && u[0] == prefix[0];
        } else {
          WrittenStart(whole, f, x);
        }
    } else {
      assert ShowNumeral(n)[0] == n.sign[0];
    }
  }

  lemma WrittenStart(whole: string, f: Option<string>, x: Option<Exponent>)
    requires AllDigits(whole) && (whole != "" || (f.Some? && f.value != ""))
    ensures var s := "" + ShowMantissa(whole, f, x); s != "" && (IsDigit(s[0]) || s[0] == '.')
  {
    hide ShowExponent;
    var s := "" + ShowMantissa(whole, f, x);
    if whole == "" {
      assert s[0] == ShowFraction(f)[0];
    } else {
      assert s[0] == whole[0];
    }
  }

  /** A word in blanks finishes a fresh node as the word's value. */
  lemma WordTaken(t: string, pos: nat, before: string, w: Word, after: string, name: Option<string>) returns (x: Lexeme)
    requires WordOk(w) && IsBlank(before) && IsBlank(after)
    requires Occurs(t, pos, before + (ShowWord(w) + after)) && Closes(At(t, pos + |before + (ShowWord(w) + after)|))
    ensures x.token == pos + |before + (ShowWord(w) + after)| <= |t| && Lex(t, pos) == Some(x)
    ensures Settle(t, Info(Empty, name, None), x) == Some(WordInfo(name, w))
  {
    hide Lex, Decoded, Settle, Occurs, Classify, Closes, IsBlank, NumeralOk, ShowNumeral, StringsOk, ShowStrings, ReadStrings, Stops, PlainWord;
    match w
    case NullWord => x := WordSettles(t, pos, before, "null", after, name, Null);
    case BoolWord(b) => x := WordSettles(t, pos, before, ShowWord(w), after, name, Boolean);
    case NumeralWord(n) =>
      NumeralIsPlain(n);
      NumeralNotEmpty(n);
      x := LexWord(t, pos, before, ShowNumeral(n), after);
      ClassifyNumeral(t, x.left, x.right, n);
      SettleValue(t, name, x, Number, ShowNumeral(n));
    case StringWord(s) =>
      x := LexStrings(t, pos, before, s, after);
      ClassifyQuoted(t, x.left, x.right);
      SettleValue(t, name, x, String, ReadStrings(s));
  }

  lemma NumeralNotEmpty(n: Numeral)
    requires NumeralOk(n)
    ensures ShowNumeral(n) != ""
  {
    NumeralStart(n);
  }

  lemma ClassifyQuoted(t: string, left: nat, right: nat)
    requires left <= right < |t| && t[left] == '"' && t[right] == '"'
    ensures Classify(t, left, right) == Some(String)
  {
  }

  // ----- what is taken is shown -----

  /** An open string goes on to its closing quote. */
  lemma {:induction false} ChrsFound(t: string, i: nat, d: nat) returns (s: seq<Chr>, k: nat)
    requires i <= |t| && Delim(t, i, Inside) == Some(d)
    ensures ChrsOk(s) && i <= k < d <= |t| && t[i..k] == ShowChrs(s) && t[k] == '"' && Delim(t, k + 1, After) == Some(d)
    decreases |t| - i
  {
    if t[i] == '"' {
      s, k := [], i;
      assert t[i..i] == "";
    } else if t[i] == '\\' {
      var rest;
      rest, k := ChrsFound(t, i + 2, d);
      s := [Esc(t[i + 1])] + rest;
      assert t[i..k] == ShowChr(Esc(t[i + 1])) + t[i + 2..k];
      assert s[1..] == rest;
    } else {
      var rest;
      rest, k := ChrsFound(t, i + 1, d);
      s := [Raw(t[i])] + rest;
      assert t[i..k] == ShowChr(Raw(t[i])) + t[i + 1..k];
      assert s[1..] == rest;
    }
  }

  lemma AfterFinds(t: string, i: nat, d: nat)
    requires i < d <= |t| && Delim(t, i, After) == Some(d) && !IsSpace(t[i])
    ensures t[i] == '"'
  {
  }

  /** What begins with a quote is a row of strings up to the blanks before the structural character. */
  lemma {:induction false} StringsFound(t: string, i: nat, d: nat, q: Quoting) returns (s: Strings, e: nat)
    requires i < d <= |t| && t[i] == '"' && !q.Inside? && Delim(t, i, q) == Some(d)
    ensures StringsOk(s) && i < e <= d && t[i..e] == ShowStrings(s) && SpacesIn(t, e, d) && t[e - 1] == '"'
    decreases |t| - i
  {
    hide Delim, Decoded, FirstInk, ChrsOk, ShowChrs, ShowString, StringsOk, ShowStrings;
    QuoteStep(t, i, d, q);
    var chars, k := ChrsFound(t, i + 1, d);
    StringText(t, i, k, chars);
    OneString(chars);
    var j := FirstInk(t, k + 1, d);
    DelimSkipsSpaces(t, k + 1, j, After);
    if j == d {
      s, e := One(chars), k + 1;
    } else {
      AfterFinds(t, j, d);
      var rest;
      rest, e := StringsFound(t, j, d, After);
      s := Joined(chars, t[k + 1..j], rest);
      JoinedText(t, i, k + 1, j, e, chars, rest);
    }
  }

  lemma OneString(chars: seq<Chr>)
    requires ChrsOk(chars)
    ensures StringsOk(One(chars)) && ShowStrings(One(chars)) == ShowString(chars)
  {
  }

  lemma JoinedText(t: string, i: nat, k: nat, j: nat, e: nat, chars: seq<Chr>, rest: Strings)
    requires i <= k <= j <= e <= |t| && t[i..k] == ShowString(chars) && t[j..e] == ShowStrings(rest) && SpacesIn(t, k, j)
    requires ChrsOk(chars) && StringsOk(rest)
    ensures var s := Joined(chars, t[k..j], rest); StringsOk(s) && t[i..e] == ShowStrings(s)
  {
    hide ChrsOk, ShowString;
    ThreeParts(t, i, k, j, e);
    SpacesAreBlank(t, k, j);
  }

  lemma SpacesAreBlank(t: string, a: nat, b: nat)
    requires a <= b <= |t| && SpacesIn(t, a, b)
    ensures IsBlank(t[a..b])
  {
  }

  lemma StringText(t: string, i: nat, k: nat, chars: seq<Chr>)
    requires i < k < |t| && t[i] == '"' && t[k] == '"' && t[i + 1..k] == ShowChrs(chars)
    ensures t[i..k + 1] == ShowString(chars)
  {
    hide ShowChrs;
    assert t[i..k + 1] == "\"" + (t[i + 1..k] + "\"");
  }

  /** The parts of a piece. */
  lemma PieceSplits(t: string, pos: nat, x: Lexeme)
    requires pos <= |t| && Lex(t, pos) == Some(x)
    ensures x.left == x.token ==> IsBlank(t[pos..x.token])
    ensures x.left != x.token ==>
      && x.right < x.token && IsBlank(t[pos..x.left]) && IsBlank(t[x.right + 1..x.token])
      && t[pos..x.token] == t[pos..x.left] + (t[x.left..x.right + 1] + t[x.right + 1..x.token])
      && !IsSpace(t[x.left]) && !IsSpace(t[x.right]) && Stops(At(t, x.right + 1))
      && Delim(t, pos, Bare) == Some(x.token) && SpacesIn(t, pos, x.left) && SpacesIn(t, x.right + 1, x.token)
  {
    hide IsBlank, Delim, Lex, SpacesIn, Stops;
    DelimEnds(t, pos, x);
    if x.left == x.token {
      SpacesAreBlank(t, pos, x.token);
    } else {
      InkBounds(t, pos, x);
      SpacesAreBlank(t, pos, x.left);
      SpacesAreBlank(t, x.right + 1, x.token);
      ThreeParts(t, pos, x.left, x.right + 1, x.token);
      StopsBehind(t, x.right + 1, x.token);
    }
  }

  lemma DelimEnds(t: string, pos: nat, x: Lexeme)
    requires pos <= |t| && Lex(t, pos) == Some(x)
    ensures IsToken(At(t, x.token)) || At(t, x.token) == '\0'
    ensures x.left == x.token ==> SpacesIn(t, pos, x.token)
  {
    hide Delim, FirstInk, LastInk;
  }

  lemma InkBounds(t: string, pos: nat, x: Lexeme)
    requires pos <= |t| && Lex(t, pos) == Some(x) && x.left != x.token
    ensures x.right < x.token && SpacesIn(t, pos, x.left) && SpacesIn(t, x.right + 1, x.token)
    ensures !IsSpace(t[x.left]) && !IsSpace(t[x.right]) && Delim(t, pos, Bare) == Some(x.token)
  {
    hide Delim, FirstInk, LastInk;
  }

  lemma StopsBehind(t: string, r: nat, d: nat)
    requires r <= d <= |t| && SpacesIn(t, r, d) && (IsToken(At(t, d)) || At(t, d) == '\0')
    ensures Stops(At(t, r))
  {
  }

  /** A piece that begins with a quote is a row of strings. */
  lemma QuotedPiece(t: string, pos: nat, x: Lexeme) returns (s: Strings)
    requires pos <= |t| && Lex(t, pos) == Some(x) && x.left != x.token && t[x.left] == '"'
    ensures x.right < x.token && StringsOk(s) && t[x.left..x.right + 1] == ShowStrings(s) && t[x.right] == '"'
    ensures Decoded(t, x.left, x.right + 1, Bare) == ReadStrings(s)
  {
    hide Delim, Lex, StringsOk, ShowStrings, ReadStrings, Decoded, Stops, IsBlank;
    PieceSplits(t, pos, x);
    DelimSkipsSpaces(t, pos, x.left, Bare);
    var e;
    s, e := StringsFound(t, x.left, x.token, Bare);
    SameEnd(t, x.left, e, x.right + 1, x.token);
    StringsRead(t, x.left, e, s);
  }

  lemma SameEnd(t: string, i: nat, a: nat, b: nat, d: nat)
    requires i < a <= d <= |t| && i < b <= d && SpacesIn(t, a, d) && SpacesIn(t, b, d)
    requires !IsSpace(t[a - 1]) && !IsSpace(t[b - 1])
    ensures a == b
  {
  }

  lemma StringsRead(t: string, l: nat, e: nat, s: Strings)
    requires StringsOk(s) && l <= e <= |t| && t[l..e] == ShowStrings(s)
    ensures Decoded(t, l, e, Bare) == ReadStrings(s)
  {
    assert Occurs(t, l, ShowStrings(s));
    assert Decoded(t, e, e, After) == "";
    hide Decoded, Occurs, StringsOk, ShowStrings, ReadStrings;
    StringsTaken(t, l, e, s, Bare);
  }

  lemma KeyFound(t: string, pos: nat, x: Lexeme, d: Info) returns (k: Key)
    requires pos <= |t| && Lex(t, pos) == Some(x) && SetName(t, BLANK, x) == Some(d) && x.token < |t| && t[x.token] == ':'
    ensures KeyOk(k) && t[pos..x.token + 1] == ShowKey(Some(k)) && d == Info(Empty, NameOf(Some(k)), None)
  {
    hide Lex, Decoded, StringsOk, ShowStrings, ReadStrings, IsBlank;
    PieceSplits(t, pos, x);
    var s := QuotedPiece(t, pos, x);
    k := Key(t[pos..x.left], s, t[x.right + 1..x.token]);
    assert t[pos..x.token + 1] == t[pos..x.token] + ":";
  }

  /** A piece that finishes a fresh node is a word in blanks. */
  lemma WordFound(t: string, pos: nat, x: Lexeme, name: Option<string>, d: Info) returns (w: Word)
    requires pos <= |t| && Lex(t, pos) == Some(x) && x.left != x.token && x.right < x.token
    requires Settle(t, Info(Empty, name, None), x) == Some(d)
    ensures WordOk(w) && t[x.left..x.right + 1] == ShowWord(w) && d == WordInfo(name, w)
  {
    hide Lex, Delim, Decoded, StringsOk, ShowStrings, ReadStrings, IsBlank, StrtodEnd, NumeralOk, ShowNumeral, Stops;
    PieceSplits(t, pos, x);
    if t[x.left] == '"' {
      var s := QuotedPiece(t, pos, x);
      w := StringWord(s);
    } else {
      var word := t[x.left..x.right + 1];
      if word == "null" {
        w := Word.NullWord;
      } else if word == "true" || word == "false" {
        w := Word.BoolWord(word == "true");
      } else {
        StrtodIff(t, x.left, x.right);
        var n :| NumeralOk(n) && word == ShowNumeral(n);
        w := NumeralWord(n);
      }
      WordRead(t, x.left, x.right + 1, w);
    }
  }

  lemma WordRead(t: string, l: nat, e: nat, w: Word)
    requires WordOk(w) && !w.StringWord? && l <= e <= |t| && t[l..e] == ShowWord(w)
    ensures Decoded(t, l, e, Bare) == ShowWord(w)
  {
    hide WordOk, ShowWord, Decoded;
    WordIsPlain(w);
    assert Occurs(t, l, ShowWord(w));
    WordStep(t, l, ShowWord(w));
  }

  lemma WordIsPlain(w: Word)
    requires WordOk(w) && !w.StringWord?
    ensures PlainWord(ShowWord(w))
  {
    if w.NumeralWord? { NumeralIsPlain(w.n); }
  }
}
