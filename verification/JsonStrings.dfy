/** Quoting and unquoting of strings in `App/json/json.c`. */
module JsonStrings {
  import opened CText
  import opened JsonLex
  import opened JsonTree
  import opened JsonGrammar
  import opened JsonCompleteness

  function EscapeLetter(c: char): Option<char> {
    match c
    case '\\' => Some('\\')
    case '/' => Some('/')
    case '"' => Some('"')
    case '\U{8}' => Some('b')
    case '\U{C}' => Some('f')
    case '\n' => Some('n')
    case '\r' => Some('r')
    case '\t' => Some('t')
    case _ => None
  }

  function EncodedChar(c: char): string {
    match EscapeLetter(c)
    case Some(e) => ['\\', e]
    case None => [c]
  }

  function EncodedBody(s: string): string {
    if s == "" then "" else EncodedBody(s[..|s| - 1]) + EncodedChar(s[|s| - 1])
  }

  function Encoded(s: string): string {
    "\"" + (EncodedBody(s) + "\"")
  }

  lemma NoneEncoded()
    ensures EncodedBody("") == ""
  {
  }

  lemma OneMoreEncoded(s: string, i: nat)
    requires i < |s|
    ensures EncodedBody(s[..i + 1]) == EncodedBody(s[..i]) + EncodedChar(s[i])
  {
    assert s[..i + 1][..i] == s[..i];
  }

  /** `json_encode`: the quoted text and its terminating zero are written from the start of `dst`. */
  method Encode(dst: array<char>, src: string) returns (size: nat)
    requires 2 * |src| + 3 <= dst.Length
    modifies dst
    ensures size < dst.Length && dst[..size] == Encoded(src) && dst[size] == '\0'
    ensures forall i :: size < i < dst.Length ==> dst[i] == old(dst[i])
  {
    hide EscapeLetter, EncodedBody;
    NoneEncoded();
    assert src[..0] == "";
    dst[0] := '"';
    var p, i := 1, 0;
    while i < |src|
      invariant i <= |src| && 1 <= p <= 2 * i + 1
      invariant dst[..p] == "\"" + EncodedBody(src[..i])
      invariant forall k :: p <= k < dst.Length ==> dst[k] == old(dst[k])
    {
      ghost var done := dst[..p];
      var e := EscapeLetter(src[i]);
      if e.Some? {
        dst[p] := '\\';
        dst[p + 1] := e.value;
        p := p + 2;
      } else {
        dst[p] := src[i];
        p := p + 1;
      }
      assert dst[..p] == done + EncodedChar(src[i]);
      OneMoreEncoded(src, i);
      i := i + 1;
    }
    assert src[..i] == src;
    dst[p] := '"';
    assert dst[..p + 1] == Encoded(src);
    size := p + 1;
    dst[size] := '\0';
  }

  /** The characters of an encoded string, as the grammar writes them. */
  function ChrOf(c: char): Chr {
    match EscapeLetter(c)
    case Some(e) => Esc(e)
    case None => Raw(c)
  }

  function Chrs(s: string): seq<Chr> {
    if s == "" then [] else [ChrOf(s[0])] + Chrs(s[1..])
  }

  lemma ChrIsEncoding(c: char)
    requires c != '\0'
    ensures ChrOk(ChrOf(c)) && ShowChr(ChrOf(c)) == EncodedChar(c) && ReadChr(ChrOf(c)) == [c]
  {
  }

  lemma {:induction false} EncodedFromFront(s: string)
    requires s != ""
    ensures EncodedBody(s) == EncodedChar(s[0]) + EncodedBody(s[1..])
    decreases |s|
  {
    var n := |s| - 1;
    if n > 0 {
      EncodedFromFront(s[..n]);
      assert s[..n][1..] == s[1..][..n - 1];
    }
  }

  lemma {:induction false} ChrsAreEncoding(s: string)
    requires '\0' !in s
    ensures ChrsOk(Chrs(s)) && ShowChrs(Chrs(s)) == EncodedBody(s) && ReadChrs(Chrs(s)) == s
  {
    hide ChrOk, ShowChr, EncodedChar, ReadChr, ChrOf;
    if s != "" {
      ChrIsEncoding(s[0]);
      EncodedFromFront(s);
      ChrsAreEncoding(s[1..]);
      assert Chrs(s)[1..] == Chrs(s[1..]);
    }
  }

  /** Round trip: parsing the encoding of a string gives one string node that holds the string. */
  lemma EncodeParse(s: string)
    requires '\0' !in s
    ensures Parse(Encoded(s)) == Some(Bin(Info(String, None, Some(s)), Nil, Nil))
  {
    hide Parse, ChrsOk, ShowChrs, EncodedBody, Chrs, ReadChrs;
    ChrsAreEncoding(s);
    var e := Element("", Simple(StrWord(Chrs(s))), "");
    assert ShowElement(e) == Encoded(s);
    Completeness(e);
  }

  /** The characters that are written with a backslash: those with an escape of two characters in section 7 of
      RFC 8259. */
  const ESCAPED := ['\\', '/', '"', '\U{8}', '\U{C}', '\n', '\r', '\t']

  function EscapedIn(s: string): nat {
    if s == "" then 0 else EscapedIn(s[..|s| - 1]) + if s[|s| - 1] in ESCAPED then 1 else 0
  }

  lemma LettersAreEscaped(c: char)
    ensures EscapeLetter(c).Some? <==> c in ESCAPED
    ensures forall i :: 0 <= i < |EncodedChar(c)| ==> !(EncodedChar(c)[i] in ESCAPED[3..])
  {
    var e := EncodedChar(c);
    assert ESCAPED[3..] == ['\U{8}', '\U{C}', '\n', '\r', '\t'];
  }

  /** The encoding has one character more for each that is written with a backslash, and in it none of the five control
      characters is left. */
  lemma {:induction false} EncodedIsEscaped(s: string)
    ensures |Encoded(s)| == |s| + EscapedIn(s) + 2
    ensures forall i :: 0 <= i < |EncodedBody(s)| ==> !(EncodedBody(s)[i] in ESCAPED[3..])
  {
    hide EncodedChar;
    if s != "" {
      EncodedIsEscaped(s[..|s| - 1]);
      LettersAreEscaped(s[|s| - 1]);
      CharLength(s[|s| - 1]);
    }
  }

  lemma CharLength(c: char)
    ensures |EncodedChar(c)| == if EscapeLetter(c).Some? then 2 else 1
  {
  }

  /** Every backslash that the decoding of `t[i..e]` meets has its letter before `e`. */
  predicate EscapesInside(t: string, i: nat, e: nat)
    decreases if i < e then e - i else 0
  {
    if i >= e then true
    else if At(t, i) == '\\' then i + 1 < e && IsEscape(At(t, i + 1)) && EscapesInside(t, i + 2, e)
    else EscapesInside(t, i + 1, e)
  }

  lemma {:induction false} ScannedEscapes(t: string, i: nat, q: Quoting, e: nat, d: nat)
    requires i <= |t| && Delim(t, i, q) == Some(d) && e <= d && SpacesIn(t, e, d)
    ensures EscapesInside(t, i, e)
    decreases |t| - i
  {
    if i < e {
      if t[i] == '\\' {
        ScannedEscapes(t, i + 2, q, e, d);
      } else if t[i] == '"' {
        ScannedEscapes(t, i + 1, Toggle(q), e, d);
      } else {
        ScannedEscapes(t, i + 1, q, e, d);
      }
    }
  }

  /** On every piece that the scanner delivers, the copy never looks past the end of the piece. */
  lemma LexemeEscapes(t: string, pos: nat)
    requires pos <= |t| && Lex(t, pos).Some?
    ensures var x := Lex(t, pos).value; x.left != x.token ==> EscapesInside(t, x.left, x.right + 1)
  {
    var x := Lex(t, pos).value;
    if x.left != x.token {
      DelimSkipsSpaces(t, pos, x.left, Bare);
      ScannedEscapes(t, x.left, Bare, x.right + 1, x.token);
    }
  }
}
