/** Exactly which byte streams the chunk reader of `io.c` takes for a message: the converse of reading what the writer
    sends. The reader skips whatever stands before a header, and reads a header's size as `strtoul` does. */
module ChunkedStream {
  import opened CText
  import opened Numerals
  import opened EndTag
  import opened Chunked

  /** What is skipped, the text of a header up to its newline, and the chunk. */
  datatype Piece = Piece(junk: string, header: string, chunk: string)

  const TRAILER := "\n##\n"

  /** The search for the start of a header stops right behind this text. */
  predicate Skips(junk: string) {
    Until(junk + HASH, HASH) == Some(|junk| + 2) && !LooksFailed(|junk| + 2)
  }

  predicate HeaderOk(header: string, n: nat) {
    '\n' !in header && header != "#" && Strtoul(header + NEWLINE) == n && !LooksFailed(|header| + 1)
  }

  predicate PieceOk(p: Piece) {
    Skips(p.junk) && HeaderOk(p.header, |p.chunk|) && p.chunk != "" && !LooksFailed(|p.chunk|)
  }

  predicate PiecesOk(pieces: seq<Piece>) {
    forall i :: 0 <= i < |pieces| ==> PieceOk(pieces[i])
  }

  function Stream(pieces: seq<Piece>, last: string, rest: string): string {
    if pieces == [] then last + (TRAILER + rest)
    else
      var p := pieces[0];
      (p.junk + HASH) + ((p.header + NEWLINE) + (p.chunk + Stream(pieces[1..], last, rest)))
  }

  function Texts(pieces: seq<Piece>): string {
    if pieces == [] then "" else pieces[0].chunk + Texts(pieces[1..])
  }

  // ----- the searches look at nothing behind what they find -----

  lemma {:induction false} SearchSame(s: string, u: string, tag: string, count: nat, matched: nat, n: nat)
    requires matched < |tag| && count <= n <= |s| && n <= |u| && s[..n] == u[..n]
    requires Search(s, tag, count, matched, 0) == Some(n)
    ensures Search(u, tag, count, matched, 0) == Some(n)
    decreases n - count
  {
    hide Rematch;
    var c := count + (|tag| - matched);
    RematchSame(s, u, c, n, tag, matched);
    if Rematch(s, c, tag, matched) != |tag| {
      SearchSame(s, u, tag, c, Rematch(s, c, tag, matched), n);
    }
  }

  lemma RematchSame(s: string, u: string, c: nat, n: nat, tag: string, matched: nat)
    requires matched < |tag| && |tag| - matched <= c <= n <= |s| && n <= |u| && s[..n] == u[..n]
    ensures Rematch(s, c, tag, matched) == Rematch(u, c, tag, matched)
    ensures Rematch(s, c, tag, matched) == |tag| || Rematch(s, c, tag, matched) < |tag|
  {
    hide Retry, EndsWith;
    assert s[..c] == s[..n][..c] == u[..n][..c] == u[..c];
    RematchOfPrefix(s, c, tag, matched);
    RematchOfPrefix(u, c, tag, matched);
  }

  lemma UntilSame(s: string, u: string, tag: string, n: nat)
    requires tag != "" && n <= |s| && n <= |u| && s[..n] == u[..n] && Until(s, tag) == Some(n)
    ensures Until(u, tag) == Some(n)
  {
    SearchSame(s, u, tag, 0, 0, n);
  }

  /** The first newline is found, and there is one when it is found. */
  lemma NewlineFound(s: string, b: nat)
    requires b <= |s| && Until(s, NEWLINE) == Some(b)
    ensures b > 0 && s[b - 1] == '\n' && '\n' !in s[..b - 1]
  {
    hide Search;
    UntilEndsWithTag(s, NEWLINE);
    assert s[b - 1..b][0] == '\n';
    var k := FirstNewline(s, 0, b - 1);
    SearchNewline(s, k, 0);
  }

  lemma {:induction false} FirstNewline(s: string, i: nat, n: nat) returns (k: nat)
    requires i <= n < |s| && s[n] == '\n'
    ensures i <= k <= n && s[k] == '\n' && forall j :: i <= j < k ==> s[j] != '\n'
    decreases n - i
  {
    if s[i] == '\n' { k := i; } else { k := FirstNewline(s, i + 1, n); }
  }

  lemma HeaderEnds(header: string, tail: string)
    requires '\n' !in header
    ensures Until((header + NEWLINE) + tail, NEWLINE) == Some(|header| + 1)
  {
    var s := (header + NEWLINE) + tail;
    assert forall i :: 0 <= i < |header| ==> s[i] == header[i];
    SearchNewline(s, |header|, 0);
  }

  /** What is skipped is skipped whatever follows. */
  lemma JunkSkipped(junk: string, tail: string)
    requires Skips(junk)
    ensures var s := (junk + HASH) + tail; Until(s, HASH) == Some(|junk| + 2) && s[|junk| + 2..] == tail
  {
    hide Until;
    var s := (junk + HASH) + tail;
    assert s[..|junk| + 2] == junk + HASH == (junk + HASH)[..|junk| + 2];
    UntilSame(junk + HASH, s, HASH, |junk| + 2);
  }

  lemma JunkFound(s: string, a: nat) returns (junk: string)
    requires a <= |s| && Until(s, HASH) == Some(a) && !LooksFailed(a)
    ensures Skips(junk) && s[..a] == junk + HASH && |junk| + 2 == a
  {
    UntilEndsWithTag(s, HASH);
    hide Until;
    junk := s[..a - 2];
    assert s[..a] == junk + s[a - 2..a];
    assert (junk + HASH)[..a] == s[..a];
    UntilSame(s, junk + HASH, HASH, a);
  }

  // ----- one round of the reader -----

  /** One round, with its parts named. */
  lemma RoundReads(s: string, a: nat, s1: string, b: nat, got: Option<string>)
    requires Until(s, HASH) == Some(a) && a <= |s| && s1 == s[a..] && Until(s1, NEWLINE) == Some(b) && b <= |s1|
    requires !LooksFailed(a) && !LooksFailed(b)
    ensures var (header, body) := (s1[..b], s1[b..]); var n := Strtoul(header);
      ReadChunks(s, got) ==
        if header == "#\n" then if got.Some? then Message(got.value, body) else Malformed
        else if n == 0 then Malformed
        else if n > |body| || LooksFailed(n) then Failed
        else ReadChunks(body[n..], Some(Append(got, body[..n])))
  {
    hide Until, Strtoul, LooksFailed;
  }

  lemma PieceRead(p: Piece, tail: string, got: Option<string>)
    requires PieceOk(p)
    ensures ReadChunks((p.junk + HASH) + ((p.header + NEWLINE) + (p.chunk + tail)), got)
         == ReadChunks(tail, Some(Append(got, p.chunk)))
  {
    hide Until, Strtoul, LooksFailed, ReadChunks, Skips;
    var s1 := (p.header + NEWLINE) + (p.chunk + tail);
    var s := (p.junk + HASH) + s1;
    JunkSkipped(p.junk, s1);
    HeaderEnds(p.header, p.chunk + tail);
    SkipsSize(p.junk);
    var b := |p.header| + 1;
    assert s1[..b] == p.header + NEWLINE && s1[b..] == p.chunk + tail;
    NotTheEnd(p.header);
    RoundReads(s, |p.junk| + 2, s1, b, got);
    assert (p.chunk + tail)[..|p.chunk|] == p.chunk && (p.chunk + tail)[|p.chunk|..] == tail;
  }

  lemma SkipsSize(junk: string)
    requires Skips(junk)
    ensures !LooksFailed(|junk| + 2)
  {
  }

  lemma NotTheEnd(header: string)
    ensures header + NEWLINE == "#\n" <==> header == "#"
  {
    if header + NEWLINE == "#\n" { assert header == (header + NEWLINE)[..1]; }
  }

  lemma TrailerRead(last: string, rest: string, text: string)
    requires Skips(last)
    ensures ReadChunks(last + (TRAILER + rest), Some(text)) == Message(text, rest)
  {
    hide Until, Strtoul, LooksFailed, ReadChunks, Skips;
    var s1 := ("#" + NEWLINE) + rest;
    var s := (last + HASH) + s1;
    assert last + (TRAILER + rest) == s;
    JunkSkipped(last, s1);
    HeaderEnds("#", rest);
    SkipsSize(last);
    Two();
    assert s1[..2] == "#\n" && s1[2..] == rest;
    RoundReads(s, |last| + 2, s1, 2, Some(text));
  }

  lemma Two()
    ensures !LooksFailed(2)
  {
  }

  /** Every such stream is read as a message. */
  lemma {:induction false} StreamIsRead(pieces: seq<Piece>, last: string, rest: string, got: Option<string>)
    requires PiecesOk(pieces) && Skips(last) && (got.Some? || pieces != [])
    ensures ReadChunks(Stream(pieces, last, rest), got) == Message(Append(got, Texts(pieces)), rest)
    decreases |pieces|
  {
    hide ReadChunks, PieceOk, Skips;
    if pieces == [] {
      TrailerRead(last, rest, got.value);
      assert got.value + "" == got.value;
    } else {
      var p := pieces[0];
      PieceRead(p, Stream(pieces[1..], last, rest), got);
      StreamIsRead(pieces[1..], last, rest, Some(Append(got, p.chunk)));
      Assoc(if got.Some? then got.value else "", p.chunk, Texts(pieces[1..]));
    }
  }

  /** Every stream that is read as a message is such a stream. */
  lemma {:induction false} MessageIsStream(s: string, got: Option<string>) returns (pieces: seq<Piece>, last: string)
    requires ReadChunks(s, got).Message?
    ensures var r := ReadChunks(s, got);
      && PiecesOk(pieces) && Skips(last) && (got.Some? || pieces != [])
      && s == Stream(pieces, last, r.rest) && r.text == Append(got, Texts(pieces))
    decreases |s|
  {
    hide ReadChunks, Skips, PieceOk;
    var junk, header, body := RoundFound(s, got);
    if header == "#" {
      pieces, last := [], junk;
      EndText(junk, body);
      assert Append(got, "") == got.value;
    } else {
      var n := Strtoul(header + NEWLINE);
      var p := Piece(junk, header, body[..n]);
      PieceFound(p, n);
      var more;
      more, last := MessageIsStream(body[n..], Some(Append(got, p.chunk)));
      pieces := [p] + more;
      assert body == p.chunk + body[n..];
      Assoc(if got.Some? then got.value else "", p.chunk, Texts(more));
      StreamUnfolds(p, more, last, ReadChunks(s, got).rest);
    }
  }

  lemma EndText(junk: string, body: string)
    ensures (junk + HASH) + (("#" + NEWLINE) + body) == junk + (TRAILER + body)
  {
  }

  /** What a round that leads to a message has found. */
  lemma RoundFound(s: string, got: Option<string>) returns (junk: string, header: string, body: string)
    requires ReadChunks(s, got).Message?
    ensures s == (junk + HASH) + ((header + NEWLINE) + body) && Skips(junk)
    ensures '\n' !in header && !LooksFailed(|header| + 1)
    ensures var n := Strtoul(header + NEWLINE);
      if header == "#" then got.Some? && ReadChunks(s, got) == Message(got.value, body)
      else 0 < n <= |body| && !LooksFailed(n) && ReadChunks(s, got) == ReadChunks(body[n..], Some(Append(got, body[..n])))
  {
    hide Until, Strtoul, LooksFailed, Skips;
    var a := Until(s, HASH).value;
    var s1 := s[a..];
    var b := Until(s1, NEWLINE).value;
    header, body := s1[..b - 1], s1[b..];
    junk := JunkFound(s, a);
    NewlineFound(s1, b);
    assert s1[..b] == header + NEWLINE;
    assert s == s[..a] + (s1[..b] + body);
    NotTheEnd(header);
  }

  lemma PieceFound(p: Piece, n: nat)
    requires Skips(p.junk) && '\n' !in p.header && p.header != "#" && Strtoul(p.header + NEWLINE) == n == |p.chunk| && n != 0
    requires !LooksFailed(|p.header| + 1) && !LooksFailed(n)
    ensures PieceOk(p)
  {
    hide Skips, Strtoul, LooksFailed;
  }

  lemma StreamUnfolds(p: Piece, more: seq<Piece>, last: string, rest: string)
    ensures Stream([p] + more, last, rest) == (p.junk + HASH) + ((p.header + NEWLINE) + (p.chunk + Stream(more, last, rest)))
    ensures Texts([p] + more) == p.chunk + Texts(more)
  {
    assert ([p] + more)[1..] == more;
  }

  /** For every byte stream: it is read as a message if and only if it is one piece or more with the text in their
      chunks, then the end of chunks, and then what is left unread. In particular nothing is taken for a message that
      lacks the end. */
  lemma MessageIff(s: string, text: string, rest: string)
    ensures ReadChunks(s, None) == Message(text, rest)
       <==> exists pieces: seq<Piece>, last: string ::
              pieces != [] && PiecesOk(pieces) && Skips(last) && s == Stream(pieces, last, rest) && text == Texts(pieces)
  {
    hide ReadChunks, PiecesOk, Skips, Stream, Texts;
    if ReadChunks(s, None) == Message(text, rest) {
      var pieces, last := MessageIsStream(s, None);
      assert "" + Texts(pieces) == Texts(pieces);
    }
    if pieces: seq<Piece>, last: string :|
      pieces != [] && PiecesOk(pieces) && Skips(last) && s == Stream(pieces, last, rest) && text == Texts(pieces)
    {
      StreamIsRead(pieces, last, rest, None);
      assert "" + Texts(pieces) == Texts(pieces);
    }
  }
}
