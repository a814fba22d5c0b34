/** Writing NETCONF messages in `io.c`: the buffered writer with its chunk headers (section 4.2 of RFC 6242). */
module Framing {
  import opened CText
  import opened Numerals
  import opened MessageEnd

  const WRITE_BUFSIZE := 1024

  datatype Version = V10 | V11

  // ----- what the writer does, on values -----

  /** A call of `nc_write_clb`: bytes as they are, or character data to be escaped. */
  datatype Call = Raw(bytes: string) | Xml(chars: string)

  function EscapeXml(c: char): (r: string)
    ensures 1 <= |r| <= 5
  {
    match c
    case '&' => "&amp;"
    case '<' => "&lt;"
    case '>' => "&gt;"
    case _ => [c]
  }

  function EscapeAll(s: string): string {
    if s == "" then "" else EscapeAll(s[..|s| - 1]) + EscapeXml(s[|s| - 1])
  }

  /** What a call adds to the message. */
  function Payload(call: Call): string {
    match call
    case Raw(s) => s
    case Xml(s) => EscapeAll(s)
  }

  function Payloads(calls: seq<Call>): string {
    if calls == [] then "" else Payloads(calls[..|calls| - 1]) + Payload(calls[|calls| - 1])
  }

  /** The chunks handed to the transport so far, and the bytes that wait in the buffer. */
  datatype Sink = Sink(chunks: seq<string>, pending: string)

  /** `nc_write_clb_flush` */
  function Flushed(k: Sink): Sink {
    if k.pending == "" then k else Sink(k.chunks + [k.pending], "")
  }

  function WithChar(k: Sink, c: char): Sink {
    var k1 := if |k.pending| + 5 >= WRITE_BUFSIZE then Flushed(k) else k;
    k1.(pending := k1.pending + EscapeXml(c))
  }

  function WithChars(k: Sink, s: string): Sink {
    if s == "" then k else WithChar(WithChars(k, s[..|s| - 1]), s[|s| - 1])
  }

  function MakeRoom(k: Sink, count: nat): Sink {
    if k.pending != "" && |k.pending| + count > WRITE_BUFSIZE then Flushed(k) else k
  }

  /** `nc_write_clb` */
  function Written(k: Sink, call: Call): Sink {
    match call
    case Raw(s) =>
      var k1 := MakeRoom(k, |s|);
      if |s| > WRITE_BUFSIZE then k1.(chunks := k1.chunks + [s]) else k1.(pending := k1.pending + s)
    case Xml(s) => WithChars(MakeRoom(k, |s|), s)
  }

  function WrittenAll(k: Sink, calls: seq<Call>): Sink {
    if calls == [] then k else Written(WrittenAll(k, calls[..|calls| - 1]), calls[|calls| - 1])
  }

  const EMPTY := Sink([], "")

  /** The chunks of a whole message. */
  function MessageChunks(calls: seq<Call>): seq<string> {
    Flushed(WrittenAll(EMPTY, calls)).chunks
  }

  function ChunkHeader(size: nat): string {
    "\n#" + (Numeral(size) + "\n")
  }

  /** A chunk as it goes to the transport: version 1.1 puts a header before it. */
  function Frame(v: Version, chunk: string): string {
    if v.V11? then ChunkHeader(|chunk|) + chunk else chunk
  }

  function Frames(v: Version, chunks: seq<string>): string {
    if chunks == [] then "" else Frames(v, chunks[..|chunks| - 1]) + Frame(v, chunks[|chunks| - 1])
  }

  function Trailer(v: Version): string {
    if v.V11? then "\n##\n" else EOM
  }

  /** All bytes of a message. */
  function Transmitted(v: Version, calls: seq<Call>): string {
    Frames(v, MessageChunks(calls)) + Trailer(v)
  }

  // ----- nothing is lost, nothing is reordered -----

  function Concat(chunks: seq<string>): string {
    if chunks == [] then "" else Concat(chunks[..|chunks| - 1]) + chunks[|chunks| - 1]
  }

  function Content(k: Sink): string {
    Concat(k.chunks) + k.pending
  }

  /** The buffer is never over-full and no chunk is empty. */
  predicate SinkOk(k: Sink) {
    |k.pending| <= WRITE_BUFSIZE && forall i :: 0 <= i < |k.chunks| ==> k.chunks[i] != ""
  }

  lemma ConcatSnoc(chunks: seq<string>, c: string)
    ensures Concat(chunks + [c]) == Concat(chunks) + c
  {
    assert (chunks + [c])[..|chunks|] == chunks;
  }

  lemma FlushedKeeps(k: Sink)
    requires SinkOk(k)
    ensures Content(Flushed(k)) == Content(k) && SinkOk(Flushed(k)) && Flushed(k).pending == ""
  {
    ConcatSnoc(k.chunks, k.pending);
  }

  lemma WithCharKeeps(k: Sink, c: char)
    requires SinkOk(k)
    ensures SinkOk(WithChar(k, c)) && Content(WithChar(k, c)) == Content(k) + EscapeXml(c)
  {
    hide EscapeXml, Concat;
    FlushedKeeps(k);
    var k1 := if |k.pending| + 5 >= WRITE_BUFSIZE then Flushed(k) else k;
    Assoc(Concat(k1.chunks), k1.pending, EscapeXml(c));
  }

  lemma {:induction false} WithCharsKeeps(k: Sink, s: string)
    requires SinkOk(k)
    ensures SinkOk(WithChars(k, s)) && Content(WithChars(k, s)) == Content(k) + EscapeAll(s)
  {
    hide WithChar, EscapeXml, SinkOk, Content;
    if s != "" {
      var n := |s| - 1;
      WithCharsKeeps(k, s[..n]);
      WithCharKeeps(WithChars(k, s[..n]), s[n]);
      Assoc(Content(k), EscapeAll(s[..n]), EscapeXml(s[n]));
    }
  }

  lemma MakeRoomKeeps(k: Sink, count: nat)
    requires SinkOk(k)
    ensures var k1 := MakeRoom(k, count);
      SinkOk(k1) && Content(k1) == Content(k) && (k1.pending == "" || |k1.pending| + count <= WRITE_BUFSIZE)
  {
    hide Flushed, Content;
    FlushedKeeps(k);
  }

  lemma WrittenKeeps(k: Sink, call: Call)
    requires SinkOk(k)
    ensures SinkOk(Written(k, call)) && Content(Written(k, call)) == Content(k) + Payload(call)
  {
    hide EscapeAll, WithChars, Concat, MakeRoom;
    match call
    case Xml(s) =>
      MakeRoomKeeps(k, |s|);
      WithCharsKeeps(MakeRoom(k, |s|), s);
    case Raw(s) =>
      MakeRoomKeeps(k, |s|);
      var k1 := MakeRoom(k, |s|);
      ConcatSnoc(k1.chunks, s);
      Assoc(Concat(k1.chunks), k1.pending, s);
  }

  lemma {:induction false} WrittenAllKeeps(k: Sink, calls: seq<Call>)
    requires SinkOk(k)
    ensures SinkOk(WrittenAll(k, calls)) && Content(WrittenAll(k, calls)) == Content(k) + Payloads(calls)
  {
    hide SinkOk, Content, Written, Payload;
    if calls != [] {
      var n := |calls| - 1;
      WrittenAllKeeps(k, calls[..n]);
      WrittenKeeps(WrittenAll(k, calls[..n]), calls[n]);
      Assoc(Content(k), Payloads(calls[..n]), Payload(calls[n]));
    }
  }

  /** Conservation: the chunks of a message, put together, are the payloads of the calls in order. */
  lemma ChunksHoldPayload(calls: seq<Call>)
    ensures Concat(MessageChunks(calls)) == Payloads(calls)
    ensures forall i :: 0 <= i < |MessageChunks(calls)| ==> MessageChunks(calls)[i] != ""
  {
    WrittenAllKeeps(EMPTY, calls);
    FlushedKeeps(WrittenAll(EMPTY, calls));
  }

  // ----- the writer -----

  /** `struct wclb_arg`, with the bytes that the transport has been given. */
  class Writer {
    const version: Version
    const buf: array<char>
    var len: nat
    var out: string

    ghost predicate Valid()
      reads this
    {
      buf.Length == WRITE_BUFSIZE && len <= WRITE_BUFSIZE
    }

    /** The writer is in the state `k`, `base` being the bytes of earlier messages. */
    ghost predicate Holds(base: string, k: Sink)
      reads this, buf
    {
      Valid() && buf[..len] == k.pending && out == base + Frames(version, k.chunks)
    }

    constructor (version: Version)
      ensures this.version == version && fresh(buf) && Holds("", EMPTY)
    {
      this.version := version;
      buf := new char[WRITE_BUFSIZE];
      len := 0;
      out := "";
    }

    /** `nc_write_starttag_and_msg` */
    method Send(chunk: string, ghost base: string, ghost k: Sink)
      requires Holds(base, k)
      modifies this`out
      ensures Holds(base, k.(chunks := k.chunks + [chunk]))
    {
      hide ChunkHeader, Frames;
      FramesSnoc(version, k.chunks, chunk);
      Assoc(base, Frames(version, k.chunks), Frame(version, chunk));
      if version.V11? {
        Assoc(out, ChunkHeader(|chunk|), chunk);
        out := out + ChunkHeader(|chunk|);
      }
      out := out + chunk;
    }

    /** `nc_write_clb_flush` */
    method Flush(ghost base: string, ghost k: Sink)
      requires Holds(base, k)
      modifies this
      ensures Holds(base, Flushed(k))
    {
      if len != 0 {
        Send(buf[..len], base, k);
        len := 0;
      }
    }

    /** Bytes are copied behind the ones that wait. */
    method Keep(bytes: string, ghost base: string, ghost k: Sink)
      requires Holds(base, k) && len + |bytes| <= WRITE_BUFSIZE
      modifies this`len, buf
      ensures Holds(base, k.(pending := k.pending + bytes))
    {
      var i := 0;
      while i < |bytes|
        invariant i <= |bytes| && len == old(len) && buf[..len + i] == k.pending + bytes[..i]
      {
        buf[len + i] := bytes[i];
        i := i + 1;
      }
      len := len + |bytes|;
    }

    /** `nc_write_clb` */
    method Write(call: Call, ghost base: string, ghost k: Sink)
      requires Holds(base, k)
      modifies this, buf
      ensures Holds(base, Written(k, call))
    {
      hide Frames, Flushed, EscapeXml, WithChars;
      var count := match call case Raw(s) => |s| case Xml(s) => |s|;
      ghost var k1 := MakeRoom(k, count);
      if len != 0 && len + count > WRITE_BUFSIZE {
        Flush(base, k);
        FlushedPending(k);
      }
      match call
      case Raw(s) =>
        if count > WRITE_BUFSIZE {
          Send(s, base, k1);
        } else {
          Keep(s, base, k1);
        }
      case Xml(s) =>
        WriteChars(s, base, k1);
    }

    method WriteChars(s: string, ghost base: string, ghost k: Sink)
      requires Holds(base, k)
      modifies this, buf
      ensures Holds(base, WithChars(k, s))
    {
      hide Frames, Flushed, EscapeXml;
      var l := 0;
      assert s[..0] == "";
      while l < |s|
        invariant l <= |s| && Holds(base, WithChars(k, s[..l]))
      {
        ghost var k1 := WithChars(k, s[..l]);
        CharsSnoc(k, s, l);
        if len + 5 >= WRITE_BUFSIZE {
          Flush(base, k1);
          FlushedPending(k1);
          k1 := Flushed(k1);
        }
        Keep(EscapeXml(s[l]), base, k1);
        l := l + 1;
      }
      assert s[..|s|] == s;
    }

    /** `nc_write_clb` without bytes: the end of the message. */
    method End(ghost base: string, ghost k: Sink)
      requires Holds(base, k)
      modifies this
      ensures Holds(base + Frames(version, Flushed(k).chunks) + Trailer(version), EMPTY)
    {
      Flush(base, k);
      FlushedPending(k);
      out := out + (if version.V11? then "\n##\n" else "]]>]]>");
    }
  }

  lemma FramesSnoc(v: Version, chunks: seq<string>, c: string)
    ensures Frames(v, chunks + [c]) == Frames(v, chunks) + Frame(v, c)
  {
    assert (chunks + [c])[..|chunks|] == chunks;
  }

  lemma FlushedPending(k: Sink)
    ensures Flushed(k).pending == ""
  {
  }

  lemma CharsSnoc(k: Sink, s: string, l: nat)
    requires l < |s|
    ensures WithChars(k, s[..l + 1]) == WithChar(WithChars(k, s[..l]), s[l])
  {
    assert s[..l + 1][..l] == s[..l];
  }

  /** The calls of a message, one after the other: what goes out are the bytes of the message. */
  method WriteMessage(w: Writer, calls: seq<Call>, ghost base: string)
    requires w.Holds(base, EMPTY)
    modifies w, w.buf
    ensures w.Holds(base + Transmitted(w.version, calls), EMPTY)
  {
    hide w.Holds, Written, Frames;
    var i := 0;
    assert calls[..0] == [];
    while i < |calls|
      invariant i <= |calls| && w.Holds(base, WrittenAll(EMPTY, calls[..i]))
    {
      assert calls[..i + 1][..i] == calls[..i];
      w.Write(calls[i], base, WrittenAll(EMPTY, calls[..i]));
      i := i + 1;
    }
    assert calls[..|calls|] == calls;
    w.End(base, WrittenAll(EMPTY, calls));
    Assoc(base, Frames(w.version, MessageChunks(calls)), Trailer(w.version));
  }

  /** A header with its terminating zero fits the 24 bytes reserved for it, for every 64-bit size. */
  lemma HeaderFits(n: nat)
    requires n < WORD
    ensures |ChunkHeader(n)| + 1 <= 24
  {
    assert Power10(5) == 100000;
    assert Power10(10) == 100000 * Power10(5);
    assert Power10(15) == 100000 * Power10(10);
    assert Power10(20) == 100000 * Power10(15);
    NumeralLength(n, 20);
  }
}
