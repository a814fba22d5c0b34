/** The reader of chunked messages in `io.c`, and what it makes of the writer's bytes. */
module Chunked {
  import opened CText
  import opened Numerals
  import opened EndTag
  import opened MessageEnd
  import opened Framing

  datatype Received = Failed | Malformed | Message(text: string, rest: string)

  /** The reader takes a read of such a size for a failure. */
  predicate LooksFailed(n: nat) {
    AsInt(n) == -1
  }

  function Append(got: Option<string>, chunk: string): string {
    (if got.Some? then got.value else "") + chunk
  }

  const HASH := "\n#"
  const NEWLINE := "\n"

  /** The loop of `nc_read_msg_io` for version 1.1; `got` is the message so far, if any chunk was read. */
  function ReadChunks(s: string, got: Option<string>): Received
    decreases |s|
  {
    match Until(s, HASH)
    case None => Failed
    case Some(a) =>
      if LooksFailed(a) then Failed else
      var s1 := s[a..];
      match Until(s1, NEWLINE)
      case None => Failed
      case Some(b) =>
        if LooksFailed(b) then Failed else
        var header, body := s1[..b], s1[b..];
        if header == "#\n" then
          if got.Some? then Message(got.value, body) else Malformed
        else
          var n := Strtoul(header);
          if n == 0 then Malformed
          else if n > |body| || LooksFailed(n) then Failed
          else ReadChunks(body[n..], Some(Append(got, body[..n])))
  }

  /** The framing part of `nc_read_msg_io` for version 1.1. */
  method ReadMessage11(wire: Wire) returns (r: Received)
    modifies wire
    ensures r == ReadChunks(old(wire.rest), None)
    ensures r.Message? ==> r.rest == wire.rest
  {
    hide Search, Strtoul, LooksFailed;
    var msg: Option<string> := None;
    while true
      invariant ReadChunks(old(wire.rest), None) == ReadChunks(wire.rest, msg)
      decreases |wire.rest|
    {
      ghost var s := wire.rest;
      var ret := ReadUntil(wire, HASH, 0);
      if ret == None || LooksFailed(|ret.value|) { return Failed; }
      ret := ReadUntil(wire, NEWLINE, 0);
      if ret == None || LooksFailed(|ret.value|) { return Failed; }
      if ret.value == "#\n" {
        if msg == None { return Malformed; }
        return Message(msg.value, wire.rest);
      }
      var chunkLen := Strtoul(ret.value);
      if chunkLen == 0 { return Malformed; }
      var chunk := wire.Take(chunkLen);
      if chunk == None || LooksFailed(chunkLen) { return Failed; }
      msg := Some(Append(msg, chunk.value));
    }
  }

  // ----- the two searches of a header -----

  lemma UntilHash(s: string)
    requires |s| >= 2 && s[0] == '\n' && s[1] == '#'
    ensures Until(s, HASH) == Some(2)
  {
    assert s[0..2] == HASH[0..];
  }

  lemma {:induction false} SearchNewline(s: string, n: nat, count: nat)
    requires count <= n < |s| && s[n] == '\n' && forall i :: count <= i < n ==> s[i] != '\n'
    ensures Search(s, NEWLINE, count, 0, 0) == Some(n + 1)
    decreases n - count
  {
    assert s[count..count + 1] == [s[count]] && NEWLINE[0..] == ['\n'];
    if count < n { SearchNewline(s, n, count + 1); }
  }

  /** A header and its chunk are read whole, and the reader goes on behind them. */
  lemma ReadOneChunk(c: string, tail: string, got: Option<string>)
    requires c != "" && |c| < WORD
    ensures ReadChunks(ChunkHeader(|c|) + c + tail, got)
         == if LooksFailed(|c|) then Failed else ReadChunks(tail, Some(Append(got, c)))
  {
    var num := Numeral(|c|);
    var s := ChunkHeader(|c|) + c + tail;
    var s1 := num + "\n" + (c + tail);
    assert s == HASH + s1;
    UntilHash(s);
    assert s[2..] == s1;
    NumeralThenNewline(num, c + tail);
    var b := |num| + 1;
    assert s1[..b] == num + "\n" && s1[b..] == c + tail;
    assert (num + "\n")[0] == num[0];
    StrtoulOfNumeral(|c|, "\n");
    assert (c + tail)[..|c|] == c && (c + tail)[|c|..] == tail;
    SmallSizes(2, b, |c|);
    hide Until, Strtoul, LooksFailed;
  }

  lemma NumeralThenNewline(num: string, tail: string)
    requires AllDigits(num)
    ensures Until(num + "\n" + tail, NEWLINE) == Some(|num| + 1)
  {
    var s := num + "\n" + tail;
    assert forall i :: 0 <= i < |num| ==> s[i] == num[i] && IsDigit(num[i]);
    SearchNewline(s, |num|, 0);
  }

  lemma SmallSizes(a: nat, b: nat, n: nat)
    requires a == 2 && b == |Numeral(n)| + 1 && n < WORD
    ensures !LooksFailed(a) && !LooksFailed(b)
  {
    HeaderFits(n);
  }

  // ----- round trip -----

  lemma {:induction false} FramesFront(c: string, cs: seq<string>)
    ensures Frames(V11, [c] + cs) == Frame(V11, c) + Frames(V11, cs)
    decreases |cs|
  {
    hide Frame;
    if cs == [] {
      FramesSnoc(V11, [], c);
      assert [c] + cs == [] + [c];
    } else {
      var n := |cs| - 1;
      FramesFront(c, cs[..n]);
      assert [c] + cs == ([c] + cs[..n]) + [cs[n]];
      FramesSnoc(V11, [c] + cs[..n], cs[n]);
    }
  }

  lemma {:induction false} ConcatFront(c: string, cs: seq<string>)
    ensures Concat([c] + cs) == c + Concat(cs)
    decreases |cs|
  {
    if cs == [] {
      ConcatSnoc([], c);
      assert [c] + cs == [] + [c];
    } else {
      var n := |cs| - 1;
      ConcatFront(c, cs[..n]);
      assert [c] + cs == ([c] + cs[..n]) + [cs[n]];
      ConcatSnoc([c] + cs[..n], cs[n]);
    }
  }

  predicate ChunksOk(chunks: seq<string>) {
    forall i :: 0 <= i < |chunks| ==> chunks[i] != "" && |chunks[i]| < WORD
  }

  predicate NoneLooksFailed(chunks: seq<string>) {
    forall i :: 0 <= i < |chunks| ==> !LooksFailed(|chunks[i]|)
  }

  lemma ReadTrailer(rest: string, got: Option<string>)
    ensures ReadChunks("\n##\n" + rest, got) == if got.Some? then Message(got.value, rest) else Malformed
  {
    var s := "\n##\n" + rest;
    UntilHash(s);
    assert s[2..] == "#\n" + rest;
    SearchNewline("#\n" + rest, 1, 0);
    hide Until, Strtoul;
  }

  /** What the reader makes of any sequence of chunks. */
  lemma {:induction false} ReadFrames(chunks: seq<string>, rest: string, got: Option<string>)
    requires ChunksOk(chunks)
    ensures ReadChunks(Frames(V11, chunks) + ("\n##\n" + rest), got) ==
      if !NoneLooksFailed(chunks) then Failed
      else if chunks == [] && got.None? then Malformed
      else Message(Append(got, Concat(chunks)), rest)
    decreases |chunks|
  {
    hide ReadChunks, Frames, Concat, ChunkHeader, LooksFailed;
    var trailer := "\n##\n" + rest;
    if chunks == [] {
      NoFrames();
      assert "" + trailer == trailer;
      ReadTrailer(rest, got);
    } else {
      var c, cs := chunks[0], chunks[1..];
      assert chunks == [c] + cs;
      FramesFront(c, cs);
      ConcatFront(c, cs);
      assert Frames(V11, chunks) + trailer == ChunkHeader(|c|) + c + (Frames(V11, cs) + trailer);
      ReadOneChunk(c, Frames(V11, cs) + trailer, got);
      ReadFrames(cs, rest, Some(Append(got, c)));
      NoneLooksFailedSplit(c, cs);
      Assoc(if got.Some? then got.value else "", c, Concat(cs));
    }
  }

  lemma NoFrames()
    ensures Frames(V11, []) == "" && Concat([]) == ""
  {
  }

  lemma NoneLooksFailedSplit(c: string, cs: seq<string>)
    ensures NoneLooksFailed([c] + cs) <==> !LooksFailed(|c|) && NoneLooksFailed(cs)
  {
    hide LooksFailed;
    var all := [c] + cs;
    if NoneLooksFailed(all) {
      assert !LooksFailed(|all[0]|);
      forall i | 0 <= i < |cs| ensures !LooksFailed(|cs[i]|) { assert all[i + 1] == cs[i]; }
    }
  }

  // ----- sizes of calls and sizes of chunks -----

  predicate FitsWord(n: nat) {
    n < WORD
  }

  predicate LooksRead(n: nat) {
    !LooksFailed(n)
  }

  predicate BelowUint32(n: nat) {
    n < 0xFFFF_FFFF
  }

  predicate CallSizes(calls: seq<Call>, p: nat -> bool) {
    forall i :: 0 <= i < |calls| && calls[i].Raw? ==> p(|calls[i].bytes|)
  }

  predicate ChunkSizes(chunks: seq<string>, p: nat -> bool) {
    forall i :: 0 <= i < |chunks| ==> p(|chunks[i]|)
  }

  ghost predicate HoldsForBuffer(p: nat -> bool) {
    forall n :: 0 <= n <= WRITE_BUFSIZE ==> p(n)
  }

  lemma ChunkSizesSnoc(chunks: seq<string>, c: string, p: nat -> bool)
    ensures ChunkSizes(chunks + [c], p) <==> ChunkSizes(chunks, p) && p(|c|)
  {
    var all := chunks + [c];
    if ChunkSizes(all, p) {
      forall i | 0 <= i < |chunks| ensures p(|chunks[i]|) { assert all[i] == chunks[i]; }
      assert all[|chunks|] == c;
    }
  }

  lemma FlushedSizes(k: Sink, p: nat -> bool)
    requires SinkOk(k) && HoldsForBuffer(p)
    ensures ChunkSizes(Flushed(k).chunks, p) <==> ChunkSizes(k.chunks, p)
  {
    hide ChunkSizes;
    ChunkSizesSnoc(k.chunks, k.pending, p);
  }

  lemma {:induction false} CharsSizes(k: Sink, s: string, p: nat -> bool)
    requires SinkOk(k) && HoldsForBuffer(p)
    ensures ChunkSizes(WithChars(k, s).chunks, p) <==> ChunkSizes(k.chunks, p)
  {
    hide ChunkSizes, HoldsForBuffer, SinkOk, EscapeXml, Flushed;
    if s != "" {
      CharsSizes(k, s[..|s| - 1], p);
      WithCharsKeeps(k, s[..|s| - 1]);
      FlushedSizes(WithChars(k, s[..|s| - 1]), p);
    }
  }

  lemma WrittenSizes(k: Sink, call: Call, p: nat -> bool)
    requires SinkOk(k) && HoldsForBuffer(p)
    ensures ChunkSizes(Written(k, call).chunks, p) <==> ChunkSizes(k.chunks, p) && (call.Raw? ==> p(|call.bytes|))
  {
    hide ChunkSizes, SinkOk, Flushed, WithChars;
    FlushedSizes(k, p);
    match call
    case Raw(s) =>
      ChunkSizesSnoc(MakeRoom(k, |s|).chunks, s, p);
    case Xml(s) =>
      MakeRoomKeeps(k, |s|);
      CharsSizes(MakeRoom(k, |s|), s, p);
  }

  /** A property of sizes that all buffer sizes have holds of all chunks exactly when it holds of all raw calls. */
  lemma {:induction false} SizesAgree(k: Sink, calls: seq<Call>, p: nat -> bool)
    requires SinkOk(k) && HoldsForBuffer(p)
    ensures ChunkSizes(WrittenAll(k, calls).chunks, p) <==> ChunkSizes(k.chunks, p) && CallSizes(calls, p)
  {
    hide ChunkSizes, SinkOk, Written, HoldsForBuffer;
    if calls != [] {
      var n := |calls| - 1;
      SizesAgree(k, calls[..n], p);
      WrittenAllKeeps(k, calls[..n]);
      WrittenSizes(WrittenAll(k, calls[..n]), calls[n], p);
      CallSizesSnoc(calls, p);
    }
  }

  lemma CallSizesSnoc(calls: seq<Call>, p: nat -> bool)
    requires calls != []
    ensures var n := |calls| - 1;
      CallSizes(calls, p) <==> CallSizes(calls[..n], p) && (calls[n].Raw? ==> p(|calls[n].bytes|))
  {
    var n := |calls| - 1;
    if CallSizes(calls, p) {
      forall i | 0 <= i < n && calls[..n][i].Raw? ensures p(|calls[..n][i].bytes|) { assert calls[..n][i] == calls[i]; }
    }
    if CallSizes(calls[..n], p) && (calls[n].Raw? ==> p(|calls[n].bytes|)) {
      forall i | 0 <= i < |calls| && calls[i].Raw? ensures p(|calls[i].bytes|) {
        if i < n { assert calls[..n][i] == calls[i]; }
      }
    }
  }

  lemma MessageSizes(calls: seq<Call>, p: nat -> bool)
    requires HoldsForBuffer(p)
    ensures ChunkSizes(MessageChunks(calls), p) <==> CallSizes(calls, p)
  {
    hide HoldsForBuffer, SinkOk;
    assert SinkOk(EMPTY) by { EmptySinkOk(); }
    SizesAgree(EMPTY, calls, p);
    WrittenAllKeeps(EMPTY, calls);
    FlushedSizes(WrittenAll(EMPTY, calls), p);
  }

  lemma EmptySinkOk()
    ensures SinkOk(EMPTY)
  {
  }

  /** Chunked framing round trip: for every sequence of calls and whatever follows, the reader gets exactly
      what the calls wrote and leaves what follows, if and only if the message is not empty and no raw call
      has a size that the reader takes for a failure. */
  lemma RoundTripIff(calls: seq<Call>, rest: string)
    requires CallSizes(calls, FitsWord)
    ensures ReadChunks(Transmitted(V11, calls) + rest, None) == Message(Payloads(calls), rest)
       <==> Payloads(calls) != "" && CallSizes(calls, LooksRead)
  {
    hide ReadChunks, Frames, Payloads, CallSizes, MessageChunks, LooksFailed, Concat;
    var chunks := MessageChunks(calls);
    ChunksHoldPayload(calls);
    BufferSizesFine();
    MessageSizes(calls, FitsWord);
    MessageSizes(calls, LooksRead);
    assert ChunkSizes(chunks, LooksRead) <==> NoneLooksFailed(chunks);
    ReadFrames(chunks, rest, None);
    Assoc(Frames(V11, chunks), "\n##\n", rest);
    EmptyConcat(chunks);
  }

  lemma BufferSizesFine()
    ensures HoldsForBuffer(FitsWord) && HoldsForBuffer(LooksRead)
  {
  }

  lemma EmptyConcat(chunks: seq<string>)
    requires forall i :: 0 <= i < |chunks| ==> chunks[i] != ""
    ensures Concat(chunks) == "" <==> chunks == []
  {
  }

  /** In particular for every message that is not empty and whose raw calls are smaller than 2^32 - 1 bytes. */
  lemma RoundTrip(calls: seq<Call>, rest: string)
    requires Payloads(calls) != "" && CallSizes(calls, BelowUint32)
    ensures ReadChunks(Transmitted(V11, calls) + rest, None) == Message(Payloads(calls), rest)
  {
    hide ReadChunks, Transmitted, Payloads;
    assert forall n :: BelowUint32(n) ==> FitsWord(n) && LooksRead(n);
    RoundTripIff(calls, rest);
  }

  // ----- version 1.0 -----

  /** The framing part of `nc_read_msg_io` for version 1.0. */
  function ReadMessage10(s: string): Received {
    match Until(s, EOM)
    case None => Failed
    case Some(n) => Message(s[..n - 6], s[n..])
  }

  method ReadText10(wire: Wire) returns (r: Received)
    requires |wire.rest| < 0x8000_0000
    modifies wire
    ensures r == ReadMessage10(old(wire.rest))
    ensures r.Message? ==> r.rest == wire.rest
  {
    hide Search;
    var ret := ReadUntil(wire, EOM, 0);
    if ret == None || LooksFailed(|ret.value|) { return Failed; }
    r := Message(ret.value[..|ret.value| - 6], wire.rest);
  }

  lemma {:induction false} Frames10(chunks: seq<string>)
    ensures Frames(V10, chunks) == Concat(chunks)
  {
    if chunks != [] { Frames10(chunks[..|chunks| - 1]); }
  }

  /** The same for version 1.0: exact if and only if the message is separable, for messages without "]]>". */
  lemma RoundTrip10Iff(calls: seq<Call>, rest: string)
    requires Clean(Payloads(calls), |Payloads(calls)|)
    ensures ReadMessage10(Transmitted(V10, calls) + rest) == Message(Payloads(calls), rest)
       <==> Separable(Payloads(calls), |Payloads(calls)|)
  {
    hide Until, Separable, Clean, Payloads, MessageChunks, Frames;
    var m := Payloads(calls);
    ChunksHoldPayload(calls);
    Frames10(MessageChunks(calls));
    ExactIff(m, rest);
    var s := m + EOM + rest;
    assert Transmitted(V10, calls) + rest == s;
    assert s[..|m|] == m && s[|m| + 6..] == rest;
    match Until(s, EOM)
    case Some(n) => assert |s[..n - 6]| == n - 6;
    case None =>
  }
}
