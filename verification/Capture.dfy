/** The bounded capture of what an invocation prints. */
module Capture {
  import opened Prelude
  import opened Utf8
  import opened Chunking

  datatype LogStream = Stdout | Stderr

  datatype Chunk = Chunk(stream: LogStream, content: string, at: int)

  datatype LogChunk = LogChunk(sequence: nat, stream: LogStream, content: string, at: int)

  /** Text offered to an enabled stream while the capture is open. */
  datatype Write = Write(stream: LogStream, value: string)

  // ---------------------------------------------------------------- what is captured, as a fold over the writes

  /** Text with the stream of every character. */
  type Tagged = seq<(LogStream, char)>

  function Tag(stream: LogStream, value: string): Tagged {
    seq(|value|, i requires 0 <= i < |value| => (stream, value[i]))
  }

  /** Captured text, its size in bytes, and whether anything was cut. */
  datatype Captured = Captured(content: Tagged, bytes: nat, truncated: bool)

  /** What one write contributes within the budget. */
  function Taken(maxBytes: int, before: Captured, w: Write): string {
    Fitting(w.value, maxBytes - before.bytes)
  }

  function Offer(maxBytes: int, before: Captured, w: Write): Captured {
    var taken := Taken(maxBytes, before, w);
    Captured(before.content + Tag(w.stream, taken), before.bytes + Size(taken), before.truncated || taken != w.value)
  }

  function OfferAll(maxBytes: int, writes: seq<Write>): Captured {
    if writes == [] then Captured([], 0, false)
    else Offer(maxBytes, OfferAll(maxBytes, writes[..|writes| - 1]), writes[|writes| - 1])
  }

  function TagAll(writes: seq<Write>): Tagged {
    if writes == [] then [] else TagAll(writes[..|writes| - 1]) + Tag(writes[|writes| - 1].stream, writes[|writes| - 1].value)
  }

  function TextOf(content: Tagged): string {
    seq(|content|, i requires 0 <= i < |content| => content[i].1)
  }

  lemma TagJoin(stream: LogStream, a: string, b: string)
    ensures Tag(stream, a + b) == Tag(stream, a) + Tag(stream, b)
  {
  }

  /** The byte count is exact, within the budget, and a cut leaves less than one character unused. */
  predicate WithinBudget(maxBytes: int, c: Captured) {
    && c.bytes == Size(TextOf(c.content))
    && (c.bytes <= maxBytes || c.bytes == 0)
    && (c.truncated ==> c.bytes + 4 > maxBytes)
  }

  lemma OfferKeepsBudget(maxBytes: int, before: Captured, w: Write)
    requires WithinBudget(maxBytes, before)
    ensures WithinBudget(maxBytes, Offer(maxBytes, before, w))
  {
    hide Fitting, FitLength, Tag, TextOf, Size, Width;
    var taken := Taken(maxBytes, before, w);
    TextOfTag(before.content, w.stream, taken);
    SizeJoin(TextOf(before.content), taken);
    SizeOfNothing();
    FittingIsWhole(w.value, maxBytes - before.bytes);
    if maxBytes >= before.bytes {
      FittingIsLongest(w.value, maxBytes - before.bytes);
    }
  }

  lemma TextOfTag(content: Tagged, stream: LogStream, value: string)
    ensures TextOf(content + Tag(stream, value)) == TextOf(content) + value
  {
  }

  /** The budget holds after any writes. */
  lemma {:induction false} BudgetHolds(maxBytes: int, writes: seq<Write>)
    ensures WithinBudget(maxBytes, OfferAll(maxBytes, writes))
  {
    if writes != [] {
      BudgetHolds(maxBytes, writes[..|writes| - 1]);
      OfferKeepsBudget(maxBytes, OfferAll(maxBytes, writes[..|writes| - 1]), writes[|writes| - 1]);
    }
  }

  /** Nothing is reported as truncated exactly when everything offered was captured, in order. */
  lemma {:induction false} TruncatedExactly(maxBytes: int, writes: seq<Write>)
    ensures |OfferAll(maxBytes, writes).content| <= |TagAll(writes)|
    ensures !OfferAll(maxBytes, writes).truncated <==> OfferAll(maxBytes, writes).content == TagAll(writes)
  {
    if writes != [] {
      var rest := writes[..|writes| - 1];
      TruncatedExactly(maxBytes, rest);
      var before := OfferAll(maxBytes, rest);
      var w := writes[|writes| - 1];
      var taken := Taken(maxBytes, before, w);
      if before.content + Tag(w.stream, taken) == TagAll(rest) + Tag(w.stream, w.value) {
        assert |taken| == |w.value| && taken == w.value;
        assert before.content == (before.content + Tag(w.stream, taken))[..|before.content|];
        assert TagAll(rest) == (TagAll(rest) + Tag(w.stream, w.value))[..|TagAll(rest)|];
      }
    }
  }

  /** Nothing is truncated exactly when everything offered fits the budget. */
  lemma {:induction false} FitsExactly(maxBytes: int, writes: seq<Write>)
    ensures !OfferAll(maxBytes, writes).truncated <==> Size(TextOf(TagAll(writes))) <= maxBytes || TagAll(writes) == []
  {
    hide Fitting, Size, TagAll, TextOf;
    if writes == [] {
      assert TagAll(writes) == [] by { NothingTagged(); }
    } else {
      var rest, w := writes[..|writes| - 1], writes[|writes| - 1];
      FitsExactly(maxBytes, rest);
      BudgetHolds(maxBytes, rest);
      TruncatedExactly(maxBytes, rest);
      FittingIsWhole(w.value, maxBytes - OfferAll(maxBytes, rest).bytes);
      TotalSize(rest, w);
      assert writes == rest + [w];
    }
  }

  lemma NothingTagged()
    ensures TagAll([]) == []
  {
  }

  lemma TotalSize(rest: seq<Write>, w: Write)
    ensures Size(TextOf(TagAll(rest + [w]))) == Size(TextOf(TagAll(rest))) + Size(w.value)
    ensures TagAll(rest + [w]) == [] <==> TagAll(rest) == [] && w.value == ""
    ensures TagAll(rest) == [] <==> Size(TextOf(TagAll(rest))) == 0
    ensures w.value == "" <==> Size(w.value) == 0
  {
    assert (rest + [w])[..|rest|] == rest;
    assert TextOf(TagAll(rest) + Tag(w.stream, w.value)) == TextOf(TagAll(rest)) + w.value;
    SizeJoin(TextOf(TagAll(rest)), w.value);
  }

  /** A later short write can still fit after a wider character was cut, so the capture is no prefix of the output. */
  lemma CaptureNeedNotBeAPrefix()
    ensures var writes := [Write(Stdout, "a\U{E9}"), Write(Stdout, "b")];
      && TextOf(OfferAll(2, writes).content) == "ab"
      && TextOf(TagAll(writes)) == "a\U{E9}b"
  {
    var first, second := Write(Stdout, "a\U{E9}"), Write(Stdout, "b");
    var writes := [first, second];
    assert writes[..1] == [first] && [first][..0] == [];
    assert "a\U{E9}"[1..] == "\U{E9}" && "b"[1..] == "";
    assert OfferAll(2, []) == Captured([], 0, false);
    assert FitLength("\U{E9}", 1) == 0 && FitLength("a\U{E9}", 2) == 1;
    assert Taken(2, OfferAll(2, []), first) == "a" && Size("a") == 1;
    assert OfferAll(2, [first]).bytes == 1;
    assert FitLength("", 0) == 0 && FitLength("b", 1) == 1;
    assert Taken(2, OfferAll(2, [first]), second) == "b";
  }

  // ---------------------------------------------------------------- chunks

  function Flatten(chunks: seq<Chunk>): Tagged {
    if chunks == [] then []
    else Flatten(chunks[..|chunks| - 1]) + Tag(chunks[|chunks| - 1].stream, chunks[|chunks| - 1].content)
  }

  lemma FlattenAppend(chunks: seq<Chunk>, c: Chunk)
    ensures Flatten(chunks + [c]) == Flatten(chunks) + Tag(c.stream, c.content)
  {
    assert (chunks + [c])[..|chunks|] == chunks;
  }

  /** A newline ends its chunk; a chunk that no newline ends is bounded. */
  predicate ChunkOk(content: string, chunkBytes: int) {
    && content != ""
    && (forall i | 0 <= i < |content| - 1 :: content[i] != '\n')
    && (content[|content| - 1] != '\n' ==> Size(content) <= Larger(chunkBytes, 4))
  }

  function FirstNewline(value: string): (i: nat)
    requires '\n' in value
    ensures i < |value| && value[i] == '\n' && '\n' !in value[..i]
  {
    if value[0] == '\n' then 0
    else
      assert '\n' in value[1..];
      var i := FirstNewline(value[1..]);
      assert value[..i + 1] == [value[0]] + value[1..][..i];
      i + 1
  }

  lemma LineIsChunk(value: string, i: nat, chunkBytes: int)
    requires i < |value| && value[i] == '\n' && '\n' !in value[..i]
    ensures ChunkOk(value[..i + 1], chunkBytes) && value[..i + 1] + value[i + 1..] == value
  {
    assert value[..i + 1] == value[..i] + ['\n'];
    assert forall k | 0 <= k < i :: value[..i][k] in value[..i];
  }

  lemma LineIsDue(value: string, i: nat, limit: int)
    requires i < |value| && value[i] == '\n' && '\n' !in value[..i]
    ensures IsLine(value[..i + 1]) && CutInto(value, limit, [value[..i + 1]], value[i + 1..])
  {
    hide IsFull;
    var line := value[..i + 1];
    assert line[..|line| - 1] == value[..i];
    OnePart(line, value[i + 1..], limit);
    assert line + value[i + 1..] == value;
  }

  lemma SplitIsDue(value: string, part: string, remainder: string, limit: int)
    requires limit >= 1 && '\n' !in value && Size(value) >= limit && (part, remainder) == SplitUtf8(value, limit)
    ensures CutInto(value, limit, [part], remainder)
  {
    hide SplitUtf8, Size, Width, IsLine;
    SizeOfNothing();
    SplitMakesProgress(value, limit);
    PartsHaveNoNewline(value, part, remainder);
    assert remainder == "" ==> part + "" == part == value;
    if |part| == 1 && Size(part) > limit { assert IsFull(part, remainder, limit); }
    OnePart(part, remainder, limit);
  }

  lemma SmallIsChunk(value: string, chunkBytes: int)
    requires value != "" && '\n' !in value
    requires Size(value) <= chunkBytes || |value| == 1
    ensures ChunkOk(value, chunkBytes)
  {
    if |value| == 1 {
      assert value[1..] == "";
      assert Size(value) == Width(value[0]);
    }
  }

  lemma WaitingIsChunk(value: string, chunkBytes: int)
    requires Waits(value, chunkBytes)
    ensures value != "" ==> ChunkOk(value, chunkBytes)
    ensures chunkBytes >= 1 ==> Waits("", chunkBytes)
  {
    if value != "" { SmallIsChunk(value, chunkBytes); }
  }

  /** The chunks of a buffer and the text that waits, with its stream and time. */
  datatype Buffered = Buffered(chunks: seq<Chunk>, stream: Option<LogStream>, content: string, at: Option<int>)

  function AsChunks(stream: LogStream, parts: seq<string>, at: int): seq<Chunk> {
    seq(|parts|, i requires 0 <= i < |parts| => Chunk(stream, parts[i], at))
  }

  /** The chunk that text of the other stream becomes when this stream writes. */
  function Interrupted(b: Buffered, stream: LogStream): seq<Chunk> {
    if b.stream == Some(stream) then [] else Flushed(b)
  }

  /** The chunk that waiting text becomes when it is flushed. */
  function Flushed(b: Buffered): seq<Chunk> {
    if b.stream.Some? && b.content != "" && b.at.Some? then [Chunk(b.stream.value, b.content, b.at.value)] else []
  }

  /** The text that waits for more of this stream. */
  function Waiting(b: Buffered, stream: LogStream): string {
    if b.stream == Some(stream) then b.content else ""
  }

  /** What is written goes behind the waiting text of its stream; all parts that are due become chunks of that time. */
  ghost predicate Written(limit: int, b: Buffered, stream: LogStream, text: string, at: int, after: Buffered) {
    && after.stream == Some(stream) && after.at == (if after.content == "" then None else Some(at))
    && exists parts ::
         && IsChunking(Waiting(b, stream) + text, limit, parts, after.content)
         && after.chunks == b.chunks + Interrupted(b, stream) + AsChunks(stream, parts, at)
  }

  /** Lines first, then what is too long. */
  lemma WrittenInParts(limit: int, b: Buffered, stream: LogStream, text: string, at: int,
    lines: seq<string>, middle: string, parts: seq<string>, after: Buffered)
    requires after.stream == Some(stream) && after.at == if after.content == "" then None else Some(at)
    requires CutInto(Waiting(b, stream) + text, limit, lines, middle) && IsChunking(middle, limit, parts, after.content)
    requires after.chunks == b.chunks + Interrupted(b, stream) + AsChunks(stream, lines, at) + AsChunks(stream, parts, at)
    ensures Written(limit, b, stream, text, at, after)
  {
    hide CutInto, Waits, Interrupted;
    CutMore(Waiting(b, stream) + text, limit, lines, middle, parts, after.content);
    assert AsChunks(stream, lines, at) + AsChunks(stream, parts, at) == AsChunks(stream, lines + parts, at);
    assert IsChunking(Waiting(b, stream) + text, limit, lines + parts, after.content);
  }

  /** One write leaves one state. */
  lemma WrittenIsUnique(limit: int, b: Buffered, stream: LogStream, text: string, at: int, x: Buffered, y: Buffered)
    requires Written(limit, b, stream, text, at, x) && Written(limit, b, stream, text, at, y)
    ensures x == y
  {
    hide IsChunking;
    var whole := Waiting(b, stream) + text;
    var parts :| IsChunking(whole, limit, parts, x.content)
      && x.chunks == b.chunks + Interrupted(b, stream) + AsChunks(stream, parts, at);
    var others :| IsChunking(whole, limit, others, y.content)
      && y.chunks == b.chunks + Interrupted(b, stream) + AsChunks(stream, others, at);
    ChunkingIsUnique(whole, limit, parts, x.content, others, y.content);
  }

  /** The parts that a write completes are the chunks behind the first k, of its stream and time. */
  ghost predicate Completes(limit: int, text: string, stream: LogStream, at: int, k: nat, after: Buffered) {
    exists parts ::
      && IsChunking(text, limit, parts, after.content) && |after.chunks| == k + |parts|
      && forall i | 0 <= i < |parts| :: after.chunks[k + i] == Chunk(stream, parts[i], at)
  }

  /** A write of the stream that waits goes on with its text. */
  lemma SameStreamJoins(limit: int, b: Buffered, stream: LogStream, text: string, at: int, after: Buffered)
    requires Written(limit, b, stream, text, at, after) && b.stream == Some(stream)
    ensures b.chunks <= after.chunks && Completes(limit, b.content + text, stream, at, |b.chunks|, after)
  {
    hide IsChunking;
    var parts :| IsChunking(b.content + text, limit, parts, after.content)
      && after.chunks == b.chunks + Interrupted(b, stream) + AsChunks(stream, parts, at);
    assert after.chunks == b.chunks + AsChunks(stream, parts, at);
  }

  /** A write of the other stream makes the text that waits a chunk, however short, and starts afresh. */
  lemma OtherStreamCuts(limit: int, b: Buffered, stream: LogStream, text: string, at: int, after: Buffered)
    requires Written(limit, b, stream, text, at, after) && b.stream.Some? && b.stream != Some(stream)
    requires b.content != "" && b.at.Some?
    ensures b.chunks + [Chunk(b.stream.value, b.content, b.at.value)] <= after.chunks
    ensures Completes(limit, text, stream, at, |b.chunks| + 1, after)
  {
    hide IsChunking;
    assert "" + text == text;
    var parts :| IsChunking(text, limit, parts, after.content)
      && after.chunks == b.chunks + Interrupted(b, stream) + AsChunks(stream, parts, at);
  }

  /** Short text without a newline makes no chunk: it joins the text that waits. */
  lemma ShortWriteWaits(limit: int, b: Buffered, stream: LogStream, text: string, at: int, after: Buffered)
    requires Written(limit, b, stream, text, at, after) && Waits(Waiting(b, stream) + text, limit)
    ensures after.chunks == b.chunks + Interrupted(b, stream) && after.content == Waiting(b, stream) + text
  {
    hide IsChunking;
    var whole := Waiting(b, stream) + text;
    var parts :| IsChunking(whole, limit, parts, after.content)
      && after.chunks == b.chunks + Interrupted(b, stream) + AsChunks(stream, parts, at);
    ShortTextWaits(whole, limit, parts, after.content);
  }

  // ---------------------------------------------------------------- the buffer

  class CaptureBuffer {
    const maxBytes: int
    const chunkBytes: int
    const captureStderr: bool
    var chunks: seq<Chunk>
    var pendingStream: Option<LogStream>
    var pendingContent: string
    var pendingAt: Option<int>
    var bytes: nat
    var truncated: bool
    var closed: bool
    /** Every text offered so far. */
    ghost var offered: seq<Write>

    constructor (maxBytes: int, chunkBytes: int, captureStderr: bool)
      requires chunkBytes >= 1
      ensures Valid() && Settled() && offered == [] && !closed && chunks == []
      ensures this.maxBytes == maxBytes && this.chunkBytes == chunkBytes && this.captureStderr == captureStderr
    {
      this.maxBytes, this.chunkBytes, this.captureStderr := maxBytes, chunkBytes, captureStderr;
      chunks, pendingStream, pendingContent, pendingAt := [], None, "", None;
      bytes, truncated, closed := 0, false, false;
      offered := [];
    }

    /** All text that the buffer holds, in order. */
    ghost function Text(): Tagged
      reads this
    {
      Flatten(chunks) + if pendingStream.Some? then Tag(pendingStream.value, pendingContent) else []
    }

    ghost function View(): Buffered
      reads this
    {
      Buffered(chunks, pendingStream, pendingContent, if pendingContent == "" then None else pendingAt)
    }

    ghost predicate ChunksOk()
      reads this
    {
      && chunkBytes >= 1
      && (forall c | c in chunks :: ChunkOk(c.content, chunkBytes))
      && (pendingStream.None? ==> pendingContent == "")
      && (pendingContent != "" ==> pendingAt.Some?)
    }

    /** The pending text is part of one line and below the chunk size. */
    ghost predicate Settled()
      reads this
    {
      Waits(pendingContent, chunkBytes)
    }

    /** The buffer holds exactly what the fold over the offered writes holds. */
    ghost predicate Valid()
      reads this
    {
      && ChunksOk() && Settled()
      && OfferAll(maxBytes, offered) == Captured(Text(), bytes, truncated)
    }

    method FlushPending(now: int)
      requires ChunksOk() && (pendingContent != "" ==> ChunkOk(pendingContent, chunkBytes))
      modifies this`chunks, this`pendingStream, this`pendingContent, this`pendingAt
      ensures ChunksOk() && Text() == old(Text())
      ensures pendingStream == None && pendingContent == "" && pendingAt == None
      ensures chunks == old(chunks) + old(Flushed(View()))
    {
      if pendingContent == "" || pendingStream.None? {
        pendingStream, pendingContent, pendingAt := None, "", None;
        return;
      }
      var chunk := Chunk(pendingStream.value, pendingContent, if pendingAt.Some? then pendingAt.value else now);
      FlattenAppend(chunks, chunk);
      chunks := chunks + [chunk];
      pendingStream, pendingContent, pendingAt := None, "", None;
    }

    /** Makes the stream the pending one; text pending for the other stream becomes a chunk. */
    method SwitchTo(stream: LogStream, now: int)
      requires ChunksOk() && Settled()
      modifies this`chunks, this`pendingStream, this`pendingContent, this`pendingAt
      ensures ChunksOk() && Settled() && pendingStream == Some(stream)
      ensures Text() == old(Text())
      ensures chunks == old(chunks) + Interrupted(old(View()), stream) && pendingContent == Waiting(old(View()), stream)
    {
      if pendingStream.Some? && pendingStream.value != stream {
        if pendingContent != "" { SmallIsChunk(pendingContent, chunkBytes); }
        FlushPending(now);
      }
      if pendingStream.None? {
        pendingStream := Some(stream);
        assert Tag(stream, "") == [];
      }
    }

    /** Chunks completed by a write carry its time, as does what is left pending; interrupted text keeps its own. */
    method Append(stream: LogStream, value: string, at: int, now: int)
      requires ChunksOk() && Settled()
      modifies this`chunks, this`pendingStream, this`pendingContent, this`pendingAt
      ensures ChunksOk() && Settled()
      ensures Text() == old(Text()) + Tag(stream, value)
      ensures Written(chunkBytes, old(View()), stream, value, at, View())
    {
      hide Flatten, Tag, ChunkOk, Size, CutInto, AsChunks, Written, Interrupted;
      SwitchTo(stream, now);
      TagJoin(stream, pendingContent, value);
      pendingContent := pendingContent + value;
      pendingAt := Some(at);
      ghost var whole := pendingContent;
      ghost var lines := SplitLines(stream, at, now);
      ghost var middle := pendingContent;
      ghost var parts := SplitBySize(stream, at, now);
      WrittenInParts(chunkBytes, old(View()), stream, value, at, lines, middle, parts, View());
    }

    /** Every completed line becomes a chunk. */
    method SplitLines(stream: LogStream, at: int, now: int) returns (ghost lines: seq<string>)
      requires ChunksOk() && pendingStream == Some(stream) && pendingAt == Some(at)
      modifies this`chunks, this`pendingStream, this`pendingContent, this`pendingAt
      ensures ChunksOk() && '\n' !in pendingContent && pendingStream == Some(stream)
      ensures Text() == old(Text()) && (pendingContent != "" ==> pendingAt == Some(at))
      ensures CutInto(old(pendingContent), chunkBytes, lines, pendingContent) && forall l | l in lines :: IsLine(l)
      ensures chunks == old(chunks) + AsChunks(stream, lines, at)
    {
      hide Due, Join, CutInto, IsLine, Tag, Flatten, ChunkOk;
      lines := [];
      NoParts(pendingContent, chunkBytes, pendingContent);
      while '\n' in pendingContent
        invariant ChunksOk() && pendingStream == Some(stream) && (pendingContent != "" ==> pendingAt == Some(at))
        invariant Text() == old(Text())
        invariant CutInto(old(pendingContent), chunkBytes, lines, pendingContent) && forall l | l in lines :: IsLine(l)
        invariant chunks == old(chunks) + AsChunks(stream, lines, at)
        decreases |pendingContent|
      {
        var i := FirstNewline(pendingContent);
        ghost var line, rest := pendingContent[..i + 1], pendingContent[i + 1..];
        LineIsChunk(pendingContent, i, chunkBytes);
        TagJoin(stream, line, rest);
        LineIsDue(pendingContent, i, chunkBytes);
        CutMore(old(pendingContent), chunkBytes, lines, pendingContent, [line], rest);
        CutAndFlush(stream, pendingContent[..i + 1], pendingContent[i + 1..], at, now);
        lines := lines + [line];
      }
    }

    /** Text that outgrows a chunk is split at character boundaries. */
    method SplitBySize(stream: LogStream, at: int, now: int) returns (ghost parts: seq<string>)
      requires ChunksOk() && '\n' !in pendingContent && pendingStream == Some(stream)
      requires pendingContent != "" ==> pendingAt == Some(at)
      modifies this`chunks, this`pendingStream, this`pendingContent, this`pendingAt
      ensures ChunksOk() && Settled() && pendingStream == Some(stream)
      ensures Text() == old(Text()) && (pendingContent != "" ==> pendingAt == Some(at))
      ensures IsChunking(old(pendingContent), chunkBytes, parts, pendingContent)
      ensures chunks == old(chunks) + AsChunks(stream, parts, at)
    {
      hide SplitUtf8, Encode, Size, Width, Tag, Flatten, ChunkOk, Due, Join, CutInto;
      SizeIsLength(pendingContent);
      parts := [];
      NoParts(pendingContent, chunkBytes, pendingContent);
      while |Encode(pendingContent)| >= chunkBytes
        invariant ChunksOk() && '\n' !in pendingContent && pendingStream == Some(stream)
        invariant |Encode(pendingContent)| == Size(pendingContent)
        invariant Text() == old(Text()) && (pendingContent != "" ==> pendingAt == Some(at))
        invariant CutInto(old(pendingContent), chunkBytes, parts, pendingContent)
        invariant chunks == old(chunks) + AsChunks(stream, parts, at)
        decreases |pendingContent|
      {
        SizeOfNothing();
        var (part, remainder) := SplitUtf8(pendingContent, chunkBytes);
        SplitMakesProgress(pendingContent, chunkBytes);
        PartsHaveNoNewline(pendingContent, part, remainder);
        SmallIsChunk(part, chunkBytes);
        TagJoin(stream, part, remainder);
        SplitIsDue(pendingContent, part, remainder, chunkBytes);
        CutMore(old(pendingContent), chunkBytes, parts, pendingContent, [part], remainder);
        CutAndFlush(stream, part, remainder, at, now);
        parts := parts + [part];
        SizeIsLength(pendingContent);
      }
    }

    /** Flushes the front of the pending text and keeps the rest pending. */
    method CutAndFlush(stream: LogStream, part: string, remainder: string, at: int, now: int)
      requires ChunksOk() && pendingStream == Some(stream) && pendingContent != "" && pendingAt == Some(at)
      requires part + remainder == pendingContent && ChunkOk(part, chunkBytes)
      requires Tag(stream, pendingContent) == Tag(stream, part) + Tag(stream, remainder)
      modifies this`chunks, this`pendingStream, this`pendingContent, this`pendingAt
      ensures ChunksOk() && pendingStream == Some(stream) && pendingContent == remainder
      ensures Text() == old(Text())
      ensures chunks == old(chunks) + [Chunk(stream, part, at)] && (remainder != "" ==> pendingAt == Some(at))
    {
      pendingContent := part;
      FlushPending(now);
      pendingStream, pendingContent := Some(stream), remainder;
      pendingAt := if remainder != "" then Some(at) else None;
    }

    /** One write; the caller always sees the whole text as written. */
    method WriteAt(stream: LogStream, value: string, at: int, now: int) returns (written: nat)
      requires Valid()
      modifies this`chunks, this`pendingStream, this`pendingContent, this`pendingAt, this`bytes, this`truncated, this`offered
      ensures Valid() && written == |value|
      ensures offered == if value == "" || (stream == Stderr && !captureStderr) || closed then old(offered)
        else old(offered) + [Write(stream, value)]
      ensures offered == old(offered) ==> Text() == old(Text()) && truncated == old(truncated) && bytes == old(bytes)
      ensures if value == "" || (stream == Stderr && !captureStderr) || closed || maxBytes <= old(bytes)
        then View() == old(View())
        else Written(chunkBytes, old(View()), stream, Fitting(value, maxBytes - old(bytes)), at, View())
    {
      hide OfferAll, Fitting, Size, Encode, Decode, Flatten, Tag, ChunkOk, Written;
      if value == "" || (stream == Stderr && !captureStderr) || closed {
        return |value|;
      }
      OfferMore(maxBytes, offered, Write(stream, value));
      var remaining := maxBytes - bytes;
      FittingIsWhole(value, remaining);
      SizeIsLength(value);
      offered := offered + [Write(stream, value)];
      if remaining <= 0 {
        NothingFits(stream, value, remaining);
        truncated := true;
        return |value|;
      }
      var taken, encoded := value, Encode(value);
      if |encoded| > remaining {
        DecodeOfCut(value, remaining);
        taken := Decode(encoded[..remaining]);
        SizeIsLength(taken);
        encoded := Encode(taken);
        truncated := true;
      }
      Append(stream, taken, at, now);
      bytes := bytes + |encoded|;
      written := |value|;
    }

    method Close(now: int)
      requires Valid()
      modifies this`chunks, this`pendingStream, this`pendingContent, this`pendingAt, this`closed
      ensures Valid() && closed && Text() == old(Text()) && pendingContent == ""
      ensures chunks == old(chunks) + old(Flushed(View()))
    {
      hide OfferAll, ChunkOk, Waits, Tag, Flatten;
      WaitingIsChunk(pendingContent, chunkBytes);
      FlushPending(now);
      closed := true;
    }

    /** The captured chunks hold exactly the captured text. */
    method Snapshot(now: int) returns (logs: seq<LogChunk>, size: nat, cut: bool)
      requires Valid()
      modifies this`chunks, this`pendingStream, this`pendingContent, this`pendingAt
      ensures Valid() && Text() == old(Text()) && pendingContent == ""
      ensures chunks == old(chunks) + old(Flushed(View()))
      ensures |logs| == |chunks| && forall i | 0 <= i < |logs| ::
        logs[i] == LogChunk(i, chunks[i].stream, chunks[i].content, chunks[i].at)
      ensures Captured(Flatten(chunks), size, cut) == OfferAll(maxBytes, offered)
    {
      hide OfferAll, ChunkOk, Waits, Tag, Flatten;
      WaitingIsChunk(pendingContent, chunkBytes);
      FlushPending(now);
      logs := seq(|chunks|, i requires 0 <= i < |chunks| reads this => LogChunk(i, chunks[i].stream, chunks[i].content, chunks[i].at));
      size, cut := bytes, truncated;
    }
  }

  lemma OfferMore(maxBytes: int, offered: seq<Write>, w: Write)
    ensures OfferAll(maxBytes, offered + [w]) == Offer(maxBytes, OfferAll(maxBytes, offered), w)
    ensures forall content: Tagged :: content + [] == content
  {
    assert (offered + [w])[..|offered|] == offered;
  }

  lemma SizeOfNothing()
    ensures Size("") == 0
  {
  }

  lemma NothingFits(stream: LogStream, value: string, limit: int)
    requires limit <= 0
    ensures Fitting(value, limit) == "" && Tag(stream, "") == [] && Size("") == 0
  {
  }

  lemma PartsHaveNoNewline(value: string, part: string, rest: string)
    requires part + rest == value && '\n' !in value
    ensures '\n' !in part && '\n' !in rest
  {
    assert forall c | c in part || c in rest :: c in part + rest;
  }

  // ---------------------------------------------------------------- replaying a child's capture

  predicate Kept(c: LogChunk, captureStderr: bool) {
    c.content != "" && (c.stream == Stdout || captureStderr)
  }

  function ReplayedOne(c: LogChunk, captureStderr: bool): seq<Write> {
    if Kept(c, captureStderr) then [Write(c.stream, c.content)] else []
  }

  /** What replaying chunks offers to a buffer. */
  function Replayed(logs: seq<LogChunk>, captureStderr: bool): seq<Write> {
    if logs == [] then []
    else
      Replayed(logs[..|logs| - 1], captureStderr) + ReplayedOne(logs[|logs| - 1], captureStderr)
  }

  function LogText(logs: seq<LogChunk>): Tagged {
    if logs == [] then [] else LogText(logs[..|logs| - 1]) + Tag(logs[|logs| - 1].stream, logs[|logs| - 1].content)
  }

  /** One more chunk of a replay. */
  lemma ReplayedStep(own: seq<Write>, logs: seq<LogChunk>, i: nat, captureStderr: bool)
    requires i < |logs|
    ensures var c, before := logs[i], own + Replayed(logs[..i], captureStderr);
      own + Replayed(logs[..i + 1], captureStderr) ==
        if c.content == "" || (c.stream == Stderr && !captureStderr) then before else before + [Write(c.stream, c.content)]
  {
    assert logs[..i + 1][..i] == logs[..i];
    assert own + (Replayed(logs[..i], captureStderr) + ReplayedOne(logs[i], captureStderr)) ==
      own + Replayed(logs[..i], captureStderr) + ReplayedOne(logs[i], captureStderr);
  }

  lemma NothingReplayedYet(own: seq<Write>, captureStderr: bool)
    ensures own + Replayed([], captureStderr) == own
  {
  }

  method Replay(parent: CaptureBuffer, logs: seq<LogChunk>, now: int)
    requires parent.Valid()
    modifies parent
    ensures parent.Valid() && parent.closed == old(parent.closed)
    ensures parent.offered == if parent.closed then old(parent.offered) else old(parent.offered) + Replayed(logs, parent.captureStderr)
  {
    hide CaptureBuffer.Valid, CaptureBuffer.View, Replayed, Written, Flushed;
    ghost var own := parent.offered;
    var i := 0;
    NothingReplayedYet(own, parent.captureStderr);
    while i < |logs|
      invariant 0 <= i <= |logs|
      invariant parent.Valid() && parent.closed == old(parent.closed)
      invariant parent.offered == if parent.closed then own else own + Replayed(logs[..i], parent.captureStderr)
    {
      ReplayedStep(own, logs, i, parent.captureStderr);
      var written := parent.WriteAt(logs[i].stream, logs[i].content, logs[i].at, now);
      i := i + 1;
    }
    assert logs[..i] == logs;
  }

  /** The chunks that a buffer hears: without captured stderr only those of stdout. */
  function Heard(logs: seq<LogChunk>, captureStderr: bool): seq<LogChunk> {
    if captureStderr || logs == [] then logs
    else Heard(logs[..|logs| - 1], false) + (if logs[|logs| - 1].stream == Stdout then [logs[|logs| - 1]] else [])
  }

  /** Replaying what a child captured adds its text unchanged, stream by stream. */
  lemma {:induction false} ReplayedText(logs: seq<LogChunk>, captureStderr: bool)
    ensures TagAll(Replayed(logs, captureStderr)) == LogText(Heard(logs, captureStderr))
  {
    hide Tag, TagAll, LogText, Heard, Kept;
    if logs == [] {
      NothingReplayed(captureStderr);
    } else {
      var rest, last := logs[..|logs| - 1], logs[|logs| - 1];
      ReplayedText(rest, captureStderr);
      HeardStep(rest, last, captureStderr);
      assert rest + [last] == logs;
      OneReplayed(Replayed(rest, captureStderr), last, captureStderr);
    }
  }

  lemma NothingReplayed(captureStderr: bool)
    ensures TagAll(Replayed([], captureStderr)) == LogText(Heard([], captureStderr))
  {
  }

  lemma OneReplayed(before: seq<Write>, last: LogChunk, captureStderr: bool)
    ensures TagAll(before + ReplayedOne(last, captureStderr)) ==
      TagAll(before) + if captureStderr || last.stream == Stdout then Tag(last.stream, last.content) else []
  {
    if Kept(last, captureStderr) {
      assert (before + [Write(last.stream, last.content)])[..|before|] == before;
    } else {
      assert before + [] == before;
    }
  }

  lemma HeardStep(rest: seq<LogChunk>, last: LogChunk, captureStderr: bool)
    ensures LogText(Heard(rest + [last], captureStderr)) ==
      LogText(Heard(rest, captureStderr)) + if captureStderr || last.stream == Stdout then Tag(last.stream, last.content) else []
  {
    var heard := Heard(rest, captureStderr);
    assert (rest + [last])[..|rest|] == rest && (rest + [last])[|rest|] == last;
    if captureStderr || last.stream == Stdout {
      assert Heard(rest + [last], captureStderr) == heard + [last];
      assert (heard + [last])[..|heard|] == heard;
    } else {
      assert Heard(rest + [last], captureStderr) == heard + [] == heard;
    }
  }

  lemma {:induction false} TagAllJoin(a: seq<Write>, b: seq<Write>)
    ensures TagAll(a + b) == TagAll(a) + TagAll(b)
  {
    if b == [] {
      assert a + b == a;
    } else {
      assert (a + b)[..|a + b| - 1] == a + b[..|b| - 1];
      TagAllJoin(a, b[..|b| - 1]);
    }
  }

  /** A parent with room left ends up with its own text followed by the child's. */
  lemma ReplayConserves(maxBytes: int, own: seq<Write>, logs: seq<LogChunk>, captureStderr: bool)
    requires Size(TextOf(TagAll(own) + LogText(Heard(logs, captureStderr)))) <= maxBytes
    ensures var r := OfferAll(maxBytes, own + Replayed(logs, captureStderr));
      r.content == TagAll(own) + LogText(Heard(logs, captureStderr)) && !r.truncated
  {
    ReplayedText(logs, captureStderr);
    TagAllJoin(own, Replayed(logs, captureStderr));
    FitsExactly(maxBytes, own + Replayed(logs, captureStderr));
    TruncatedExactly(maxBytes, own + Replayed(logs, captureStderr));
  }
}
