/**
 Newline-delimited frames.  A stream is read by two implementations, one that is
 handed arbitrary fragments and one that reads through a bounded buffer; both are
 proved against a reader of the whole stream that knows nothing of either.
 */
module Framing {
  import opened Base

  type byte = x: int | 0 <= x < 256

  const LINE_FEED: byte := 10
  const CARRIAGE_RETURN: byte := 13
  const MAX_MESSAGE_BYTES: int := 4194304

  predicate ValidLimit(limit: int) {
    1 <= limit <= MAX_MESSAGE_BYTES
  }

  // ---- The stream as a whole -------------------------------------------------------------

  /** The position of the first line feed, or the length if there is none. */
  function LineLength(bytes: seq<byte>): (n: nat)
    ensures n <= |bytes|
    ensures n < |bytes| ==> bytes[n] == LINE_FEED
    ensures LINE_FEED !in bytes[..n]
  {
    if bytes == [] || bytes[0] == LINE_FEED then 0
    else
      assert bytes[1..][..LineLength(bytes[1..])] == bytes[..1 + LineLength(bytes[1..])][1..];
      1 + LineLength(bytes[1..])
  }

  predicate GoodLine(line: seq<byte>, limit: nat) {
    0 < |line| <= limit && CARRIAGE_RETURN !in line
  }

  /** How a stream ends: cleanly, refused with one code, or refused with a code that depends on how it was cut. */
  datatype Verdict = Fine | Refused(code: ErrorCode) | RefusedEitherWay

  datatype Stream = Stream(frames: seq<seq<byte>>, verdict: Verdict)

  /** A carriage return within the limit is always met first; one beyond it only if the line arrives in one piece. */
  function BadLine(line: seq<byte>, limit: nat): (v: Verdict)
    ensures !v.Fine?
  {
    if |line| <= limit || CARRIAGE_RETURN in line[..limit + 1] then Refused(InvalidArgument)
    else if CARRIAGE_RETURN in line then RefusedEitherWay
    else Refused(MessageTooLarge)
  }

  /** Every line up to the first bad one is a frame; a bad or unterminated line refuses the stream. */
  function Frames(bytes: seq<byte>, limit: nat): Stream {
    var n := LineLength(bytes);
    if n == |bytes| then Stream([], if bytes == [] then Fine else BadLine(bytes, limit))
    else if !GoodLine(bytes[..n], limit) then Stream([], BadLine(bytes[..n], limit))
    else
      var rest := Frames(bytes[n + 1..], limit);
      Stream([bytes[..n]] + rest.frames, rest.verdict)
  }

  predicate Permits(v: Verdict, error: Option<ErrorCode>) {
    match v
    case Fine => error.None?
    case Refused(code) => error == Some(code)
    case RefusedEitherWay => error == Some(InvalidArgument) || error == Some(MessageTooLarge)
  }

  function Concat(chunks: seq<seq<byte>>): seq<byte> {
    if chunks == [] then [] else chunks[0] + Concat(chunks[1..])
  }

  function After(frames: seq<seq<byte>>, s: Stream): Stream {
    Stream(frames + s.frames, s.verdict)
  }

  // ---- Reading fragments -----------------------------------------------------------------

  /** The generator's state between two bytes: frames yielded, the line so far, and the error that ended it. */
  datatype Reader = Reader(frames: seq<seq<byte>>, pending: seq<byte>, error: Option<ErrorCode>)

  /** What is added to the line is bounded before it is added. */
  function Append(r: Reader, fragment: seq<byte>, limit: nat): Reader {
    if |fragment| > limit - |r.pending| then r.(error := Some(MessageTooLarge))
    else r.(pending := r.pending + fragment)
  }

  /** The bytes of one fragment from `index`, of which those from `start` are not in the line yet. */
  function ReadChunk(r: Reader, chunk: seq<byte>, start: nat, index: nat, limit: nat): Reader
    requires start <= index <= |chunk|
    decreases |chunk| - index
  {
    if r.error.Some? then r
    else if index == |chunk| then Append(r, chunk[start..], limit)
    else if chunk[index] == CARRIAGE_RETURN then r.(error := Some(InvalidArgument))
    else if chunk[index] != LINE_FEED then ReadChunk(r, chunk, start, index + 1, limit)
    else
      var full := Append(r, chunk[start..index], limit);
      if full.error.Some? then full
      else if full.pending == [] then full.(error := Some(InvalidArgument))
      else ReadChunk(Reader(full.frames + [full.pending], [], None), chunk, index + 1, index + 1, limit)
  }

  function ReadChunks(r: Reader, chunks: seq<seq<byte>>, limit: nat): Reader
    decreases |chunks|
  {
    if chunks == [] then r else ReadChunks(ReadChunk(r, chunks[0], 0, 0, limit), chunks[1..], limit)
  }

  /** The end of input rejects a line that was begun. */
  function Finish(r: Reader): Reader {
    if r.error.None? && r.pending != [] then r.(error := Some(InvalidArgument)) else r
  }

  function ReadAll(chunks: seq<seq<byte>>, limit: nat): Reader {
    Finish(ReadChunks(Reader([], [], None), chunks, limit))
  }

  /** The generator's loop. */
  method ReadFrames(chunks: seq<seq<byte>>, limit: nat) returns (frames: seq<seq<byte>>, error: Option<ErrorCode>)
    ensures Reader(frames, ReadAll(chunks, limit).pending, error) == ReadAll(chunks, limit)
  {
    var fragments: seq<byte> := [];
    frames, error := [], None;
    ghost var begin := Reader([], [], None);
    for c := 0 to |chunks|
      invariant error.None?
      invariant ReadChunks(Reader(frames, fragments, None), chunks[c..], limit) == ReadChunks(begin, chunks, limit)
    {
      var chunk := chunks[c];
      assert chunks[c..][1..] == chunks[c + 1..];
      ghost var entry := Reader(frames, fragments, None);
      var start := 0;
      for index := 0 to |chunk|
        invariant 0 <= start <= index
        invariant ReadChunk(Reader(frames, fragments, None), chunk, start, index, limit) ==
            ReadChunk(entry, chunk, 0, 0, limit)
      {
        var byte := chunk[index];
        if byte == CARRIAGE_RETURN {
          FailedStays(ReadChunk(entry, chunk, 0, 0, limit), chunks[c + 1..], limit);
          return frames, Some(InvalidArgument);
        }
        if byte == LINE_FEED {
          if index - start > limit - |fragments| {
            FailedStays(ReadChunk(entry, chunk, 0, 0, limit), chunks[c + 1..], limit);
            return frames, Some(MessageTooLarge);
          }
          fragments := fragments + chunk[start..index];
          if fragments == [] {
            FailedStays(ReadChunk(entry, chunk, 0, 0, limit), chunks[c + 1..], limit);
            return frames, Some(InvalidArgument);
          }
          frames := frames + [fragments];
          fragments := [];
          start := index + 1;
        }
      }
      if |chunk| - start > limit - |fragments| {
        FailedStays(ReadChunk(entry, chunk, 0, 0, limit), chunks[c + 1..], limit);
        return frames, Some(MessageTooLarge);
      }
      fragments := fragments + chunk[start..];
    }
    assert chunks[|chunks|..] == [];
    if fragments != [] { error := Some(InvalidArgument); }
  }

  lemma {:induction false} FailedStays(r: Reader, chunks: seq<seq<byte>>, limit: nat)
    requires r.error.Some?
    ensures ReadChunks(r, chunks, limit) == r
    decreases |chunks|
  {
    if chunks != [] { FailedStays(r, chunks[1..], limit); }
  }

  // ---- Fragmentation does not matter -----------------------------------------------------

  /** A line feed is found behind everything that holds none. */
  lemma {:induction false} LineLengthBehind(line: seq<byte>, rest: seq<byte>)
    requires LINE_FEED !in line
    ensures LineLength(line + rest) == |line| + LineLength(rest)
  {
    if line == [] {
      assert line + rest == rest;
    } else {
      assert (line + rest)[1..] == line[1..] + rest;
      LineLengthBehind(line[1..], rest);
    }
  }

  /** A clean line over the limit, or with a carriage return next, is refused however the stream goes on. */
  lemma BadPrefix(line: seq<byte>, rest: seq<byte>, limit: nat)
    requires Clean(line)
    ensures |line| > limit ==>
      Frames(line + rest, limit).frames == [] && Permits(Frames(line + rest, limit).verdict, Some(MessageTooLarge))
    ensures rest != [] && rest[0] == CARRIAGE_RETURN ==>
      Frames(line + rest, limit).frames == [] && Permits(Frames(line + rest, limit).verdict, Some(InvalidArgument))
  {
    LineLengthBehind(line, rest);
    var n := LineLength(line + rest);
    var whole := (line + rest)[..n];
    assert whole == line + rest[..n - |line|];
    if |line| > limit {
      assert whole[..limit + 1] == line[..limit + 1];
      assert CARRIAGE_RETURN !in line[..limit + 1];
    }
    if rest != [] && rest[0] == CARRIAGE_RETURN {
      assert n > |line|;
      assert whole[|line|] == CARRIAGE_RETURN;
      if |whole| > limit && |line| <= limit { assert whole[..limit + 1][|line|] == CARRIAGE_RETURN; }
    }
    if n == |line + rest| { assert whole == line + rest; }
  }

  lemma CompleteLine(line: seq<byte>, rest: seq<byte>, limit: nat)
    requires LINE_FEED !in line
    ensures Frames(line + [LINE_FEED] + rest, limit) ==
      if GoodLine(line, limit) then After([line], Frames(rest, limit)) else Stream([], BadLine(line, limit))
  {
    var bytes := line + [LINE_FEED] + rest;
    assert bytes == line + ([LINE_FEED] + rest);
    LineLengthBehind(line, [LINE_FEED] + rest);
    assert bytes[..|line|] == line && bytes[|line| + 1..] == rest;
  }

  predicate Clean(line: seq<byte>) {
    LINE_FEED !in line && CARRIAGE_RETURN !in line
  }

  /** What a reader holds is explained by the stream it is part of. */
  ghost predicate Explains(s: Stream, r: Reader, rest: seq<byte>, limit: nat) {
    if r.error.Some? then s.frames == r.frames && !s.verdict.Fine? && Permits(s.verdict, r.error)
    else s == After(r.frames, Frames(r.pending + rest, limit))
  }

  ghost predicate Sound(r: Reader, limit: nat) {
    r.error.None? ==> Clean(r.pending) && |r.pending| <= limit
  }

  lemma AppendMeans(r: Reader, fragment: seq<byte>, rest: seq<byte>, limit: nat)
    requires r.error.None? && Sound(r, limit) && Clean(fragment)
    ensures Sound(Append(r, fragment, limit), limit)
    ensures Explains(After(r.frames, Frames(r.pending + fragment + rest, limit)),
                     Append(r, fragment, limit), rest, limit)
  {
    if |fragment| > limit - |r.pending| { BadPrefix(r.pending + fragment, rest, limit); }
  }

  lemma {:induction false} ReadChunkMeans(
      r: Reader, chunk: seq<byte>, start: nat, index: nat, rest: seq<byte>, limit: nat)
    requires r.error.None? && Sound(r, limit) && start <= index <= |chunk| && Clean(chunk[start..index])
    ensures Sound(ReadChunk(r, chunk, start, index, limit), limit)
    ensures Explains(After(r.frames, Frames(r.pending + chunk[start..] + rest, limit)),
                     ReadChunk(r, chunk, start, index, limit), rest, limit)
    decreases |chunk| - index
  {
    hide Frames;
    var line := r.pending + chunk[start..index];
    if index == |chunk| {
      assert chunk[start..index] == chunk[start..];
      AppendMeans(r, chunk[start..], rest, limit);
    } else {
      var b := chunk[index];
      assert chunk[start..index + 1] == chunk[start..index] + [b];
      if b == CARRIAGE_RETURN {
        var tail := [b] + (chunk[index + 1..] + rest);
        assert r.pending + chunk[start..] + rest == line + tail;
        BadPrefix(line, tail, limit);
      } else if b != LINE_FEED {
        ReadChunkMeans(r, chunk, start, index + 1, rest, limit);
      } else {
        LineEndMeans(r, chunk, start, index, rest, limit);
      }
    }
  }

  lemma {:induction false} LineEndMeans(
      r: Reader, chunk: seq<byte>, start: nat, index: nat, rest: seq<byte>, limit: nat)
    requires r.error.None? && Sound(r, limit) && start <= index < |chunk| && Clean(chunk[start..index])
        && chunk[index] == LINE_FEED
    ensures Sound(ReadChunk(r, chunk, start, index, limit), limit)
    ensures Explains(After(r.frames, Frames(r.pending + chunk[start..] + rest, limit)),
                     ReadChunk(r, chunk, start, index, limit), rest, limit)
    decreases |chunk| - index, 0
  {
    hide Frames;
    var line := r.pending + chunk[start..index];
    var tail := chunk[index + 1..] + rest;
    assert r.pending + chunk[start..] + rest == line + [LINE_FEED] + tail;
    CompleteLine(line, tail, limit);
    if GoodLine(line, limit) {
      var r' := Reader(r.frames + [line], [], None);
      ReadChunkMeans(r', chunk, index + 1, index + 1, rest, limit);
      assert [] + chunk[index + 1..] + rest == tail;
      assert r.frames + ([line] + Frames(tail, limit).frames) == r.frames + [line] + Frames(tail, limit).frames;
    }
  }

  lemma {:induction false} ReadChunksMean(r: Reader, chunks: seq<seq<byte>>, s: Stream, limit: nat)
    requires Sound(r, limit) && Explains(s, r, Concat(chunks), limit)
    ensures Sound(ReadChunks(r, chunks, limit), limit)
    ensures Explains(s, ReadChunks(r, chunks, limit), [], limit)
    decreases |chunks|
  {
    hide Frames;
    if chunks != [] {
      var rest := Concat(chunks[1..]);
      var r' := ReadChunk(r, chunks[0], 0, 0, limit);
      if r.error.None? {
        ReadChunkMeans(r, chunks[0], 0, 0, rest, limit);
        assert chunks[0][0..] == chunks[0];
        assert r.pending + chunks[0] + rest == r.pending + (chunks[0] + rest);
      }
      ReadChunksMean(r', chunks[1..], s, limit);
    }
  }

  /** The frames yielded, whether the stream is refused, and the code unless a carriage return lies beyond the limit,
      are those of the concatenated bytes. */
  lemma FragmentationIrrelevant(chunks: seq<seq<byte>>, limit: nat)
    ensures var r, s := ReadAll(chunks, limit), Frames(Concat(chunks), limit);
      r.frames == s.frames && (r.error.Some? <==> !s.verdict.Fine?) && Permits(s.verdict, r.error)
  {
    var begin, whole := Reader([], [], None), Frames(Concat(chunks), limit);
    assert begin.pending + Concat(chunks) == Concat(chunks) && [] + whole.frames == whole.frames;
    ReadChunksMean(begin, chunks, whole, limit);
    var r := ReadChunks(begin, chunks, limit);
    if r.error.None? {
      LineLengthBehind(r.pending, []);
      assert r.pending + [] == r.pending && r.frames + [] == r.frames;
    }
  }

  // ---- Exactly when the code depends on fragmentation ------------------------------------

  /** A stream whose first bad line holds a carriage return beyond the limit, and none within it, is refused with either
      code, depending on how it is cut. */
  lemma {:induction false} EitherCodeIsReached(
      bytes: seq<byte>, limit: nat) returns (one: seq<seq<byte>>, two: seq<seq<byte>>)
    requires Frames(bytes, limit).verdict == RefusedEitherWay
    ensures Concat(one) == bytes == Concat(two)
    ensures ReadAll(one, limit).error == Some(InvalidArgument) && ReadAll(two, limit).error == Some(MessageTooLarge)
    decreases |bytes|
  {
    hide ReadChunks, LineLength;
    var n := LineLength(bytes);
    if n < |bytes| && GoodLine(bytes[..n], limit) {
      one, two := EitherCodeIsReached(bytes[n + 1..], limit);
      var chunk := bytes[..n] + [LINE_FEED];
      GoodLineFirst(bytes[..n], one, limit);
      GoodLineFirst(bytes[..n], two, limit);
      assert ([chunk] + one)[1..] == one && ([chunk] + two)[1..] == two && chunk + bytes[n + 1..] == bytes;
      one, two := [chunk] + one, [chunk] + two;
    } else {
      one, two := [bytes], [bytes[..limit + 1], bytes[limit + 1..]];
      EitherCodeNow(bytes, n, limit);
    }
  }

  lemma EitherCodeNow(bytes: seq<byte>, n: nat, limit: nat)
    requires limit < n <= |bytes| && LINE_FEED !in bytes[..n]
    requires CARRIAGE_RETURN in bytes[..n] && CARRIAGE_RETURN !in bytes[..n][..limit + 1]
    ensures Concat([bytes]) == bytes == Concat([bytes[..limit + 1], bytes[limit + 1..]])
    ensures ReadAll([bytes], limit).error == Some(InvalidArgument)
    ensures ReadAll([bytes[..limit + 1], bytes[limit + 1..]], limit).error == Some(MessageTooLarge)
  {
    hide ReadChunk;
    var begin, head, tail := Reader([], [], None), bytes[..limit + 1], bytes[limit + 1..];
    assert bytes[..n][..limit + 1] == head;
    var none: seq<seq<byte>> := [];
    assert [bytes][1..] == none && [head, tail][1..] == [tail] && [tail][1..] == none && bytes == head + tail;
    var at :| 0 <= at < n && bytes[..n][at] == CARRIAGE_RETURN;
    ScanToReturn(begin, bytes, 0, n, at, limit);
    FailedStays(ReadChunk(begin, bytes, 0, 0, limit), none, limit);
    ScanToEnd(begin, head, 0, limit);
    FailedStays(ReadChunk(begin, head, 0, 0, limit), [tail], limit);
  }

  lemma {:induction false} ScanToReturn(r: Reader, chunk: seq<byte>, index: nat, n: nat, at: nat, limit: nat)
    requires r.error.None? && index <= at < n <= |chunk| && LINE_FEED !in chunk[..n] && chunk[at] == CARRIAGE_RETURN
    ensures ReadChunk(r, chunk, 0, index, limit) == r.(error := Some(InvalidArgument))
    decreases at - index
  {
    assert chunk[index] in chunk[..n];
    if chunk[index] != CARRIAGE_RETURN { ScanToReturn(r, chunk, index + 1, n, at, limit); }
  }

  lemma {:induction false} ScanToEnd(r: Reader, chunk: seq<byte>, index: nat, limit: nat)
    requires r.error.None? && r.pending == [] && Clean(chunk) && index <= |chunk| && |chunk| > limit
    ensures ReadChunk(r, chunk, 0, index, limit) == r.(error := Some(MessageTooLarge))
    decreases |chunk| - index
  {
    if index < |chunk| { ScanToEnd(r, chunk, index + 1, limit); }
  }

  /** A good line in a fragment of its own leaves the rest of the stream as it was. */
  lemma GoodLineFirst(line: seq<byte>, chunks: seq<seq<byte>>, limit: nat)
    requires LINE_FEED !in line && GoodLine(line, limit)
    ensures ReadAll([line + [LINE_FEED]] + chunks, limit).error == ReadAll(chunks, limit).error
  {
    hide ReadChunk;
    var begin, chunk := Reader([], [], None), line + [LINE_FEED];
    assert ([chunk] + chunks)[1..] == chunks;
    assert chunk[..|line|] == line;
    ScanLine(begin, chunk, 0, |line|, limit);
    FramesShift(Reader([] + [line], [], None), begin, chunks, limit);
  }

  lemma {:induction false} ScanLine(r: Reader, chunk: seq<byte>, index: nat, n: nat, limit: nat)
    requires r.error.None? && r.pending == [] && index <= n && |chunk| == n + 1 && chunk[n] == LINE_FEED
    requires LINE_FEED !in chunk[..n] && GoodLine(chunk[..n], limit)
    ensures ReadChunk(r, chunk, 0, index, limit) == Reader(r.frames + [chunk[..n]], [], None)
    decreases n - index
  {
    if index < n {
      assert chunk[index] in chunk[..n];
      ScanLine(r, chunk, index + 1, n, limit);
    } else {
      assert [] + chunk[0..n] == chunk[..n];
    }
  }

  /** Frames already yielded have no effect on what is read next. */
  lemma {:induction false} FramesShift(a: Reader, b: Reader, chunks: seq<seq<byte>>, limit: nat)
    requires a.pending == b.pending && a.error == b.error
    ensures ReadChunks(a, chunks, limit).pending == ReadChunks(b, chunks, limit).pending
    ensures ReadChunks(a, chunks, limit).error == ReadChunks(b, chunks, limit).error
    decreases |chunks|
  {
    if chunks != [] {
      ChunkShift(a, b, chunks[0], 0, 0, limit);
      FramesShift(ReadChunk(a, chunks[0], 0, 0, limit), ReadChunk(b, chunks[0], 0, 0, limit), chunks[1..], limit);
    }
  }

  lemma {:induction false} ChunkShift(a: Reader, b: Reader, chunk: seq<byte>, start: nat, index: nat, limit: nat)
    requires a.pending == b.pending && a.error == b.error && start <= index <= |chunk|
    ensures ReadChunk(a, chunk, start, index, limit).pending == ReadChunk(b, chunk, start, index, limit).pending
    ensures ReadChunk(a, chunk, start, index, limit).error == ReadChunk(b, chunk, start, index, limit).error
    decreases |chunk| - index
  {
    if a.error.None? && index < |chunk| && chunk[index] != CARRIAGE_RETURN {
      if chunk[index] != LINE_FEED {
        ChunkShift(a, b, chunk, start, index + 1, limit);
      } else {
        var x, y := Append(a, chunk[start..index], limit), Append(b, chunk[start..index], limit);
        if x.error.None? && x.pending != [] {
          var x', y' := Reader(x.frames + [x.pending], [], None), Reader(y.frames + [y.pending], [], None);
          ChunkShift(x', y', chunk, index + 1, index + 1, limit);
        }
      }
    }
  }

  // ---- The buffered reader ---------------------------------------------------------------

  datatype Frame = Frame(line: seq<byte>, rest: seq<byte>) | EndOfInput | BadFrame(code: ErrorCode)

  /** One frame from the front of a stream. */
  function FirstFrame(bytes: seq<byte>, limit: nat): Frame {
    if !ValidLimit(limit) then BadFrame(InvalidArgument) else
    var n := LineLength(bytes);
    if n > limit then BadFrame(MessageTooLarge)
    else if n == |bytes| then (if n == 0 then EndOfInput else BadFrame(InvalidArgument))
    else if !GoodLine(bytes[..n], limit) then BadFrame(InvalidArgument)
    else Frame(bytes[..n], bytes[n + 1..])
  }

  /** The buffer hands over at most `buffer` bytes at a time; the frame and even the error code do not depend on its
      size. */
  method ReadFrame(bytes: seq<byte>, buffer: nat, limit: nat) returns (result: Frame)
    requires buffer > 0
    ensures result == FirstFrame(bytes, limit)
  {
    if limit == 0 || limit > MAX_MESSAGE_BYTES { return BadFrame(InvalidArgument); }
    var at := 0;
    while true
      invariant 0 <= at <= |bytes| && at <= limit && LINE_FEED !in bytes[..at]
      decreases |bytes| - at
    {
      var n := LineLength(bytes[at..]);
      assert bytes == bytes[..at] + bytes[at..];
      LineLengthBehind(bytes[..at], bytes[at..]);
      var terminated := n < buffer && at + n < |bytes|;
      var taken := if n < buffer then n else buffer;
      if at + taken > limit { return BadFrame(MessageTooLarge); }
      assert bytes[..at + taken] == bytes[..at] + bytes[at..][..taken];
      assert bytes[at..][..taken] == bytes[at..][..n][..taken];
      at := at + taken;
      if terminated {
        if at == 0 || CARRIAGE_RETURN in bytes[..at] { return BadFrame(InvalidArgument); }
        return Frame(bytes[..at], bytes[at + 1..]);
      }
      if n < buffer {
        return if at == 0 then EndOfInput else BadFrame(InvalidArgument);
      }
    }
  }

  // ---- Writing ---------------------------------------------------------------------------

  /** One call of the underlying writer: how many bytes it reports and whether it reports an error. */
  datatype Attempt = Attempt(written: int, failed: bool)

  /** A transport that takes bytes in whatever portions its script says. */
  class Sink {
    var received: seq<byte>
    var script: seq<Attempt>

    constructor (script: seq<Attempt>)
      ensures received == [] && this.script == script
    {
      received, this.script := [], script;
    }

    method Write(data: seq<byte>) returns (a: Attempt)
      modifies this
      ensures a == if old(script) == [] then Attempt(0, true) else old(script)[0]
      ensures script == if old(script) == [] then [] else old(script)[1..]
      ensures received == old(received) +
                data[..if a.written < 0 then 0 else if a.written > |data| then |data| else a.written]
    {
      a := if script == [] then Attempt(0, true) else script[0];
      script := if script == [] then [] else script[1..];
      received := received + data[..if a.written < 0 then 0 else if a.written > |data| then |data| else a.written];
    }
  }

  /** An envelope that may be framed; that it is a JSON object is decided elsewhere. */
  predicate Framable(isObject: seq<byte> -> bool, data: seq<byte>, limit: nat) {
    ValidLimit(limit) && GoodLine(data, limit) && LINE_FEED !in data && isObject(data)
  }

  /** A writer that follows this script takes n bytes, in portions of its own, without reporting an error. */
  predicate Delivers(script: seq<Attempt>, n: nat)
    decreases n
  {
    n == 0 || (script != [] && !script[0].failed && 0 < script[0].written <= n
          && Delivers(script[1..], n - script[0].written))
  }

  datatype WriteResult = Written | Unsendable(code: ErrorCode) | BrokenTransport

  /** Succeeds exactly for a framable envelope on a writer that takes it; fails having sent at most a prefix. */
  method WriteFrame(isObject: seq<byte> -> bool, sink: Sink, data: seq<byte>, limit: nat) returns (r: WriteResult)
    modifies sink
    ensures r.Written? <==> Framable(isObject, data, limit) && Delivers(old(sink.script), |data| + 1)
    ensures r.Unsendable? <==> !Framable(isObject, data, limit)
    ensures r.Unsendable? ==> sink.received == old(sink.received)
    ensures r.Unsendable? ==> r.code == if ValidLimit(limit) && |data| > limit then MessageTooLarge else InvalidArgument
    ensures r.Written? ==> sink.received == old(sink.received) + data + [LINE_FEED]
    ensures old(sink.received) <= sink.received <= old(sink.received) + data + [LINE_FEED]
  {
    if limit == 0 || limit > MAX_MESSAGE_BYTES || data == [] { return Unsendable(InvalidArgument); }
    if |data| > limit { return Unsendable(MessageTooLarge); }
    if LINE_FEED in data || CARRIAGE_RETURN in data || !isObject(data) { return Unsendable(InvalidArgument); }
    var whole := data + [LINE_FEED];
    var frame := whole;
    while |frame| > 0
      invariant |frame| <= |whole| && frame == whole[|whole| - |frame|..]
      invariant sink.received == old(sink.received) + whole[..|whole| - |frame|]
      invariant Delivers(sink.script, |frame|) <==> Delivers(old(sink.script), |whole|)
    {
      ghost var sent := |whole| - |frame|;
      var a := sink.Write(frame);
      ghost var n := if a.written < 0 then 0 else if a.written > |frame| then |frame| else a.written;
      assert whole[..sent] + frame[..n] == whole[..sent + n];
      assert sink.received == old(sink.received) + whole[..sent + n];
      assert old(sink.received) + whole == old(sink.received) + whole[..sent + n] + whole[sent + n..];
      if a.failed || a.written <= 0 || a.written > |frame| { return BrokenTransport; }
      frame := frame[a.written..];
    }
    assert whole[..|whole|] == whole;
    return Written;
  }

  // ---- Round trip ------------------------------------------------------------------------

  function Wire(envelopes: seq<seq<byte>>): seq<byte> {
    if envelopes == [] then [] else envelopes[0] + [LINE_FEED] + Wire(envelopes[1..])
  }

  /** Everything the buffered reader returns before the end of input or the first bad frame. */
  function ReadBack(bytes: seq<byte>, limit: nat): (seq<seq<byte>>, Frame)
    decreases |bytes|
  {
    match FirstFrame(bytes, limit)
    case Frame(line, rest) => var (lines, last) := ReadBack(rest, limit); ([line] + lines, last)
    case other => ([], other)
  }

  /** The line that refuses a stream, if any: the first that is empty, too long, holds a carriage return or never
      ends. */
  function Offending(bytes: seq<byte>, limit: nat): (line: Option<seq<byte>>) {
    var n := LineLength(bytes);
    if bytes == [] then None
    else if n == |bytes| || !GoodLine(bytes[..n], limit) then Some(bytes[..n])
    else Offending(bytes[n + 1..], limit)
  }

  /** On every stream the two readers yield the same frames and refuse the same streams, at the same line; the buffered
      one calls it too large exactly when it is. */
  lemma {:induction false} ReadersAgree(bytes: seq<byte>, limit: nat)
    requires ValidLimit(limit)
    ensures var (lines, last) := ReadBack(bytes, limit);
      var whole, bad := Frames(bytes, limit), Offending(bytes, limit);
      && lines == whole.frames
      && (last == EndOfInput <==> whole.verdict == Fine) && (bad.None? <==> whole.verdict == Fine)
      && (bad.Some? ==>
            && whole.verdict == BadLine(bad.value, limit)
            && last == BadFrame(if |bad.value| > limit then MessageTooLarge else InvalidArgument))
    decreases |bytes|
  {
    var n := LineLength(bytes);
    assert n == |bytes| ==> bytes[..n] == bytes;
    if n < |bytes| && GoodLine(bytes[..n], limit) {
      ReadersAgree(bytes[n + 1..], limit);
    }
  }

  /** Where the two readers name different codes: a line too long whose carriage return the fragment reader met
      first. */
  lemma CodesDiffer(bytes: seq<byte>, chunks: seq<seq<byte>>, limit: nat)
    requires ValidLimit(limit) && Concat(chunks) == bytes
    ensures var last, error := ReadBack(bytes, limit).1, ReadAll(chunks, limit).error;
      && (last == EndOfInput <==> error.None?)
      && (last.BadFrame? && error == Some(last.code) <==> error.Some? && !Differs(bytes, error, limit))
  {
    ReadersAgree(bytes, limit);
    FragmentationIrrelevant(chunks, limit);
    hide ReadBack, ReadAll, Frames, Offending;
  }

  predicate Differs(bytes: seq<byte>, error: Option<ErrorCode>, limit: nat) {
    && Offending(bytes, limit).Some? && |Offending(bytes, limit).value| > limit
    && CARRIAGE_RETURN in Offending(bytes, limit).value && error == Some(InvalidArgument)
  }

  /** The frames are good lines, and with the offending one behind them they are the stream, up to whatever follows a
      bad line. */
  ghost predicate Reads(bytes: seq<byte>, frames: seq<seq<byte>>, bad: Option<seq<byte>>, limit: nat) {
    && (forall i :: 0 <= i < |frames| ==> GoodLine(frames[i], limit) && LINE_FEED !in frames[i])
    && (bad.None? ==> bytes == Wire(frames))
    && (bad.Some? ==> LINE_FEED !in bad.value && Wire(frames) + bad.value <= bytes)
    && (bad.Some? && GoodLine(bad.value, limit) ==> bytes == Wire(frames) + bad.value)
  }

  lemma ReadsOneMore(line: seq<byte>, rest: seq<byte>, frames: seq<seq<byte>>, bad: Option<seq<byte>>, limit: nat)
    requires GoodLine(line, limit) && LINE_FEED !in line && Reads(rest, frames, bad, limit)
    ensures Reads(line + [LINE_FEED] + rest, [line] + frames, bad, limit)
  {
    hide GoodLine;
    WireFirst(line, frames);
    if bad.Some? {
      assert line + [LINE_FEED] + Wire(frames) + bad.value == line + [LINE_FEED] + (Wire(frames) + bad.value);
    }
  }

  /** The frames of a stream are its good lines up to the offending one, and nothing of the stream is skipped. */
  lemma {:induction false} FramesAreTheGoodLines(bytes: seq<byte>, limit: nat)
    ensures Reads(bytes, Frames(bytes, limit).frames, Offending(bytes, limit), limit)
    decreases |bytes|
  {
    var n := LineLength(bytes);
    hide LineLength;
    if n < |bytes| && GoodLine(bytes[..n], limit) {
      var line, rest := bytes[..n], bytes[n + 1..];
      FramesAreTheGoodLines(rest, limit);
      ReadsOneMore(line, rest, Frames(rest, limit).frames, Offending(rest, limit), limit);
      hide Reads, GoodLine;
      assert bytes == line + [LINE_FEED] + rest;
    } else {
      assert n == |bytes| ==> bytes[..n] == bytes;
      assert Wire([]) + bytes[..n] == bytes[..n];
    }
  }

  lemma WireFirst(line: seq<byte>, lines: seq<seq<byte>>)
    ensures Wire([line] + lines) == line + [LINE_FEED] + Wire(lines)
  {
    assert ([line] + lines)[1..] == lines;
  }

  /** Reading back framed envelopes returns exactly those envelopes, by either reader and however the bytes are cut. */
  lemma {:induction false} RoundTrip(isObject: seq<byte> -> bool, envelopes: seq<seq<byte>>, limit: nat)
    requires ValidLimit(limit) && forall e :: e in envelopes ==> Framable(isObject, e, limit)
    ensures Frames(Wire(envelopes), limit) == Stream(envelopes, Fine)
    ensures ReadBack(Wire(envelopes), limit) == (envelopes, EndOfInput)
  {
    if envelopes != [] {
      hide LineLength, FirstFrame, Frames;
      var line, rest := envelopes[0], Wire(envelopes[1..]);
      assert line in envelopes;
      RoundTrip(isObject, envelopes[1..], limit);
      CompleteLine(line, rest, limit);
      FirstFrameOf(line, rest, limit);
      assert envelopes == [line] + envelopes[1..];
    }
  }

  lemma FirstFrameOf(line: seq<byte>, rest: seq<byte>, limit: nat)
    requires ValidLimit(limit) && GoodLine(line, limit) && LINE_FEED !in line
    ensures FirstFrame(line + [LINE_FEED] + rest, limit) == Frame(line, rest)
  {
    var bytes := line + [LINE_FEED] + rest;
    assert bytes == line + ([LINE_FEED] + rest);
    LineLengthBehind(line, [LINE_FEED] + rest);
    assert bytes[..|line|] == line && bytes[|line| + 1..] == rest;
  }

  lemma RoundTripFragments(isObject: seq<byte> -> bool, envelopes: seq<seq<byte>>, chunks: seq<seq<byte>>, limit: nat)
    requires ValidLimit(limit) && forall e :: e in envelopes ==> Framable(isObject, e, limit)
    requires Concat(chunks) == Wire(envelopes)
    ensures ReadAll(chunks, limit).frames == envelopes && ReadAll(chunks, limit).error == None
  {
    RoundTrip(isObject, envelopes, limit);
    FragmentationIrrelevant(chunks, limit);
  }
}
