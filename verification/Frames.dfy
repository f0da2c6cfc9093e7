/** Docker log streams: length-prefixed frames, or raw lines. */
module Frames {
  const MAX_PAYLOAD := 8 * 1024 * 1024
  const NEWLINE: Byte := 10

  type Byte = x: int | 0 <= x < 256

  type Bytes = seq<Byte>

  datatype Stream = Stdout | Stderr

  datatype Frame = Frame(stream: Stream, data: Bytes)

  /** `Refused` is an error of the caller's own callback. */
  datatype End = Finished | TooLarge | ReadFailed | Truncated | Refused

  datatype Outcome = Outcome(frames: seq<Frame>, end: End)

  /** What a reader yields: `data`, and then the end of input or a failure. */
  datatype Source = Source(data: Bytes, fails: bool)

  function Payloads(frames: seq<Frame>): Bytes {
    if frames == [] then [] else frames[0].data + Payloads(frames[1..])
  }

  function Flatten(chunks: seq<Bytes>): Bytes {
    if chunks == [] then [] else chunks[0] + Flatten(chunks[1..])
  }

  // ---- raw lines ------------------------------------------------------------------------

  /** The length of the first line, its newline included. */
  function LineLength(data: Bytes): (n: nat)
    ensures n <= |data| && (data != [] ==> n > 0)
    ensures forall i :: 0 <= i < n - 1 ==> data[i] != NEWLINE
    ensures n > 0 && n < |data| ==> data[n - 1] == NEWLINE
  {
    if data == [] then 0 else if data[0] == NEWLINE then 1 else 1 + LineLength(data[1..])
  }

  function Before(done: seq<Frame>, o: Outcome): Outcome {
    Outcome(done + o.frames, o.end)
  }

  lemma BeforeNothing(o: Outcome)
    ensures Before([], o) == o
  {}

  lemma BeforeTwice(a: seq<Frame>, b: seq<Frame>, o: Outcome)
    ensures Before(a, Before(b, o)) == Before(a + b, o)
  {
    assert a + (b + o.frames) == (a + b) + o.frames;
  }

  /** The frames of raw input, and how it ends. */
  function RawFrames(s: Source): Outcome
    decreases |s.data|
  {
    if s.data == [] then Outcome([], if s.fails then ReadFailed else Finished)
    else
      var n := LineLength(s.data);
      if n > MAX_PAYLOAD then Outcome([], TooLarge)
      else if s.data[n - 1] != NEWLINE && s.fails then Outcome([], ReadFailed)
      else
        Before([Frame(Stdout, s.data[..n])], RawFrames(Source(s.data[n..], s.fails)))
  }

  /** The caller sees frames up to the first one it refuses. */
  function Until(o: Outcome, accepts: Frame -> bool): Outcome
    decreases |o.frames|
  {
    if o.frames == [] then o
    else if !accepts(o.frames[0]) then Outcome([o.frames[0]], Refused)
    else Before([o.frames[0]], Until(Outcome(o.frames[1..], o.end), accepts))
  }

  /** One more frame is handed out; a refusal ends it all. */
  lemma HandOut(done: seq<Frame>, frame: Frame, o: Outcome, accepts: Frame -> bool)
    ensures Before(done, Until(Before([frame], o), accepts))
         == if accepts(frame) then Before(done + [frame], Until(o, accepts)) else Outcome(done + [frame], Refused)
  {
    assert ([frame] + o.frames)[1..] == o.frames;
    BeforeTwice(done, [frame], Until(o, accepts));
  }

  /** What ReadSlice returns, call by call: a newline only ever ends a chunk. A
      chunk without one filled the buffer, or was the last. */
  ghost predicate Slices(chunks: seq<Bytes>, data: Bytes) {
    && Flatten(chunks) == data
    && forall c :: c in chunks ==> c != [] && forall i :: 0 <= i < |c| - 1 ==> c[i] != NEWLINE
  }

  lemma {:induction false} LineOf(line: Bytes, rest: Bytes)
    requires line != [] && forall i :: 0 <= i < |line| - 1 ==> line[i] != NEWLINE
    ensures line[|line| - 1] == NEWLINE ==> LineLength(line + rest) == |line|
    ensures line[|line| - 1] != NEWLINE ==> LineLength(line + rest) >= |line|
    ensures line[|line| - 1] != NEWLINE && rest == [] ==> LineLength(line + rest) == |line|
  {
    if |line| <= 1 {
    } else {
      LineOf(line[1..], rest);
      assert (line + rest)[1..] == line[1..] + rest;
    }
  }

  /** No newline but perhaps at the end. */
  ghost predicate OneLine(line: Bytes) {
    forall i :: 0 <= i < |line| - 1 ==> line[i] != NEWLINE
  }

  /** A complete line is a frame. */
  lemma RawLine(line: Bytes, rest: Bytes, fails: bool)
    requires line != [] && line[|line| - 1] == NEWLINE && OneLine(line) && |line| <= MAX_PAYLOAD
    ensures RawFrames(Source(line + rest, fails)) == Before([Frame(Stdout, line)], RawFrames(Source(rest, fails)))
  {
    LineOf(line, rest);
    assert (line + rest)[..|line|] == line && (line + rest)[|line|..] == rest;
  }

  /** What the caller is to see is `frames`, and then what `line` and the unread
      rest still hold. */
  ghost predicate Reading(source: Source, accepts: Frame -> bool, frames: seq<Frame>, line: Bytes, rest: Bytes) {
    Until(RawFrames(source), accepts) == Before(frames, Until(RawFrames(Source(line + rest, source.fails)), accepts))
  }

  lemma ReadingStart(source: Source, accepts: Frame -> bool)
    ensures Reading(source, accepts, [], [], source.data)
  {
    hide Until, RawFrames;
    BeforeNothing(Until(RawFrames(source), accepts));
    assert [] + source.data == source.data;
  }

  lemma ReadingMore(source: Source, accepts: Frame -> bool, frames: seq<Frame>, line: Bytes, chunk: Bytes, rest: Bytes)
    requires Reading(source, accepts, frames, line, rest) && chunk <= rest
    ensures Reading(source, accepts, frames, line + chunk, rest[|chunk|..])
  {
    hide Until, RawFrames, Before;
    assert rest == chunk + rest[|chunk|..];
    assert line + rest == (line + chunk) + rest[|chunk|..];
  }

  lemma ReadingLine(source: Source, accepts: Frame -> bool, frames: seq<Frame>, line: Bytes, rest: Bytes)
    requires Reading(source, accepts, frames, line, rest)
    requires line != [] && line[|line| - 1] == NEWLINE && OneLine(line) && |line| <= MAX_PAYLOAD
    ensures var frame := Frame(Stdout, line);
            if accepts(frame) then Reading(source, accepts, frames + [frame], [], rest)
            else Until(RawFrames(source), accepts) == Outcome(frames + [frame], Refused)
  {
    hide Until, RawFrames, Before;
    RawLine(line, rest, source.fails);
    HandOut(frames, Frame(Stdout, line), RawFrames(Source(rest, source.fails)), accepts);
    assert [] + rest == rest;
  }

  lemma ReadingTooLong(source: Source, accepts: Frame -> bool, frames: seq<Frame>, line: Bytes, rest: Bytes)
    requires Reading(source, accepts, frames, line, rest) && |line| > MAX_PAYLOAD && OneLine(line)
    ensures Until(RawFrames(source), accepts) == Outcome(frames, TooLarge)
  {
    hide RawFrames;
    RawTooLong(line, rest, source.fails);
  }

  lemma ReadingEnd(source: Source, accepts: Frame -> bool, frames: seq<Frame>, line: Bytes)
    requires Reading(source, accepts, frames, line, []) && |line| <= MAX_PAYLOAD && NEWLINE !in line
    ensures Until(RawFrames(source), accepts)
         == if source.fails then Outcome(frames, ReadFailed)
            else if line == [] then Outcome(frames, Finished)
            else Outcome(frames + [Frame(Stdout, line)], if accepts(Frame(Stdout, line)) then Finished else Refused)
  {
    hide RawFrames;
    assert line + [] == line && frames + [] == frames;
    RawRemainder(line, source.fails);
    HandOut(frames, Frame(Stdout, line), Outcome([], Finished), accepts);
    assert Before([Frame(Stdout, line)], Outcome([], Finished)) == Outcome([Frame(Stdout, line)], Finished);
  }

  /** Raw streaming. The outcome depends on the input alone, not on how the
      reader cuts it into chunks. */
  method StreamRawDockerFrames(source: Source, chunks: seq<Bytes>, accepts: Frame -> bool)
    returns (frames: seq<Frame>, end: End)
    requires Slices(chunks, source.data)
    ensures Outcome(frames, end) == Until(RawFrames(source), accepts)
  {
    hide Until, RawFrames, Reading, Slices, Flatten, OneLine;
    frames := [];
    var line: Bytes := [];
    ghost var rest := source.data;
    ReadingStart(source, accepts);
    assert chunks[0..] == chunks;
    for i := 0 to |chunks|
      invariant |line| <= MAX_PAYLOAD && NEWLINE !in line && Slices(chunks[i..], rest)
      invariant Reading(source, accepts, frames, line, rest)
    {
      var chunk := chunks[i];
      NextSlice(line, chunks[i..], rest);
      assert chunks[i..][1..] == chunks[i + 1..];
      ReadingMore(source, accepts, frames, line, chunk, rest);
      rest := rest[|chunk|..];
      if |line| + |chunk| > MAX_PAYLOAD {
        ReadingTooLong(source, accepts, frames, line + chunk, rest);
        return frames, TooLarge;
      }
      line := line + chunk;
      if chunk[|chunk| - 1] == NEWLINE {
        var frame := Frame(Stdout, line);
        ReadingLine(source, accepts, frames, line, rest);
        frames := frames + [frame];
        if !accepts(frame) {
          return frames, Refused;
        }
        line := [];
      }
    }
    NothingLeft(chunks[|chunks|..], rest);
    ReadingEnd(source, accepts, frames, line);
    if source.fails {
      return frames, ReadFailed;
    }
    if |line| > 0 {
      var frame := Frame(Stdout, line);
      frames := frames + [frame];
      return frames, if accepts(frame) then Finished else Refused;
    }
    end := Finished;
  }

  lemma NothingLeft(chunks: seq<Bytes>, data: Bytes)
    requires chunks == [] && Slices(chunks, data)
    ensures data == []
  {}

  /** One ReadSlice: the pending line grows by a chunk that a newline may end. */
  lemma NextSlice(line: Bytes, chunks: seq<Bytes>, data: Bytes)
    requires chunks != [] && Slices(chunks, data) && NEWLINE !in line
    ensures chunks[0] != [] && chunks[0] <= data && Slices(chunks[1..], data[|chunks[0]|..])
    ensures OneLine(line + chunks[0])
    ensures chunks[0][|chunks[0]| - 1] != NEWLINE ==> NEWLINE !in line + chunks[0]
  {
    assert chunks[0] in chunks;
    assert data[|chunks[0]|..] == Flatten(chunks[1..]);
  }

  lemma RawTooLong(line: Bytes, rest: Bytes, fails: bool)
    requires |line| > MAX_PAYLOAD && OneLine(line)
    ensures RawFrames(Source(line + rest, fails)) == Outcome([], TooLarge)
  {
    LineOf(line, rest);
  }

  lemma RawRemainder(line: Bytes, fails: bool)
    requires |line| <= MAX_PAYLOAD && NEWLINE !in line
    ensures fails ==> RawFrames(Source(line, fails)) == Outcome([], ReadFailed)
    ensures !fails ==>
              RawFrames(Source(line, fails)) == Outcome(if line == [] then [] else [Frame(Stdout, line)], Finished)
  {
    if line != [] {
      LineOf(line, []);
      assert line + [] == line && line[..|line|] == line && line[|line|..] == [];
      assert line[|line| - 1] in line;
    }
  }

  // ---- what the raw frames are --------------------------------------------------------------

  /** Nonempty pieces that add up to `data`, a newline at the end of each and
      nowhere else; only the last may lack it. */
  ghost predicate NewlineSplit(pieces: seq<Bytes>, data: Bytes) {
    && Flatten(pieces) == data
    && (forall p :: p in pieces ==> p != [] && forall i :: 0 <= i < |p| - 1 ==> p[i] != NEWLINE)
    && forall k :: 0 <= k < |pieces| - 1 ==> pieces[k] != [] && pieces[k][|pieces[k]| - 1] == NEWLINE
  }

  function DataOf(frames: seq<Frame>): seq<Bytes> {
    seq(|frames|, i requires 0 <= i < |frames| => frames[i].data)
  }

  /** The delivered frames are a beginning of the input; when nothing failed they
      are its newline split. */
  lemma {:induction false} RawFramesSplit(s: Source)
    ensures var Outcome(frames, end) := RawFrames(s);
            && Flatten(DataOf(frames)) <= s.data
            && (end == Finished ==> NewlineSplit(DataOf(frames), s.data))
            && (end == Finished ==> forall f :: f in frames ==> f.stream == Stdout && |f.data| <= MAX_PAYLOAD)
    decreases |s.data|
  {
    hide NewlineSplit, Flatten, LineLength;
      var Outcome(frames, end) := RawFrames(s);
    if frames != [] {
      var n := LineLength(s.data);
      var rest := Source(s.data[n..], s.fails);
      RawFramesSplit(rest);
      var pieces := DataOf(frames);
      assert pieces[1..] == DataOf(RawFrames(rest).frames);
      assert pieces[0] == s.data[..n];
      if n < |s.data| {
        assert pieces[0][n - 1] == NEWLINE;
      }
      SplitCons(pieces, s.data, n, end == Finished);
    } else {
      NoPieces();
      assert DataOf(frames) == [];
    }
  }

  lemma NoPieces()
    ensures Flatten([]) == [] && NewlineSplit([], [])
  {}

  lemma FlattenFirst(chunks: seq<Bytes>)
    requires chunks != []
    ensures Flatten(chunks) == chunks[0] + Flatten(chunks[1..])
  {}

  lemma SplitCons(pieces: seq<Bytes>, data: Bytes, n: nat, whole: bool)
    requires 0 < n <= |data| && pieces != [] && pieces[0] == data[..n]
    requires forall i :: 0 <= i < n - 1 ==> data[i] != NEWLINE
    requires n < |data| ==> data[n - 1] == NEWLINE
    requires Flatten(pieces[1..]) <= data[n..]
    requires whole ==> NewlineSplit(pieces[1..], data[n..])
    ensures Flatten(pieces) <= data
    ensures whole ==> NewlineSplit(pieces, data)
  {
    hide Flatten;
    FlattenFirst(pieces);
    assert data == data[..n] + data[n..];
    if whole {
      var tail := pieces[1..];
      assert forall p :: p in pieces ==> p == pieces[0] || p in tail;
      if tail != [] {
        FlattenFirst(tail);
        assert tail[0] in tail && |Flatten(tail)| > 0;
      }
      forall k | 0 <= k < |pieces| - 1 ensures pieces[k] != [] && pieces[k][|pieces[k]| - 1] == NEWLINE {
        if k > 0 {
          assert pieces[k] == tail[k - 1];
        }
      }
    }
  }

  /** There is only one newline split. */
  lemma {:induction false} SplitIsUnique(a: seq<Bytes>, b: seq<Bytes>, data: Bytes)
    requires NewlineSplit(a, data) && NewlineSplit(b, data)
    ensures a == b
  {
    if a == [] || b == [] {
      EmptySplit(a, data);
      EmptySplit(b, data);
    } else {
      FirstPiece(a, data);
      FirstPiece(b, data);
      SplitIsUnique(a[1..], b[1..], data[LineLength(data)..]);
      assert a == [a[0]] + a[1..] && b == [b[0]] + b[1..];
    }
  }

  lemma RawNothing()
    ensures RawFrames(Source([], false)) == Outcome([], Finished)
  {}

  lemma RawFirst(data: Bytes)
    requires data != [] && LineLength(data) <= MAX_PAYLOAD
    ensures var n := LineLength(data);
            RawFrames(Source(data, false)) == Before([Frame(Stdout, data[..n])], RawFrames(Source(data[n..], false)))
  {}

  /** Input whose lines are all within the limit is delivered line by line. */
  lemma {:induction false} LinesAreDelivered(pieces: seq<Bytes>, data: Bytes)
    requires NewlineSplit(pieces, data) && forall p :: p in pieces ==> |p| <= MAX_PAYLOAD
    ensures RawFrames(Source(data, false)).end == Finished && DataOf(RawFrames(Source(data, false)).frames) == pieces
  {
    hide NewlineSplit, LineLength, RawFrames;
    EmptySplit(pieces, data);
    if pieces == [] {
      RawNothing();
    } else {
      var n := LineLength(data);
      FirstPiece(pieces, data);
      assert pieces[0] in pieces && forall p :: p in pieces[1..] ==> p in pieces;
      LinesAreDelivered(pieces[1..], data[n..]);
      RawFirst(data);
      DataOfMore(Frame(Stdout, pieces[0]), RawFrames(Source(data[n..], false)).frames);
      assert pieces == [pieces[0]] + pieces[1..];
    }
  }

  lemma DataOfMore(frame: Frame, frames: seq<Frame>)
    ensures DataOf([frame] + frames) == [frame.data] + DataOf(frames)
  {}

  lemma EmptySplit(a: seq<Bytes>, data: Bytes)
    requires NewlineSplit(a, data)
    ensures a == [] <==> data == []
  {
    if a != [] {
      assert a[0] in a;
    }
  }

  lemma FirstPiece(a: seq<Bytes>, data: Bytes)
    requires NewlineSplit(a, data) && a != []
    ensures a[0] == data[..LineLength(data)] && NewlineSplit(a[1..], data[LineLength(data)..])
  {
    var rest := Flatten(a[1..]);
    assert a[0] in a;
    LineOf(a[0], rest);
    if |a| == 1 {
      assert rest == [];
    }
    assert LineLength(data) == |a[0]|;
    assert data[..|a[0]|] == a[0] && data[|a[0]|..] == rest;
    assert forall p :: p in a[1..] ==> p in a;
    assert forall k :: 0 <= k < |a| - 2 ==> a[1..][k] == a[k + 1];
  }

  // ---- multiplexed frames ----------------------------------------------------------------------

  predicate IsDockerMultiplexed(header: Bytes) {
    |header| >= 8 && (header[0] == 1 || header[0] == 2) && header[1] == 0 && header[2] == 0 && header[3] == 0
  }

  function BigEndian(bytes: Bytes): nat {
    if bytes == [] then 0 else BigEndian(bytes[..|bytes| - 1]) * 0x100 + bytes[|bytes| - 1]
  }

  function LengthOf(header: Bytes): nat
    requires |header| >= 8
  {
    BigEndian(header[4..8])
  }

  function StreamOf(header: Bytes): Stream
    requires |header| >= 8
  {
    if header[0] == 2 then Stderr else Stdout
  }

  datatype Next = Stop(end: End) | Got(frame: Frame, size: nat)

  /** The frame at the reader's position. `total` counts the payload bytes
      already taken, `cut` is the end when the input ends inside a payload. */
  function NextFrame(s: Source, at: nat, total: nat, cut: End): (next: Next)
    requires at <= |s.data|
    ensures next.Got? ==> at + 8 <= at + next.size <= |s.data|
  {
    if |s.data| - at < 8 then Stop(if s.fails then ReadFailed else Finished)
    else
      var header := s.data[at..at + 8];
      var length := LengthOf(header);
      if length > MAX_PAYLOAD || total + length > MAX_PAYLOAD then Stop(TooLarge)
      else if |s.data| - at - 8 < length then Stop(if s.fails then ReadFailed else cut)
      else Got(Frame(StreamOf(header), s.data[at + 8..at + 8 + length]), 8 + length)
  }

  /** Frames of a multiplexed input. The follower limits each payload, and one
      that ends inside a frame delivers the frames before it; the batch reader
      limits the payloads together, and a cut payload is an error. */
  function MuxFrames(s: Source, at: nat, batch: bool, total: nat): Outcome
    requires at <= |s.data|
    decreases |s.data| - at
  {
    match NextFrame(s, at, total, if batch then Truncated else Finished)
    case Stop(end) => Outcome([], end)
    case Got(frame, size) =>
      Before([frame], MuxFrames(s, at + size, batch, if batch then total + |frame.data| else total))
  }

  /** The reader moves past a whole frame. */
  lemma MuxStep(s: Source, at: nat, batch: bool, total: nat, frame: Frame, next: nat)
    requires at <= next && at <= |s.data|
    requires NextFrame(s, at, total, if batch then Truncated else Finished) == Got(frame, next - at)
    ensures MuxFrames(s, at, batch, total)
         == Before([frame], MuxFrames(s, next, batch, if batch then total + |frame.data| else total))
  {}

  function StreamFrames(s: Source): Outcome {
    if |s.data| < 8 && s.fails then Outcome([], ReadFailed)
    else if !IsDockerMultiplexed(s.data) then RawFrames(s)
    else MuxFrames(s, 0, false, 0)
  }

  /** The loop over the frames of a multiplexed stream. */
  method FollowFrames(source: Source, accepts: Frame -> bool) returns (frames: seq<Frame>, end: End)
    ensures Outcome(frames, end) == Until(MuxFrames(source, 0, false, 0), accepts)
  {
    hide LengthOf, StreamOf;
    frames := [];
    var at := 0;
    ghost var all := Until(MuxFrames(source, 0, false, 0), accepts);
    BeforeNothing(all);
    while true
      invariant at <= |source.data|
      invariant all == Before(frames, Until(MuxFrames(source, at, false, 0), accepts))
      decreases |source.data| - at
    {
      if |source.data| - at < 8 {
        return frames, if source.fails then ReadFailed else Finished;
      }
      var header := source.data[at..at + 8];
      var length := LengthOf(header);
      if length > MAX_PAYLOAD {
        return frames, TooLarge;
      }
      if |source.data| - at - 8 < length {
        return frames, if source.fails then ReadFailed else Finished;
      }
      var next := at + 8 + length;
      var frame := Frame(StreamOf(header), source.data[at + 8..next]);
      MuxStep(source, at, false, 0, frame, next);
      HandOut(frames, frame, MuxFrames(source, next, false, 0), accepts);
      frames := frames + [frame];
      if !accepts(frame) {
        return frames, Refused;
      }
      at := next;
    }
  }

  method StreamDockerFrames(source: Source, chunks: seq<Bytes>, accepts: Frame -> bool)
    returns (frames: seq<Frame>, end: End)
    requires Slices(chunks, source.data)
    ensures Outcome(frames, end) == Until(StreamFrames(source), accepts)
  {
    var peek := if |source.data| < 8 then source.data else source.data[..8];
    if |peek| < 8 && source.fails {
      return [], ReadFailed;
    }
    if |peek| < 8 || !IsDockerMultiplexed(peek) {
      frames, end := StreamRawDockerFrames(source, chunks, accepts);
    } else {
      frames, end := FollowFrames(source, accepts);
    }
  }

  function ReadFrames(s: Source): Outcome {
    if |s.data| < 8 && s.fails then Outcome([], ReadFailed)
    else if !IsDockerMultiplexed(s.data) then
      if |s.data| > MAX_PAYLOAD then Outcome([], TooLarge)
      else Outcome([Frame(Stdout, s.data)], if s.fails then ReadFailed else Finished)
    else MuxFrames(s, 0, true, 0)
  }

  /** The batch reader with the frames it has so far. */
  function Collected(s: Source, at: nat, total: nat, done: seq<Frame>): Outcome
    requires at <= |s.data|
    decreases |s.data| - at
  {
    match NextFrame(s, at, total, Truncated)
    case Stop(end) => Outcome(done, end)
    case Got(frame, size) => Collected(s, at + size, total + |frame.data|, done + [frame])
  }

  lemma {:induction false} CollectedIsMux(s: Source, at: nat, total: nat, done: seq<Frame>)
    requires at <= |s.data|
    ensures Collected(s, at, total, done) == Before(done, MuxFrames(s, at, true, total))
    decreases |s.data| - at
  {
    hide NextFrame;
    match NextFrame(s, at, total, Truncated)
    case Stop(end) =>
      assert done + [] == done;
    case Got(frame, size) =>
      CollectedIsMux(s, at + size, total + |frame.data|, done + [frame]);
      BeforeTwice(done, [frame], MuxFrames(s, at + size, true, total + |frame.data|));
  }

  lemma CollectedStep(s: Source, at: nat, total: nat, done: seq<Frame>)
    requires at <= |s.data|
    ensures Collected(s, at, total, done)
         == match NextFrame(s, at, total, Truncated)
            case Stop(end) => Outcome(done, end)
            case Got(frame, size) => Collected(s, at + size, total + |frame.data|, done + [frame])
  {}

  /** The loop of the batch reader. */
  method CollectFrames(source: Source) returns (frames: seq<Frame>, end: End)
    ensures Outcome(frames, end) == Collected(source, 0, 0, [])
  {
    hide Collected, LengthOf, StreamOf;
    frames := [];
    var at, total: nat := 0, 0;
    while true
      invariant at <= |source.data|
      invariant Collected(source, at, total, frames) == Collected(source, 0, 0, [])
      decreases |source.data| - at
    {
      CollectedStep(source, at, total, frames);
      if |source.data| - at < 8 {
        return frames, if source.fails then ReadFailed else Finished;
      }
      var header := source.data[at..at + 8];
      var length := LengthOf(header);
      if length > MAX_PAYLOAD || total + length > MAX_PAYLOAD {
        return frames, TooLarge;
      }
      if |source.data| - at - 8 < length {
        return frames, if source.fails then ReadFailed else Truncated;
      }
      var next := at + 8 + length;
      frames := frames + [Frame(StreamOf(header), source.data[at + 8..next])];
      total := total + length;
      at := next;
    }
  }

  method ReadDockerFrames(source: Source) returns (frames: seq<Frame>, end: End)
    ensures Outcome(frames, end) == ReadFrames(source)
  {
    var peek := if |source.data| < 8 then source.data else source.data[..8];
    if |peek| < 8 && source.fails {
      return [], ReadFailed;
    }
    if |peek| < 8 || !IsDockerMultiplexed(peek) {
      if |source.data| > MAX_PAYLOAD {
        return [], TooLarge;
      }
      return [Frame(Stdout, source.data)], if source.fails then ReadFailed else Finished;
    }
    CollectedIsMux(source, 0, 0, []);
    BeforeNothing(MuxFrames(source, 0, true, 0));
    frames, end := CollectFrames(source);
  }

  // ---- the encoder, and round trips -----------------------------------------------------------------

  function Header(f: Frame): (h: Bytes)
    requires |f.data| <= MAX_PAYLOAD
    ensures |h| == 8
  {
    var n := |f.data|;
    [if f.stream == Stderr then 2 else 1, 0, 0, 0,
     n / 0x100_0000, n / 0x1_0000 % 0x100, n / 0x100 % 0x100, n % 0x100]
  }

  lemma BigEndianFour(b: Bytes)
    requires |b| == 4
    ensures BigEndian(b) == ((b[0] as int * 0x100 + b[1]) * 0x100 + b[2]) * 0x100 + b[3]
  {
    assert b[..3][..2] == b[..2] && b[..2][..1] == b[..1] && b[..1][..0] == [];
    assert BigEndian(b[..1]) == b[0];
    assert BigEndian(b[..2]) == b[0] as int * 0x100 + b[1];
  }

  lemma DivideOn(n: nat)
    ensures n / 0x1_0000 == n / 0x100 / 0x100 && n / 0x100_0000 == n / 0x1_0000 / 0x100
  {}

  lemma BigEndianOf(n: nat, b: Bytes)
    requires |b| == 4 && n < 0x1_0000_0000
    requires b[0] == n / 0x100_0000 && b[1] == n / 0x1_0000 % 0x100
    requires b[2] == n / 0x100 % 0x100 && b[3] == n % 0x100
    ensures BigEndian(b) == n
  {
    hide BigEndian;
    BigEndianFour(b);
    DivideOn(n);
    var high, middle := n / 0x1_0000, n / 0x100;
    assert b[0] as int * 0x100 + b[1] == high;
    assert high * 0x100 + b[2] == middle;
    assert middle * 0x100 + b[3] == n;
  }

  lemma HeaderSays(f: Frame, rest: Bytes)
    requires |f.data| <= MAX_PAYLOAD
    ensures IsDockerMultiplexed(Header(f) + rest)
    ensures LengthOf(Header(f) + rest) == |f.data| && StreamOf(Header(f) + rest) == f.stream
  {
    assert (Header(f) + rest)[4..8] == Header(f)[4..8];
    BigEndianOf(|f.data|, Header(f)[4..8]);
  }

  ghost predicate Fits(frames: seq<Frame>) {
    forall f :: f in frames ==> |f.data| <= MAX_PAYLOAD
  }

  function Encode(frames: seq<Frame>): Bytes
    requires Fits(frames)
  {
    if frames == [] then []
    else
      assert Fits(frames[1..]);
      Header(frames[0]) + frames[0].data + Encode(frames[1..])
  }

  /** How many frames end within the first `n` bytes. */
  function CompleteIn(frames: seq<Frame>, n: nat): (k: nat)
    ensures k <= |frames|
  {
    if frames == [] || n < 8 + |frames[0].data| then 0 else 1 + CompleteIn(frames[1..], n - 8 - |frames[0].data|)
  }

  function TotalPayload(frames: seq<Frame>): nat {
    if frames == [] then 0 else |frames[0].data| + TotalPayload(frames[1..])
  }

  /** Whether the first `n` bytes end after a header and before the end of its payload. */
  predicate PayloadCut(frames: seq<Frame>, n: nat) {
    frames != [] && n >= 8 &&
    (n < 8 + |frames[0].data| || PayloadCut(frames[1..], n - 8 - |frames[0].data|))
  }

  /** The reader in front of one encoded frame, or of a part of it. */
  lemma NextOfHeader(s: Source, at: nat, f: Frame, total: nat, cut: End)
    requires total + |f.data| <= MAX_PAYLOAD && !s.fails
    requires at + 8 <= |s.data| && s.data[at..at + 8] == Header(f)
    ensures NextFrame(s, at, total, cut)
         == if |s.data| - at - 8 < |f.data| then Stop(cut)
            else Got(Frame(f.stream, s.data[at + 8..at + 8 + |f.data|]), 8 + |f.data|)
  {
    HeaderSays(f, []);
    assert Header(f) + [] == Header(f);
  }

  lemma EncodeFirst(frames: seq<Frame>)
    requires Fits(frames) && frames != [] && Fits(frames[1..])
    ensures Encode(frames) == Header(frames[0]) + frames[0].data + Encode(frames[1..])
    ensures |Header(frames[0])| == 8
  {}

  lemma SplitPrefix(h: Bytes, d: Bytes, rest: Bytes, part: Bytes)
    requires part <= h + d + rest && |part| >= |h|
    ensures part[..|h|] == h
    ensures |part| >= |h| + |d| ==> part[|h|..|h| + |d|] == d && part[|h| + |d|..] <= rest
  {
    var whole := h + d + rest;
    assert part == whole[..|part|] && whole[..|h|] == h;
    if |part| >= |h| + |d| {
      assert whole[|h|..|h| + |d|] == d;
      assert part[|h| + |d|..] == rest[..|part| - |h| - |d|];
    }
  }

  /** Input that begins an encoding, at its first header and past it. */
  lemma PastHeader(frames: seq<Frame>, data: Bytes, at: nat)
    requires Fits(frames) && frames != [] && Fits(frames[1..]) && at + 8 <= |data| && data[at..] <= Encode(frames)
    ensures data[at..at + 8] == Header(frames[0])
    ensures |data| - at - 8 >= |frames[0].data| ==>
              var next := at + 8 + |frames[0].data|;
              data[at + 8..next] == frames[0].data && data[next..] <= Encode(frames[1..])
  {
    EncodeFirst(frames);
    hide Encode, Header, Fits;
    var f, part := frames[0], data[at..];
    SplitPrefix(Header(f), f.data, Encode(frames[1..]), part);
    assert part[..8] == data[at..at + 8];
    if |part| >= 8 + |f.data| {
      assert part[8..8 + |f.data|] == data[at + 8..at + 8 + |f.data|];
      assert part[8 + |f.data|..] == data[at + 8 + |f.data|..];
    }
  }

  /** What a decoder makes of the first `n` bytes of the encoding. */
  function Expected(frames: seq<Frame>, n: nat, cut: End): Outcome {
    if frames == [] || n < 8 then Outcome([], Finished)
    else if n - 8 < |frames[0].data| then Outcome([], cut)
    else Before([frames[0]], Expected(frames[1..], n - 8 - |frames[0].data|, cut))
  }

  /** Without a whole header there is no frame. */
  lemma ShortMux(s: Source, at: nat, frames: seq<Frame>, batch: bool, total: nat)
    requires Fits(frames) && !s.fails && at <= |s.data| && s.data[at..] <= Encode(frames)
    requires frames == [] || |s.data| - at < 8
    ensures MuxFrames(s, at, batch, total) == Outcome([], Finished) && (frames == [] ==> |s.data| == at)
  {}

  lemma {:induction false} MuxOfPrefix(s: Source, at: nat, frames: seq<Frame>, batch: bool, total: nat)
    requires Fits(frames) && !s.fails && at <= |s.data| && s.data[at..] <= Encode(frames)
    requires if batch then total + TotalPayload(frames) <= MAX_PAYLOAD else total == 0
    ensures MuxFrames(s, at, batch, total) == Expected(frames, |s.data| - at, if batch then Truncated else Finished)
    decreases |frames|
  {
    hide NextFrame, Encode, Header;
    if frames == [] || |s.data| - at < 8 {
      ShortMux(s, at, frames, batch, total);
    } else {
      var f, cut := frames[0], if batch then Truncated else Finished;
      var next := at + 8 + |f.data|;
      assert Fits(frames[1..]);
      PastHeader(frames, s.data, at);
      NextOfHeader(s, at, f, total, cut);
      if next <= |s.data| {
        var taken := if batch then total + |f.data| else total;
        MuxOfPrefix(s, next, frames[1..], batch, taken);
        MuxStep(s, at, batch, total, f, next);
      }
    }
  }

  /** The frames complete in the bytes, and for a payload cut short the error. */
  lemma {:induction false} ExpectedIsComplete(frames: seq<Frame>, n: nat, cut: End)
    ensures Expected(frames, n, cut)
         == Outcome(frames[..CompleteIn(frames, n)], if PayloadCut(frames, n) then cut else Finished)
  {
    if frames == [] || n < 8 + |frames[0].data| {
    } else {
      var m := n - 8 - |frames[0].data|;
      ExpectedIsComplete(frames[1..], m, cut);
      assert frames[..CompleteIn(frames, n)] == [frames[0]] + frames[1..][..CompleteIn(frames[1..], m)];
    }
  }

  lemma {:induction false} WholeIsNotCut(frames: seq<Frame>)
    requires Fits(frames)
    ensures !PayloadCut(frames, |Encode(frames)|)
  {
    if frames == [] {
    } else {
      assert Fits(frames[1..]);
      WholeIsNotCut(frames[1..]);
    }
  }

  /** CompleteIn finds the longest list of frames whose encoding fits in `n` bytes. */
  lemma {:induction false} CompleteIsLargest(frames: seq<Frame>, n: nat, k: nat)
    requires Fits(frames) && k <= |frames|
    ensures Fits(frames[..k]) && (k <= CompleteIn(frames, n) <==> |Encode(frames[..k])| <= n)
  {
    if k == 0 {
    } else {
      var f := frames[0];
      assert Fits(frames[1..]) && frames[..k][1..] == frames[1..][..k - 1];
      assert Fits(frames[..k]) && Fits(frames[..k][1..]);
      assert |Encode(frames[..k])| == 8 + |f.data| + |Encode(frames[1..][..k - 1])|;
      if n >= 8 + |f.data| {
        CompleteIsLargest(frames[1..], n - 8 - |f.data|, k - 1);
      }
    }
  }

  lemma {:induction false} AllComplete(frames: seq<Frame>)
    requires Fits(frames)
    ensures CompleteIn(frames, |Encode(frames)|) == |frames|
  {
    if frames == [] {
    } else {
      assert Fits(frames[1..]);
      AllComplete(frames[1..]);
    }
  }

  lemma DecodePrefix(frames: seq<Frame>, n: nat, batch: bool)
    requires Fits(frames) && n <= |Encode(frames)| && (batch ==> TotalPayload(frames) <= MAX_PAYLOAD)
    ensures MuxFrames(Source(Encode(frames)[..n], false), 0, batch, 0)
         == Outcome(frames[..CompleteIn(frames, n)], if batch && PayloadCut(frames, n) then Truncated else Finished)
    ensures n == |Encode(frames)| ==>
              MuxFrames(Source(Encode(frames)[..n], false), 0, batch, 0) == Outcome(frames, Finished)
  {
    var part := Encode(frames)[..n];
    assert part[0..] == part;
    MuxOfPrefix(Source(part, false), 0, frames, batch, 0);
    ExpectedIsComplete(frames, n, if batch then Truncated else Finished);
    AllComplete(frames);
    WholeIsNotCut(frames);
    assert frames[..|frames|] == frames;
  }

  lemma EncodingIsMultiplexed(frames: seq<Frame>, n: nat)
    requires Fits(frames) && frames != [] && 8 <= n <= |Encode(frames)|
    ensures IsDockerMultiplexed(Encode(frames)[..n])
  {
    assert Fits(frames[1..]);
    HeaderSays(frames[0], Encode(frames)[8..n]);
    assert Encode(frames)[..n] == Header(frames[0]) + Encode(frames)[8..n];
  }

  /** Streaming what Docker wrote gives the frames back; when the connection is
      cut after at least one header, the complete frames and no error. */
  lemma StreamingDeliversCompleteFrames(frames: seq<Frame>, n: nat)
    requires Fits(frames) && frames != [] && 8 <= n <= |Encode(frames)|
    ensures StreamFrames(Source(Encode(frames)[..n], false)) == Outcome(frames[..CompleteIn(frames, n)], Finished)
    ensures n == |Encode(frames)| ==> StreamFrames(Source(Encode(frames)[..n], false)) == Outcome(frames, Finished)
  {
    EncodingIsMultiplexed(frames, n);
    DecodePrefix(frames, n, false);
  }

  /** Cut inside the first header, the bytes are taken for a raw line: shorter
      than eight bytes they are no header, though they hold no frame. */
  lemma CutHeaderBecomesText(frames: seq<Frame>, n: nat)
    requires Fits(frames) && frames != [] && 0 < n < 8
    requires n <= |Encode(frames)|
    ensures var delivered := StreamFrames(Source(Encode(frames)[..n], false)).frames;
            delivered != [] && Payloads(delivered) == Encode(frames)[..n]
  {
    var s := Source(Encode(frames)[..n], false);
    RawIsWhole(s);
  }

  lemma PayloadsMore(frame: Frame, frames: seq<Frame>)
    ensures Payloads([frame] + frames) == frame.data + Payloads(frames)
  {
    assert ([frame] + frames)[1..] == frames;
  }

  lemma {:induction false} RawIsWhole(s: Source)
    requires !s.fails && |s.data| <= MAX_PAYLOAD
    ensures Payloads(RawFrames(s).frames) == s.data && RawFrames(s).end == Finished
    ensures s.data != [] ==> RawFrames(s).frames != []
    decreases |s.data|
  {
    hide LineLength, RawFrames;
    if s.data == [] {
      RawNothing();
    } else {
      var n := LineLength(s.data);
      RawIsWhole(Source(s.data[n..], false));
      RawFirst(s.data);
      PayloadsMore(Frame(Stdout, s.data[..n]), RawFrames(Source(s.data[n..], false)).frames);
      assert s.data == s.data[..n] + s.data[n..];
    }
  }

  /** The batch reader gives back any frames whose payloads fit together. Cut
      short it returns the complete ones, with an error exactly when the cut is
      inside a payload. */
  lemma ReadingGivesFramesBack(frames: seq<Frame>, n: nat)
    requires Fits(frames) && frames != [] && TotalPayload(frames) <= MAX_PAYLOAD && 8 <= n <= |Encode(frames)|
    ensures ReadFrames(Source(Encode(frames)[..n], false))
         == Outcome(frames[..CompleteIn(frames, n)], if PayloadCut(frames, n) then Truncated else Finished)
    ensures n == |Encode(frames)| ==> ReadFrames(Source(Encode(frames)[..n], false)) == Outcome(frames, Finished)
  {
    EncodingIsMultiplexed(frames, n);
    DecodePrefix(frames, n, true);
  }

  lemma {:induction false} NoneComplete(frames: seq<Frame>, n: nat)
    requires n < 8
    ensures CompleteIn(frames, n) == 0
  {}

  /** Exactly which cuts are harmless: none of the bytes, or at least a header. */
  lemma StreamingCuts(frames: seq<Frame>, n: nat)
    requires Fits(frames) && n <= |Encode(frames)|
    ensures StreamFrames(Source(Encode(frames)[..n], false)) == Outcome(frames[..CompleteIn(frames, n)], Finished)
       <==> n == 0 || n >= 8
  {
    if n >= 8 {
      StreamingDeliversCompleteFrames(frames, n);
    } else {
      NoneComplete(frames, n);
      if n > 0 {
        CutHeaderBecomesText(frames, n);
      }
    }
  }

  /** The batch reader gives a frame even for no bytes at all. */
  lemma ReadingCuts(frames: seq<Frame>, n: nat)
    requires Fits(frames) && TotalPayload(frames) <= MAX_PAYLOAD && n <= |Encode(frames)|
    ensures ReadFrames(Source(Encode(frames)[..n], false))
         == Outcome(frames[..CompleteIn(frames, n)], if PayloadCut(frames, n) then Truncated else Finished)
       <==> n >= 8
  {
    if n >= 8 {
      ReadingGivesFramesBack(frames, n);
    } else {
      NoneComplete(frames, n);
    }
  }
}
