/** Where decoding ends early: input that is text, a payload over the limit, and a
    read that fails. */
module FrameLimits {
  import opened Frames

  /** Input that does not begin with a stream byte and three zeros is text. */
  lemma TextIsRaw(s: Source)
    requires |s.data| >= 8
    requires (s.data[0] != 1 && s.data[0] != 2) || s.data[1] != 0 || s.data[2] != 0 || s.data[3] != 0
    ensures StreamFrames(s) == RawFrames(s)
    ensures |s.data| <= 8_388_608 ==>
              ReadFrames(s) == Outcome([Frame(Stdout, s.data)], if s.fails then ReadFailed else Finished)
    ensures |s.data| > 8_388_608 ==> ReadFrames(s) == Outcome([], TooLarge)
  {}

  lemma NextWhole(s: Source, at: nat, f: Frame, total: nat, cut: End)
    requires total + |f.data| <= MAX_PAYLOAD && at + 8 + |f.data| <= |s.data|
    requires s.data[at..at + 8] == Header(f) && s.data[at + 8..at + 8 + |f.data|] == f.data
    ensures NextFrame(s, at, total, cut) == Got(f, 8 + |f.data|)
  {
    HeaderSays(f, []);
    assert Header(f) + [] == Header(f);
  }

  lemma SliceOfSlice(data: Bytes, at: nat, n: nat, i: nat, j: nat)
    requires at + n <= |data| && i <= j <= n
    ensures data[at..at + n][i..j] == data[at + i..at + j]
  {
    var left, right := data[at..at + n][i..j], data[at + i..at + j];
    assert |left| == |right| && forall k :: 0 <= k < |left| ==> left[k] == right[k];
  }

  lemma ThreeParts(h: Bytes, d: Bytes, rest: Bytes)
    ensures var whole := h + d + rest;
            whole[0..|h|] == h && whole[|h|..|h| + |d|] == d && whole[|h| + |d|..|whole|] == rest
  {}

  /** The first frame of an encoding inside other bytes. */
  lemma FirstInside(data: Bytes, at: nat, frames: seq<Frame>)
    requires Fits(frames) && frames != [] && Fits(frames[1..])
    requires at + |Encode(frames)| <= |data| && data[at..at + |Encode(frames)|] == Encode(frames)
    ensures var next := at + 8 + |frames[0].data|;
            next <= |data| && data[at..at + 8] == Header(frames[0]) && data[at + 8..next] == frames[0].data &&
            next + |Encode(frames[1..])| == at + |Encode(frames)| &&
            data[next..next + |Encode(frames[1..])|] == Encode(frames[1..])
  {
    hide Encode, Header;
    EncodeFirst(frames);
    var f, n := frames[0], |Encode(frames)|;
    ThreeParts(Header(f), f.data, Encode(frames[1..]));
    SliceOfSlice(data, at, n, 0, 8);
    SliceOfSlice(data, at, n, 8, 8 + |f.data|);
    SliceOfSlice(data, at, n, 8 + |f.data|, n);
  }

  /** The reader takes every whole frame within the limit, whatever follows. */
  lemma {:induction false} MuxPast(s: Source, at: nat, frames: seq<Frame>, batch: bool, total: nat)
    requires Fits(frames) && at + |Encode(frames)| <= |s.data|
    requires s.data[at..at + |Encode(frames)|] == Encode(frames)
    requires if batch then total + TotalPayload(frames) <= MAX_PAYLOAD else total == 0
    ensures MuxFrames(s, at, batch, total)
         == Before(frames, MuxFrames(s, at + |Encode(frames)|, batch,
                                     if batch then total + TotalPayload(frames) else total))
    decreases |frames|
  {
    hide NextFrame, Header, MuxFrames, Encode, Before;
    if frames == [] {
      EncodeNone();
      BeforeNothing(MuxFrames(s, at, batch, total));
    } else {
      var f, next := frames[0], at + 8 + |frames[0].data|;
      var taken := if batch then total + |f.data| else total;
      assert Fits(frames[1..]);
      FirstInside(s.data, at, frames);
      NextWhole(s, at, f, total, if batch then Truncated else Finished);
      MuxStep(s, at, batch, total, f, next);
      MuxPast(s, next, frames[1..], batch, taken);
      assert frames == [f] + frames[1..];
      BeforeTwice([f], frames[1..], MuxFrames(s, at + |Encode(frames)|, batch,
                                              if batch then total + TotalPayload(frames) else total));
    }
  }

  lemma EncodeNone()
    ensures Fits([]) && Encode([]) == []
  {}

  lemma EncodingInside(frames: seq<Frame>, rest: Bytes, fails: bool, batch: bool)
    requires Fits(frames) && (batch ==> TotalPayload(frames) <= MAX_PAYLOAD)
    ensures MuxFrames(Source(Encode(frames) + rest, fails), 0, batch, 0)
         == Before(frames, MuxFrames(Source(Encode(frames) + rest, fails), |Encode(frames)|, batch,
                                     if batch then TotalPayload(frames) else 0))
  {
    hide Encode, MuxFrames;
    var s := Source(Encode(frames) + rest, fails);
    assert s.data[0..0 + |Encode(frames)|] == Encode(frames);
    MuxPast(s, 0, frames, batch, 0);
  }

  /** A header that announces a payload over the limit ends the decoding behind the
      frames before it: eight mebibytes for a payload when following, for all
      payloads together when reading a batch. */
  lemma OversizedFrame(frames: seq<Frame>, header: Bytes, rest: Bytes, fails: bool, batch: bool)
    requires Fits(frames) && (batch ==> TotalPayload(frames) <= 8_388_608) && |header| == 8
    requires BigEndian(header[4..8]) + (if batch then TotalPayload(frames) else 0) > 8_388_608
    requires frames != [] || IsDockerMultiplexed(header)
    ensures var s := Source(Encode(frames) + header + rest, fails);
            if batch then ReadFrames(s) == Outcome(frames, TooLarge) else StreamFrames(s) == Outcome(frames, TooLarge)
  {
    hide Encode, MuxFrames, BigEndian;
    var s, end := Source(Encode(frames) + (header + rest), fails), |Encode(frames)|;
    assert Encode(frames) + header + rest == s.data;
    EncodingInside(frames, header + rest, fails, batch);
    assert s.data[end..end + 8] == header;
    StopsTooLarge(s, end, header, batch, if batch then TotalPayload(frames) else 0);
    BeginsMultiplexed(frames, header, rest);
  }

  lemma StopsTooLarge(s: Source, at: nat, header: Bytes, batch: bool, total: nat)
    requires at + 8 <= |s.data| && s.data[at..at + 8] == header && BigEndian(header[4..8]) + total > MAX_PAYLOAD
    ensures MuxFrames(s, at, batch, total) == Outcome([], TooLarge)
  {
    hide BigEndian;
  }

  lemma BeginsMultiplexed(frames: seq<Frame>, header: Bytes, rest: Bytes)
    requires Fits(frames) && |header| >= 8 && (frames != [] || IsDockerMultiplexed(header))
    ensures IsDockerMultiplexed(Encode(frames) + (header + rest))
  {
    if frames != [] {
      EncodingIsMultiplexed(frames, |Encode(frames)|);
      assert Encode(frames)[..|Encode(frames)|] == Encode(frames);
    }
  }

  /** A read that fails in front of a header or inside it reports the failure
      behind the frames before it. */
  lemma FailedRead(frames: seq<Frame>, rest: Bytes, batch: bool)
    requires Fits(frames) && frames != [] && (batch ==> TotalPayload(frames) <= MAX_PAYLOAD) && |rest| < 8
    ensures var s := Source(Encode(frames) + rest, true);
            if batch then ReadFrames(s) == Outcome(frames, ReadFailed)
            else StreamFrames(s) == Outcome(frames, ReadFailed)
  {
    hide Encode, MuxFrames;
    var s, end := Source(Encode(frames) + rest, true), |Encode(frames)|;
    EncodingInside(frames, rest, true, batch);
    StopsFailed(s, end, batch, if batch then TotalPayload(frames) else 0);
    LongEnough(frames);
    EncodingIsMultiplexed(frames, end);
    assert s.data[..8] == Encode(frames)[..end][..8];
  }

  lemma LongEnough(frames: seq<Frame>)
    requires Fits(frames) && frames != []
    ensures |Encode(frames)| >= 8
  {
    assert Fits(frames[1..]);
    EncodeFirst(frames);
  }

  lemma StopsFailed(s: Source, at: nat, batch: bool, total: nat)
    requires s.fails && at <= |s.data| < at + 8
    ensures MuxFrames(s, at, batch, total) == Outcome([], ReadFailed)
  {}

  // ---- raw lines ------------------------------------------------------------------------------

  function Joined(lines: seq<Bytes>): Bytes {
    if lines == [] then [] else lines[0] + Joined(lines[1..])
  }

  /** Whole lines: each ends with its one newline. */
  ghost predicate WholeLines(lines: seq<Bytes>) {
    forall line :: line in lines ==> line != [] && OneLine(line) && line[|line| - 1] == NEWLINE
  }

  lemma FirstLine(lines: seq<Bytes>, tail: Bytes)
    requires lines != []
    ensures Joined(lines) + tail == lines[0] + (Joined(lines[1..]) + tail)
    ensures lines == [lines[0]] + lines[1..]
  {
    assert (lines[0] + Joined(lines[1..])) + tail == lines[0] + (Joined(lines[1..]) + tail);
  }

  lemma RestIsWhole(lines: seq<Bytes>)
    requires WholeLines(lines) && lines != []
    ensures WholeLines(lines[1..]) && lines[0] in lines
    ensures forall line :: line in lines[1..] ==> line in lines
  {
    hide OneLine;
  }

  /** A line over the limit ends the stream behind the lines before it. */
  lemma {:induction false} LongLine(lines: seq<Bytes>, long: Bytes, rest: Bytes, fails: bool)
    requires WholeLines(lines) && forall line :: line in lines ==> |line| <= 8_388_608
    requires OneLine(long) && |long| > 8_388_608
    ensures var o := RawFrames(Source(Joined(lines) + (long + rest), fails));
            o.end == TooLarge && DataOf(o.frames) == lines
  {
    hide RawFrames, OneLine, DataOf, Joined;
    if lines == [] {
      RawTooLong(long, rest, fails);
      NoLines(long + rest);
    } else {
      var line, more, tail := lines[0], lines[1..], long + rest;
      FirstLine(lines, tail);
      RestIsWhole(lines);
      LongLine(more, long, rest, fails);
      RawLine(line, Joined(more) + tail, fails);
      DataOfMore(Frame(Stdout, line), RawFrames(Source(Joined(more) + tail, fails)).frames);
    }
  }

  lemma NoLines(tail: Bytes)
    ensures Joined([]) + tail == tail && DataOf([]) == []
  {}

  /** A caller that refuses a frame gets it as the last one; one that refuses none
      gets them all. */
  lemma {:induction false} RefusedIsLast(o: Outcome, accepts: Frame -> bool, k: nat)
    requires k <= |o.frames| && (forall i :: 0 <= i < k ==> accepts(o.frames[i]))
    requires k < |o.frames| ==> !accepts(o.frames[k])
    ensures Until(o, accepts) == if k < |o.frames| then Outcome(o.frames[..k + 1], Refused) else o
    decreases k
  {
    if k == 0 {
    } else {
      var rest := Outcome(o.frames[1..], o.end);
      RefusedIsLast(rest, accepts, k - 1);
      assert o.frames == [o.frames[0]] + rest.frames;
    }
  }
}
