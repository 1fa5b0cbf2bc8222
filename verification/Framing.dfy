// app/rs485-test/src/lib.rs: CRC-framed messages, and streams of them over a
// transport that fragments its transfers.

/** Streams of self-delimiting frames, for any frame format. */
module FramedStream {
  import opened Common
  import opened Transport

  datatype Error<+R> = BadFrame(reason: R) | Io(kind: IoKind)

  datatype Result<+T, +R> = Ok(value: T) | Err(error: Error<R>)

  /** How a format encodes a message, how much follows a header, and what it says of a whole frame. */
  datatype Format<!M, !R> = Format(
    header: nat,
    frame: M -> seq<Byte>,
    rest: seq<Byte> -> Result<nat, R>,
    verdict: seq<Byte> -> Option<R>)

  /** The format recognizes its own encoding of `m`. */
  ghost predicate Recognizes<M, R>(c: Format<M, R>, m: M) {
    var f := c.frame(m);
    && c.header <= |f|
    && c.rest(f[..c.header]) == Ok(|f| - c.header)
    && c.verdict(f) == None
  }

  datatype FrameRead<+R> = FrameRead(result: Result<seq<Byte>, R>, incoming: seq<Byte>, script: seq<Event>)

  /** What reading one frame returns and what it takes from the stream. */
  function ReadOne<M, R>(c: Format<M, R>, script: seq<Event>, incoming: seq<Byte>): FrameRead<R> {
    var h := Transfer(script, c.header, |incoming|, UnexpectedEof);
    if h.error.Some? then FrameRead(Err(Io(h.error.value)), incoming[h.moved..], h.script)
    else match c.rest(incoming[..c.header])
      case Err(e) => FrameRead(Err(e), incoming[c.header..], h.script)
      case Ok(rest) => ReadRest(c, h.script, incoming, rest)
  }

  function ReadRest<M, R>(c: Format<M, R>, script: seq<Event>, incoming: seq<Byte>, rest: nat): FrameRead<R>
    requires c.header <= |incoming|
  {
    var b := Transfer(script, rest, |incoming| - c.header, UnexpectedEof);
    if b.error.Some? then FrameRead(Err(Io(b.error.value)), incoming[c.header + b.moved..], b.script)
    else
      var frame := incoming[..c.header + rest];
      var verdict := c.verdict(frame);
      var result := if verdict.Some? then Err(BadFrame(verdict.value)) else Ok(frame);
      FrameRead(result, incoming[c.header + rest..], b.script)
  }

  function Stream<M, R>(c: Format<M, R>, ms: seq<M>): seq<Byte> {
    if ms == [] then [] else c.frame(ms[0]) + Stream(c, ms[1..])
  }

  function Frames<M, R>(c: Format<M, R>, ms: seq<M>): (fs: seq<seq<Byte>>)
    ensures |fs| == |ms|
  {
    if ms == [] then [] else [c.frame(ms[0])] + Frames(c, ms[1..])
  }

  datatype Sent = Sent(error: Option<IoKind>, bytes: seq<Byte>)

  /** Writing the encodings one after another, up to the first failure. */
  function WriteAll<M, R>(c: Format<M, R>, script: seq<Event>, ms: seq<M>): Sent
    decreases |ms|
  {
    if ms == [] then Sent(None, [])
    else
      var f := c.frame(ms[0]);
      var t := Transfer(script, |f|, |f|, WriteZero);
      if t.error.Some? then Sent(t.error, f[..t.moved])
      else
        var more := WriteAll(c, t.script, ms[1..]);
        Sent(more.error, f + more.bytes)
  }

  datatype Received<+R> = Received(error: Option<Error<R>>, frames: seq<seq<Byte>>, incoming: seq<Byte>)

  /** Reading up to `n` frames, up to the first failure. */
  function ReadMany<M, R>(c: Format<M, R>, script: seq<Event>, incoming: seq<Byte>, n: nat): Received<R>
    decreases n
  {
    if n == 0 then Received(None, [], incoming)
    else
      var one := ReadOne(c, script, incoming);
      if one.result.Err? then Received(Some(one.result.error), [], one.incoming)
      else
        var more := ReadMany(c, one.script, one.incoming, n - 1);
        more.(frames := [one.result.value] + more.frames)
  }

  lemma PrefixOfSum(a: seq<Byte>, b: seq<Byte>, whole: seq<Byte>)
    requires IsPrefix(b, whole)
    ensures IsPrefix(a + b, a + whole)
  {
  }

  /** What was sent is a prefix of the stream, and all of it exactly when no write failed. */
  lemma {:induction false} WritesPrefix<M, R>(c: Format<M, R>, script: seq<Event>, ms: seq<M>)
    ensures var w := WriteAll(c, script, ms);
      && IsPrefix(w.bytes, Stream(c, ms))
      && (w.error.None? <==> w.bytes == Stream(c, ms))
    decreases |ms|
  {
    if ms != [] {
      var f, later := c.frame(ms[0]), Stream(c, ms[1..]);
      var t := Transfer(script, |f|, |f|, WriteZero);
      if t.error.None? {
        WritesPrefix(c, t.script, ms[1..]);
        var more := WriteAll(c, t.script, ms[1..]).bytes;
        PrefixOfSum(f, more, later);
        assert (f + more)[|f|..] == more && (f + later)[|f|..] == later;
      } else {
        assert (f + later)[..t.moved] == f[..t.moved];
        assert |f[..t.moved]| < |f + later|;
      }
    }
  }

  /** A stream that starts with (part of) a frame gives that frame or a transport error. */
  lemma ReadsOneFrame<M, R>(c: Format<M, R>, script: seq<Event>, wire: seq<Byte>, m: M, after: seq<Byte>)
    requires Recognizes(c, m) && IsPrefix(wire, c.frame(m) + after)
    ensures var one := ReadOne(c, script, wire);
      if one.result.Ok? then
        one.result.value == c.frame(m) && |c.frame(m)| <= |wire| && one.incoming == wire[|c.frame(m)|..]
      else one.result.error.Io?
  {
    var f := c.frame(m);
    var h := Transfer(script, c.header, |wire|, UnexpectedEof);
    if h.error.None? {
      assert wire[..c.header] == f[..c.header];
      var rest := |f| - c.header;
      assert ReadOne(c, script, wire) == ReadRest(c, h.script, wire, rest);
      if Transfer(h.script, rest, |wire| - c.header, UnexpectedEof).error.None? {
        assert wire[..|f|] == f;
      }
    }
  }

  /**
   * Whatever the fragmentation, frames come back whole, in order and unchanged, and
   * each read stops at its frame's end.
   */
  lemma {:induction false} ReadsBack<M, R>(
      c: Format<M, R>, script: seq<Event>, wire: seq<Byte>, ms: seq<M>, tail: seq<Byte>)
    requires forall m :: m in ms ==> Recognizes(c, m)
    requires IsPrefix(wire, Stream(c, ms) + tail)
    ensures var r := ReadMany(c, script, wire, |ms|);
      && IsPrefix(r.frames, Frames(c, ms))
      && (r.error.Some? ==> r.error.value.Io?)
      && (r.error.None? ==>
            && r.frames == Frames(c, ms)
            && |Stream(c, ms)| <= |wire| && r.incoming == wire[|Stream(c, ms)|..])
    decreases |ms|
  {
    if ms != [] {
      var f, later := c.frame(ms[0]), Stream(c, ms[1..]);
      assert Stream(c, ms) + tail == f + (later + tail);
      ReadsOneFrame(c, script, wire, ms[0], later + tail);
      var one := ReadOne(c, script, wire);
      if one.result.Ok? {
        assert IsPrefix(one.incoming, later + tail);
        ReadsBack(c, one.script, one.incoming, ms[1..], tail);
        var more := ReadMany(c, one.script, one.incoming, |ms| - 1);
        FramesPrefix(f, more.frames, Frames(c, ms[1..]));
        if more.error.None? {
          assert wire[|f|..][|later|..] == wire[|f| + |later|..];
        }
      }
    }
  }

  lemma FramesPrefix(f: seq<Byte>, some: seq<seq<Byte>>, all: seq<seq<Byte>>)
    requires IsPrefix(some, all)
    ensures IsPrefix([f] + some, [f] + all)
  {
  }

  lemma {:induction false} FramesAt<M, R>(c: Format<M, R>, ms: seq<M>, i: nat)
    requires i < |ms|
    ensures Frames(c, ms)[i] == c.frame(ms[i])
    decreases |ms|
  {
    if i > 0 {
      FramesAt(c, ms[1..], i - 1);
    }
  }

  /** A schedule with a productive turn for every byte lets the sender send everything. */
  lemma {:induction false} WriteCompletes<M, R>(c: Format<M, R>, script: seq<Event>, ms: seq<M>)
    requires Ample(script, |Stream(c, ms)|)
    ensures WriteAll(c, script, ms).error.None?
    decreases |ms|
  {
    if ms != [] {
      var f := c.frame(ms[0]);
      TransferCompletes(script, |f|, |f|, WriteZero);
      WriteCompletes(c, Transfer(script, |f|, |f|, WriteZero).script, ms[1..]);
    }
  }

  lemma ReadOneCompletes<M, R>(c: Format<M, R>, script: seq<Event>, wire: seq<Byte>, m: M, n: nat)
    requires Recognizes(c, m) && IsPrefix(c.frame(m), wire) && Ample(script, |c.frame(m)| + n)
    ensures var one := ReadOne(c, script, wire);
      one.result.Ok? && one.incoming == wire[|c.frame(m)|..] && Ample(one.script, n)
  {
    var f := c.frame(m);
    var h := Transfer(script, c.header, |wire|, UnexpectedEof);
    TransferCompletes(script, c.header, |wire|, UnexpectedEof);
    assert wire[..c.header] == f[..c.header];
    TransferCompletes(h.script, |f| - c.header, |wire| - c.header, UnexpectedEof);
    assert ReadOne(c, script, wire) == ReadRest(c, h.script, wire, |f| - c.header);
    assert wire[..|f|] == f;
  }

  /** And likewise lets the receiver read everything that is there. */
  lemma {:induction false} ReadsComplete<M, R>(c: Format<M, R>, script: seq<Event>, wire: seq<Byte>, ms: seq<M>)
    requires forall m :: m in ms ==> Recognizes(c, m)
    requires wire == Stream(c, ms) && Ample(script, |wire|)
    ensures ReadMany(c, script, wire, |ms|).error.None?
    decreases |ms|
  {
    if ms != [] {
      var f, later := c.frame(ms[0]), Stream(c, ms[1..]);
      assert wire == f + later && wire[|f|..] == later;
      ReadOneCompletes(c, script, wire, ms[0], |later|);
      ReadsComplete(c, ReadOne(c, script, wire).script, later, ms[1..]);
    }
  }

  /**
   * End to end: whatever either side's schedule, the frames received are the first
   * frames sent, only the transport can fail, and when the receiver does not fail it
   * has every frame and the line is empty. It does not fail when neither schedule
   * fails and each has a productive turn for every byte.
   */
  lemma Fidelity<M, R>(c: Format<M, R>, writing: seq<Event>, reading: seq<Event>, ms: seq<M>)
    requires forall m :: m in ms ==> Recognizes(c, m)
    requires c.header > 0
    ensures var w := WriteAll(c, writing, ms);
      var r := ReadMany(c, reading, w.bytes, |ms|);
      && |r.frames| <= |ms|
      && (forall i :: 0 <= i < |r.frames| ==> r.frames[i] == c.frame(ms[i]))
      && (r.error.Some? ==> r.error.value.Io?)
      && (r.error.None? ==> w.error.None? && |r.frames| == |ms| && r.incoming == [])
      && (Ample(writing, |Stream(c, ms)|) && Ample(reading, |Stream(c, ms)|) ==> r.error.None?)
  {
    var w := WriteAll(c, writing, ms);
    WritesPrefix(c, writing, ms);
    if Ample(writing, |Stream(c, ms)|) && Ample(reading, |Stream(c, ms)|) {
      WriteCompletes(c, writing, ms);
      ReadsComplete(c, reading, w.bytes, ms);
    }
    assert Stream(c, ms) + [] == Stream(c, ms);
    ReadsBack(c, reading, w.bytes, ms, []);
    var r := ReadMany(c, reading, w.bytes, |ms|);
    forall i | 0 <= i < |r.frames|
      ensures r.frames[i] == c.frame(ms[i])
    {
      FramesAt(c, ms, i);
    }
  }
}

module Framing {
  import opened Common
  import opened Crc
  import opened FramedStream
  import opened Octets
  import opened Transport

  const MAX_PAYLOAD: nat := 1024
  const HEADER: nat := 10
  const OVERHEAD: nat := 14
  /** "RU48" */
  const MAGIC: seq<Byte> := [0x52, 0x55, 0x34, 0x38]

  datatype Message = Message(sequence: bv32, payload: seq<Byte>)

  datatype Reason = PayloadTooLong | InvalidHeader | InvalidLength | CrcMismatch | LostSynchronization | Oversized

  type Outcome<+T> = Result<T, Reason>

  // ----- the frame format -----

  /** Everything the check value covers. */
  function Covered(m: Message): (s: seq<Byte>)
    ensures |s| == HEADER + |m.payload|
  {
    MAGIC + ToLe32(m.sequence) + ToLe(|m.payload|, 2) + m.payload
  }

  function Frame(m: Message): (f: seq<Byte>)
    ensures |f| == OVERHEAD + |m.payload|
  {
    Covered(m) + ToLe32(Crc32(Covered(m)))
  }

  predicate Sendable(m: Message) {
    |m.payload| <= MAX_PAYLOAD
  }

  /** The length field of anything that starts with a header. */
  function LengthField(s: seq<Byte>): nat
    requires |s| >= HEADER
  {
    FromLe(s[8..HEADER])
  }

  function Decode(frame: seq<Byte>): (r: Outcome<Message>)
    ensures r.Err? ==> r.error.BadFrame?
  {
    if |frame| < OVERHEAD || frame[..4] != MAGIC then Err(BadFrame(InvalidHeader))
    else
      var length := LengthField(frame);
      if length > MAX_PAYLOAD || |frame| != length + OVERHEAD then Err(BadFrame(InvalidLength))
      else
        var end := |frame| - 4;
        if Crc32(frame[..end]) != FromLe32(frame[end..]) then Err(BadFrame(CrcMismatch))
        else Ok(Message(FromLe32(frame[4..8]), frame[HEADER..end]))
  }

  method Encode(sequence: bv32, payload: seq<Byte>) returns (r: Outcome<seq<Byte>>)
    ensures r.Ok? <==> |payload| <= 1024
    ensures |payload| > MAX_PAYLOAD ==> r == Err(BadFrame(PayloadTooLong))
    ensures |payload| <= MAX_PAYLOAD ==> r == Ok(Frame(Message(sequence, payload)))
  {
    if |payload| > MAX_PAYLOAD {
      return Err(BadFrame(PayloadTooLong));
    }
    var frame := MAGIC;
    frame := frame + ToLe32(sequence);
    frame := frame + ToLe(|payload|, 2);
    frame := frame + payload;
    var crc := ComputeCrc32(frame);
    frame := frame + ToLe32(crc);
    return Ok(frame);
  }

  // ----- encode and decode are mutual inverses -----

  /** The fields of a frame, cut at their offsets. */
  lemma FrameFields(m: Message)
    ensures Covered(m)[..4] == MAGIC && Covered(m)[4..8] == ToLe32(m.sequence)
    ensures Covered(m)[8..HEADER] == ToLe(|m.payload|, 2) && Covered(m)[HEADER..] == m.payload
    ensures Frame(m)[..|Frame(m)| - 4] == Covered(m) && Frame(m)[|Frame(m)| - 4..] == ToLe32(Crc32(Covered(m)))
  {
  }

  /** The wire format: "RU48", sequence number, payload length, payload and check value, low bytes first. */
  lemma WireLayout(m: Message)
    requires |m.payload| <= 1024
    ensures var f, end := Frame(m), 10 + |m.payload|;
            && |f| == end + 4
            && f[..4] == [0x52, 0x55, 0x34, 0x38]
            && FromLe32(f[4..8]) == m.sequence
            && f[8] as nat + 256 * f[9] as nat == |m.payload|
            && f[10..end] == m.payload
            && FromLe32(f[end..]) == Crc32(f[..end])
  {
    var c, f, n := Covered(m), Frame(m), |m.payload|;
    FrameFields(m);
    Le32RoundTrip(m.sequence);
    Le32RoundTrip(Crc32(c));
    FrontSlice(c, ToLe32(Crc32(c)), 0, 4);
    FrontSlice(c, ToLe32(Crc32(c)), 4, 8);
    FrontSlice(c, ToLe32(Crc32(c)), 8, 10);
    FrontSlice(c, ToLe32(Crc32(c)), 10, 10 + n);
    LengthBytes(f, n);
  }

  lemma FrontSlice(a: seq<Byte>, b: seq<Byte>, i: nat, j: nat)
    requires i <= j <= |a|
    ensures (a + b)[i..j] == a[i..j]
  {
  }

  lemma TwoDigits(n: nat)
    requires n < 0x1_0000
    ensures n / 1 % 256 + 256 * (n / 256 % 256) == n
  {
  }

  lemma LengthBytes(f: seq<Byte>, n: nat)
    requires |f| >= 10 && f[8..10] == ToLe(n, 2) && n < 0x1_0000
    ensures f[8] as nat + 256 * f[9] as nat == n
  {
    assert f[8] == f[8..10][0] && f[9] == f[8..10][1];
    ByteOrder(n, 2, 0);
    ByteOrder(n, 2, 1);
    assert Range(0) == 1 && Range(1) == 256;
    TwoDigits(n);
  }

  lemma FrameHeader(m: Message)
    requires Sendable(m)
    ensures Frame(m)[..4] == MAGIC && LengthField(Frame(m)) == |m.payload|
  {
    FrameFields(m);
    assert Frame(m)[..4] == Covered(m)[..4];
    assert Frame(m)[8..HEADER] == Covered(m)[8..HEADER];
    Ranges();
    LeRoundTrip(|m.payload|, 2);
  }

  lemma DecodeOfFrame(m: Message)
    requires Sendable(m)
    ensures Decode(Frame(m)) == Ok(m)
  {
    var f := Frame(m);
    FrameFields(m);
    FrameHeader(m);
    Le32RoundTrip(Crc32(Covered(m)));
    Le32RoundTrip(m.sequence);
    assert f[4..8] == Covered(m)[4..8];
    assert f[HEADER..|f| - 4] == Covered(m)[HEADER..];
  }

  lemma CoveredOfParts(s: seq<Byte>, m: Message)
    requires |s| == HEADER + |m.payload| && s[..4] == MAGIC && s[4..8] == ToLe32(m.sequence)
    requires s[8..HEADER] == ToLe(|m.payload|, 2) && s[HEADER..] == m.payload
    ensures s == Covered(m)
  {
  }

  /** Cutting the check value off leaves the other fields where they were. */
  lemma CutFields(f: seq<Byte>, end: nat)
    requires HEADER <= end <= |f|
    ensures f[..end][..4] == f[..4] && f[..end][4..8] == f[4..8]
    ensures f[..end][8..HEADER] == f[8..HEADER] && f[..end][HEADER..] == f[HEADER..end]
    ensures f == f[..end] + f[end..]
  {
  }

  lemma FrameOfDecode(f: seq<Byte>)
    requires Decode(f).Ok?
    ensures Sendable(Decode(f).value) && f == Frame(Decode(f).value)
  {
    var m := Decode(f).value;
    var end := |f| - 4;
    CutFields(f, end);
    LeInverse(f[8..HEADER]);
    Le32Inverse(f[4..8]);
    CoveredOfParts(f[..end], m);
    Le32Inverse(f[end..]);
  }

  /** A byte string decodes to a message exactly when it is the frame of that message. */
  lemma DecodeIff(f: seq<Byte>, m: Message)
    ensures Decode(f) == Ok(m) <==> Sendable(m) && f == Frame(m)
  {
    if Decode(f) == Ok(m) {
      FrameOfDecode(f);
    }
    if Sendable(m) && f == Frame(m) {
      DecodeOfFrame(m);
    }
  }

  /** No frame is a proper prefix of another: truncated and extended frames are rejected. */
  lemma PrefixFree(f: seq<Byte>, g: seq<Byte>)
    requires Decode(f).Ok? && IsPrefix(f, g)
    ensures Decode(g).Ok? <==> g == f
  {
    assert g[8..HEADER] == f[8..HEADER];
  }

  /** Any change inside four consecutive bytes, wherever it falls, makes the decoder reject. */
  lemma BurstRejected(f: seq<Byte>, g: seq<Byte>, p: nat)
    requires Decode(f).Ok? && |g| == |f| && g != f && p + 4 <= |f|
    requires forall i :: 0 <= i < |f| && !(p <= i < p + 4) ==> f[i] == g[i]
    ensures Decode(g).Err?
  {
    assert Guarded(f);
    BurstDetected(f, g, p);
  }

  // ----- frames on a stream -----

  /** What the header says: how many bytes follow it. */
  function RestOf(header: seq<Byte>): Outcome<nat> {
    if |header| < HEADER || header[..4] != MAGIC then Err(BadFrame(LostSynchronization))
    else if LengthField(header) > MAX_PAYLOAD then Err(BadFrame(Oversized))
    else Ok(LengthField(header) + OVERHEAD - HEADER)
  }

  /** A header is out of step, oversized, or says that its payload and four more bytes follow. */
  lemma RestIff(header: seq<Byte>)
    requires |header| == 10
    ensures RestOf(header) ==
            if header[..4] != [0x52, 0x55, 0x34, 0x38] then Err(BadFrame(LostSynchronization))
            else if FromLe(header[8..10]) > 1024 then Err(BadFrame(Oversized))
            else Ok(FromLe(header[8..10]) + 4)
  {
  }

  function Verdict(frame: seq<Byte>): Option<Reason> {
    var d := Decode(frame);
    if d.Err? then Some(d.error.reason) else None
  }

  const RU48: Format<Message, Reason> := Format(HEADER, Frame, RestOf, Verdict)

  lemma FramesRecognized(m: Message)
    requires Sendable(m)
    ensures Recognizes(RU48, m)
  {
    FrameHeader(m);
    DecodeOfFrame(m);
    assert Frame(m)[..HEADER][..4] == Frame(m)[..4] && Frame(m)[..HEADER][8..HEADER] == Frame(m)[8..HEADER];
  }

  /**
   * Messages survive the line: whatever either side's schedule, the receiver decodes
   * the first messages sent, only the transport can fail, and when the receiver does
   * not fail it has every message and the line is empty. With schedules that never
   * fail and have a productive turn for every byte, every message arrives.
   */
  lemma StreamFidelity(writing: seq<Event>, reading: seq<Event>, ms: seq<Message>)
    requires forall m :: m in ms ==> Sendable(m)
    ensures var w := WriteAll(RU48, writing, ms);
      var r := ReadMany(RU48, reading, w.bytes, |ms|);
      && |r.frames| <= |ms|
      && (forall i :: 0 <= i < |r.frames| ==> Decode(r.frames[i]) == Ok(ms[i]))
      && (r.error.Some? ==> r.error.value.Io?)
      && (r.error.None? ==> w.error.None? && |r.frames| == |ms| && r.incoming == [])
      && (Ample(writing, |Stream(RU48, ms)|) && Ample(reading, |Stream(RU48, ms)|) ==>
            w.error.None? && r.error.None? && |r.frames| == |ms|)
  {
    forall m | m in ms
      ensures Recognizes(RU48, m)
    {
      FramesRecognized(m);
    }
    Fidelity(RU48, writing, reading, ms);
    var r := ReadMany(RU48, reading, WriteAll(RU48, writing, ms).bytes, |ms|);
    forall i | 0 <= i < |r.frames|
      ensures Decode(r.frames[i]) == Ok(ms[i])
    {
      DecodeOfFrame(ms[i]);
    }
  }

  /** Reading one frame in this format, case by case. */
  lemma ReadOneFrame(script: seq<Event>, stream: seq<Byte>)
    ensures var h := Transfer(script, HEADER, |stream|, UnexpectedEof);
      if h.error.Some? then
        ReadOne(RU48, script, stream) == FrameRead(Err(Io(h.error.value)), stream[h.moved..], h.script)
      else if RestOf(stream[..HEADER]).Err? then
        ReadOne(RU48, script, stream) == FrameRead(Err(RestOf(stream[..HEADER]).error), stream[HEADER..], h.script)
      else
        ReadOne(RU48, script, stream) == ReadRest(RU48, h.script, stream, RestOf(stream[..HEADER]).value)
  {
  }

  lemma ReadRestOfFrame(script: seq<Event>, stream: seq<Byte>, rest: nat)
    requires |stream| >= HEADER
    ensures var b := Transfer(script, rest, |stream| - HEADER, UnexpectedEof);
      if b.error.Some? then
        ReadRest(RU48, script, stream, rest) == FrameRead(Err(Io(b.error.value)), stream[HEADER + b.moved..], b.script)
      else
        var frame := stream[..HEADER + rest];
        var result := if Decode(frame).Ok? then Ok(frame) else Err(Decode(frame).error);
        ReadRest(RU48, script, stream, rest) == FrameRead(result, stream[HEADER + rest..], b.script)
  {
  }

  method ReadFrame(file: File) returns (r: Outcome<seq<Byte>>)
    modifies file`script, file`incoming
    ensures ReadOne(RU48, old(file.script), old(file.incoming)) == FrameRead(r, file.incoming, file.script)
  {
    ghost var stream := file.incoming;
    ReadOneFrame(file.script, stream);
    var header := new Byte[HEADER];
    var error := file.ReadDeadline(header, 0);
    if error.Some? {
      return Err(Io(error.value));
    }
    assert header[..] == header[..0 + HEADER] == stream[..HEADER];
    assert header[..4] == header[..][..4] && header[8..10] == header[..][8..10];
    if header[..4] != MAGIC {
      return Err(BadFrame(LostSynchronization));
    }
    var length := FromLe(header[8..10]);
    if length > MAX_PAYLOAD {
      return Err(BadFrame(Oversized));
    }
    var frame := new Byte[length + OVERHEAD];
    forall i | 0 <= i < HEADER {
      frame[i] := header[i];
    }
    assert frame[..HEADER] == stream[..HEADER] && file.incoming == stream[HEADER..];
    ReadRestOfFrame(file.script, stream, length + OVERHEAD - HEADER);
    error := file.ReadDeadline(frame, HEADER);
    if error.Some? {
      return Err(Io(error.value));
    }
    TakeMore(stream, HEADER, length + OVERHEAD - HEADER);
    var bytes := frame[..];
    assert bytes == frame[..length + OVERHEAD] == stream[..length + OVERHEAD];
    var decoded := Decode(bytes);
    if decoded.Err? {
      return Err(decoded.error);
    }
    return Ok(bytes);
  }
}
