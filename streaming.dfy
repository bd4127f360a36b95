/**
 * The binary envelope of the streaming websocket, as the two samples parse
 * it. Every frame is laid out as
 *
 *   message id      8 bytes, little-endian unsigned
 *   version         2 bytes, skipped
 *   ref id length   1 byte  (N)
 *   ref id          N bytes
 *   payload format  1 byte  (0 = JSON text; anything else is only warned about)
 *   payload size    4 bytes, little-endian unsigned (M)
 *   payload         M bytes
 *
 * `decode_message` walks a buffer of back-to-back frames with a cursor;
 * `on_message` parses one frame at fixed offsets. Both read byte slices the
 * Python way: a slice past the end is silently shortened, while indexing a
 * single byte past the end raises `IndexError`.
 */
module Streaming {
  import opened Common

  datatype Frame = Frame(messageId: nat, referenceId: seq<byte>, payloadFormat: byte, payload: seq<byte>)

  /** `IndexError` on reading the single byte at `index`. */
  datatype DecodeError = IndexOutOfRange(index: nat)

  /** The frames decoded before the loop ended, and the error that ended it, if any. */
  datatype Decoded = Decoded(frames: seq<Frame>, failure: Option<DecodeError>)

  /** One pass of the loop body: the frame and the cursor after it. */
  datatype Step = Step(frame: Frame, next: nat)

  /** The payload format the samples decode; any other value is only printed as a warning. */
  predicate UnsupportedFormat(f: Frame)
  {
    f.payloadFormat != 0
  }

  /** Python's `m[lo:hi]` for `0 <= lo`: clipped to the end of `m`, empty when `hi <= lo`. */
  function Slice(m: seq<byte>, lo: nat, hi: nat): seq<byte>
  {
    if lo >= |m| || hi <= lo then [] else if hi <= |m| then m[lo..hi] else m[lo..]
  }

  function Pow256(k: nat): (p: nat)
    ensures p >= 1
  {
    if k == 0 then 1 else 256 * Pow256(k - 1)
  }

  /** `int.from_bytes(bs, byteorder="little")`. */
  function LittleEndian(bs: seq<byte>): nat
  {
    if bs == [] then 0 else bs[0] + 256 * LittleEndian(bs[1..])
  }

  /** A little-endian field of `k` bytes holds a number below `256^k`. */
  lemma {:induction false} LittleEndianBound(bs: seq<byte>)
    ensures LittleEndian(bs) < Pow256(|bs|)
  {
    if bs != [] {
      LittleEndianBound(bs[1..]);
    }
  }

  /** `n.to_bytes(k, byteorder="little")`, the writer's side of a size or id field. */
  function ToLittleEndian(n: nat, k: nat): (bs: seq<byte>)
    requires n < Pow256(k)
    ensures |bs| == k
    ensures LittleEndian(bs) == n
  {
    if k == 0 then [] else [n % 256] + ToLittleEndian(n / 256, k - 1)
  }

  /** The message id: `int.from_bytes(m[i:i + 8], "little")`. */
  function MessageIdAt(m: seq<byte>, i: nat): nat
    requires i + 8 <= |m|
  {
    LittleEndian(m[i..i + 8])
  }

  /** The payload size field of the frame at `i` whose ref id has `n` bytes. */
  function PayloadSizeAt(m: seq<byte>, i: nat, n: nat): nat
  {
    LittleEndian(Slice(m, i + 12 + n, i + 16 + n))
  }

  /**
   * One iteration of `decode_message`'s loop from cursor `i`, field by field;
   * it fails exactly where one of the two single-byte reads is out of range.
   */
  function ParseFrameAt(m: seq<byte>, i: nat): (r: Result<Step, DecodeError>)
    ensures r.Ok? ==> r.value.next >= i + 16
  {
    if i + 10 >= |m| then Err(IndexOutOfRange(i + 10))
    else
      var n := m[i + 10];
      if i + 11 + n >= |m| then Err(IndexOutOfRange(i + 11 + n))
      else
        var size := PayloadSizeAt(m, i, n);
        var frame := Frame(MessageIdAt(m, i), m[i + 11..i + 11 + n], m[i + 11 + n], Slice(m, i + 16 + n, i + 16 + n + size));
        Ok(Step(frame, i + 16 + n + size))
  }

  /**
   * The outcome of one step: it fails exactly where one of the two
   * single-byte reads is out of range, and otherwise moves the cursor past
   * a frame whose ref id has the announced length; the cursor lands
   * exactly after the payload unless the payload was cut short.
   */
  lemma ParseFrameOutcome(m: seq<byte>, i: nat)
    ensures ParseFrameAt(m, i).Ok? <==> i + 10 < |m| && i + 11 + m[i + 10] < |m|
    ensures ParseFrameAt(m, i).Err? ==> ParseFrameAt(m, i).error.index == if i + 10 >= |m| then i + 10 else i + 11 + m[i + 10]
    ensures ParseFrameAt(m, i).Ok? ==> var s := ParseFrameAt(m, i).value;
      |s.frame.referenceId| == m[i + 10] && s.frame.messageId < Pow256(8)
      && s.next >= i + 16 + |s.frame.referenceId| + |s.frame.payload|
      && (s.next <= |m| ==> s.next == i + 16 + |s.frame.referenceId| + |s.frame.payload|)
  {
    if i + 10 < |m| {
      LittleEndianBound(m[i..i + 8]);
    }
  }

  /** What `decode_message` yields for the bytes from cursor `i` on. */
  function DecodeFrom(m: seq<byte>, i: nat): (d: Decoded)
    decreases |m| - i
  {
    if i >= |m| then Decoded([], None)
    else match ParseFrameAt(m, i)
      case Err(e) => Decoded([], Some(e))
      case Ok(step) =>
        var rest := DecodeFrom(m, step.next);
        Decoded([step.frame] + rest.frames, rest.failure)
  }

  /** A successful step puts its frame in front of what decoding from its cursor yields. */
  lemma DecodeStep(m: seq<byte>, i: nat, s: Step)
    requires i < |m| && ParseFrameAt(m, i) == Ok(s)
    ensures DecodeFrom(m, i) == Decoded([s.frame] + DecodeFrom(m, s.next).frames, DecodeFrom(m, s.next).failure)
  {
  }

  /**
   * Every frame but the last lies wholly inside the buffer, so each takes at
   * least 16 bytes of it, and a failure is always a read past the end.
   */
  lemma {:induction false} DecodeBounds(m: seq<byte>, i: nat)
    ensures |DecodeFrom(m, i).frames| > 0 ==> 16 * (|DecodeFrom(m, i).frames| - 1) < |m| - i
    ensures DecodeFrom(m, i).failure.Some? ==> DecodeFrom(m, i).failure.value.index >= |m|
    decreases |m| - i
  {
    if i < |m| {
      var r := ParseFrameAt(m, i);
      if r.Ok? {
        DecodeStep(m, i, r.value);
        DecodeBounds(m, r.value.next);
        if r.value.next >= |m| {
          assert DecodeFrom(m, r.value.next) == Decoded([], None);
        }
      }
    }
  }

  /** The fields as the loop body reads them make up the step `ParseFrameAt` takes. */
  lemma ParseFrameReads(m: seq<byte>, i: nat, id: nat, refId: seq<byte>, format: byte, size: nat, payload: seq<byte>, next: nat)
    requires i + 10 < |m| && i + 11 + m[i + 10] < |m|
    requires id == LittleEndian(Slice(m, i, i + 8))
    requires refId == Slice(m, i + 11, i + 11 + m[i + 10]) && format == m[i + 11 + m[i + 10]]
    requires size == LittleEndian(Slice(m, i + 12 + m[i + 10], i + 16 + m[i + 10]))
    requires payload == Slice(m, i + 16 + m[i + 10], i + 16 + m[i + 10] + size)
    requires next == i + 16 + m[i + 10] + size
    ensures ParseFrameAt(m, i) == Ok(Step(Frame(id, refId, format, payload), next))
  {
    assert Slice(m, i, i + 8) == m[i..i + 8];
    assert Slice(m, i + 11, i + 11 + m[i + 10]) == m[i + 11..i + 11 + m[i + 10]];
  }

  /**
   * The body of `decode_message`'s loop: reads one frame from cursor
   * `index` field by field, advancing the cursor past each field.
   */
  method ReadFrame(message: seq<byte>, start: nat) returns (r: Result<Step, DecodeError>)
    ensures r == ParseFrameAt(message, start)
  {
    var index := start;
    var messageId := LittleEndian(Slice(message, index, index + 8));
    index := index + 8;
    index := index + 2;  // version, skipped
    assert index == start + 10;
    if index >= |message| {
      return Err(IndexOutOfRange(index));
    }
    var refIdLength := message[index];
    index := index + 1;
    var refId := Slice(message, index, index + refIdLength);
    index := index + refIdLength;
    assert index == start + 11 + refIdLength;
    if index >= |message| {
      return Err(IndexOutOfRange(index));
    }
    var payloadFormat := message[index];
    index := index + 1;
    var payloadSize := LittleEndian(Slice(message, index, index + 4));
    index := index + 4;
    assert index == start + 16 + refIdLength;
    var payload := Slice(message, index, index + payloadSize);
    index := index + payloadSize;
    ParseFrameReads(message, start, messageId, refId, payloadFormat, payloadSize, payload, index);
    return Ok(Step(Frame(messageId, refId, payloadFormat, payload), index));
  }

  /** `decode_message(message)`: the cursor loop over back-to-back frames. */
  method DecodeMessage(message: seq<byte>) returns (r: Decoded)
    ensures r == DecodeFrom(message, 0)
  {
    var frames: seq<Frame> := [];
    var index: nat := 0;
    while index < |message|
      invariant DecodeFrom(message, 0).frames == frames + DecodeFrom(message, index).frames
      invariant DecodeFrom(message, 0).failure == DecodeFrom(message, index).failure
      decreases |message| - index
    {
      var step := ReadFrame(message, index);
      if step.Err? {
        return Decoded(frames, Some(step.error));
      }
      DecodeStep(message, index, step.value);
      assert frames + ([step.value.frame] + DecodeFrom(message, step.value.next).frames)
        == (frames + [step.value.frame]) + DecodeFrom(message, step.value.next).frames;
      frames := frames + [step.value.frame];
      index := step.value.next;
    }
    return Decoded(frames, None);
  }

  /** `on_message(ws, message)`: the first frame only, at fixed offsets. */
  function OnMessage(message: seq<byte>): (r: Result<Frame, DecodeError>)
    ensures |message| > 0 ==> match DecodeFrom(message, 0)
      case Decoded(fs, e) => if r.Ok? then fs != [] && fs[0] == r.value else fs == [] && e == Some(r.error)
  {
    var messageId := LittleEndian(Slice(message, 0, 8));
    if |message| <= 10 then Err(IndexOutOfRange(10))
    else
      var n := message[10];
      var referenceId := Slice(message, 11, 11 + n);
      if 11 + n >= |message| then Err(IndexOutOfRange(11 + n))
      else
        var payloadFormat := message[11 + n];
        var size := LittleEndian(Slice(message, 12 + n, 16 + n));
        var payload := Slice(message, 16 + n, 16 + n + size);
        Ok(Frame(messageId, referenceId, payloadFormat, payload))
  }

  /** A buffer too short to hold the ref id length byte fails before any frame. */
  lemma ShortBufferFails(m: seq<byte>)
    requires 0 < |m| <= 10
    ensures DecodeFrom(m, 0) == Decoded([], Some(IndexOutOfRange(10)))
    ensures OnMessage(m) == Err(IndexOutOfRange(10))
  {
  }

  /** Slices of two buffers of equal length agree where the buffers agree. */
  lemma SliceAgree(m: seq<byte>, m': seq<byte>, lo: nat, hi: nat)
    requires |m| == |m'|
    requires forall k :: lo <= k < hi && k < |m| ==> m[k] == m'[k]
    ensures Slice(m, lo, hi) == Slice(m', lo, hi)
  {
  }

  /**
   * The two version bytes are never read: buffers that differ only in the
   * version bytes of the frame at `i` parse to the same step.
   */
  lemma VersionSkipped(m: seq<byte>, m': seq<byte>, i: nat)
    requires |m| == |m'|
    requires forall k :: 0 <= k < |m| && k != i + 8 && k != i + 9 ==> m[k] == m'[k]
    ensures ParseFrameAt(m, i) == ParseFrameAt(m', i)
  {
    if i + 10 < |m| {
      assert m[i + 10] == m'[i + 10];
      if i + 11 + m[i + 10] < |m| {
        FieldsAgree(m, m', i);
      }
    }
  }

  /** The case of `VersionSkipped` where both single-byte reads are in range. */
  lemma FieldsAgree(m: seq<byte>, m': seq<byte>, i: nat)
    requires |m| == |m'| && i + 10 < |m| && m[i + 10] == m'[i + 10] && i + 11 + m[i + 10] < |m|
    requires forall k :: 0 <= k < |m| && k != i + 8 && k != i + 9 ==> m[k] == m'[k]
    ensures ParseFrameAt(m, i) == ParseFrameAt(m', i)
  {
    var n := m[i + 10];
    SliceAgree(m, m', i, i + 8);
    SliceAgree(m, m', i + 11, i + 11 + n);
    SliceAgree(m, m', i + 12 + n, i + 16 + n);
    SliceAgree(m, m', i + 16 + n, i + 16 + n + PayloadSizeAt(m, i, n));
    assert m[i + 11 + n] == m'[i + 11 + n];
  }

  /** A frame the server can send: every length fits its field. */
  predicate WellFormed(f: Frame)
  {
    f.messageId < Pow256(8) && |f.referenceId| < 256 && |f.payload| < Pow256(4)
  }

  /** The bytes of one frame, with the given two version bytes. */
  function EncodeFrame(f: Frame, version: (byte, byte)): (bs: seq<byte>)
    requires WellFormed(f)
    ensures |bs| == 16 + |f.referenceId| + |f.payload|
  {
    ToLittleEndian(f.messageId, 8) + [version.0, version.1] + [|f.referenceId|] + f.referenceId
      + [f.payloadFormat] + ToLittleEndian(|f.payload|, 4) + f.payload
  }

  /** Frames written back to back, as one websocket message carries them. */
  function EncodeFrames(fs: seq<Frame>, version: (byte, byte)): seq<byte>
    requires forall k :: 0 <= k < |fs| ==> WellFormed(fs[k])
  {
    if fs == [] then [] else EncodeFrame(fs[0], version) + EncodeFrames(fs[1..], version)
  }

  /** `big` ends with `small`, which starts at offset `d` in it. */
  predicate EndsWith(big: seq<byte>, d: nat, small: seq<byte>)
  {
    |big| == d + |small| && forall k :: 0 <= k < |small| ==> big[d + k] == small[k]
  }

  /** Python slicing commutes with dropping a prefix. */
  lemma SliceShift(big: seq<byte>, d: nat, small: seq<byte>, lo: nat, hi: nat)
    requires EndsWith(big, d, small)
    ensures Slice(big, d + lo, d + hi) == Slice(small, lo, hi)
  {
    if lo < |small| && lo < hi {
      var top := if hi <= |small| then hi else |small|;
      assert big[d + lo..d + top] == small[lo..top] by {
        forall j | 0 <= j < top - lo
          ensures big[d + lo..d + top][j] == small[lo..top][j]
        {
          assert big[d + lo..d + top][j] == big[d + (lo + j)];
        }
      }
    }
  }

  /** Parsing at a cursor is unchanged by bytes before it, up to the offset. */
  lemma ParseShift(big: seq<byte>, d: nat, small: seq<byte>, i: nat)
    requires EndsWith(big, d, small)
    ensures ParseFrameAt(big, d + i) == match ParseFrameAt(small, i)
      case Err(e) => Err(IndexOutOfRange(d + e.index))
      case Ok(s) => Ok(Step(s.frame, d + s.next))
  {
    if i + 10 < |small| {
      assert big[d + (i + 10)] == small[i + 10];
      if i + 11 + small[i + 10] < |small| {
        FieldsShift(big, d, small, i);
      }
    }
  }

  /** The case of `ParseShift` where both single-byte reads are in range. */
  lemma FieldsShift(big: seq<byte>, d: nat, small: seq<byte>, i: nat)
    requires EndsWith(big, d, small)
    requires i + 10 < |small| && i + 11 + small[i + 10] < |small|
    ensures ParseFrameAt(big, d + i) == Ok(Step(ParseFrameAt(small, i).value.frame, d + ParseFrameAt(small, i).value.next))
  {
    var n := small[i + 10];
    assert big[d + (i + 10)] == n;
    assert big[d + (i + 11 + n)] == small[i + 11 + n];
    SliceShift(big, d, small, i, i + 8);
    SliceShift(big, d, small, i + 11, i + 11 + n);
    SliceShift(big, d, small, i + 12 + n, i + 16 + n);
    SliceShift(big, d, small, i + 16 + n, i + 16 + n + PayloadSizeAt(small, i, n));
  }

  /** A failure moved `d` bytes further along the buffer. */
  function ShiftFailure(d: nat, e: Option<DecodeError>): Option<DecodeError>
  {
    match e
    case None => None
    case Some(x) => Some(IndexOutOfRange(d + x.index))
  }

  /** Decoding from `d + i` in `big` is decoding from `i` in `small`, with failures moved by `d`. */
  predicate ShiftedDecode(big: seq<byte>, d: nat, small: seq<byte>, i: nat)
  {
    DecodeFrom(big, d + i) == Decoded(DecodeFrom(small, i).frames, ShiftFailure(d, DecodeFrom(small, i).failure))
  }

  /** The step case of `DecodeShift`: a shifted frame in front of a shifted rest. */
  lemma DecodeShiftStep(big: seq<byte>, d: nat, small: seq<byte>, i: nat, s: Step)
    requires EndsWith(big, d, small) && i < |small| && ParseFrameAt(small, i) == Ok(s)
    requires ShiftedDecode(big, d, small, s.next)
    ensures ShiftedDecode(big, d, small, i)
  {
    ParseShift(big, d, small, i);
    DecodeStep(small, i, s);
    DecodeStep(big, d + i, Step(s.frame, d + s.next));
  }

  /**
   * Decoding from a cursor is unchanged by bytes before it: the same frames,
   * and the same failure with its index counted from the longer buffer.
   */
  lemma {:induction false} DecodeShift(big: seq<byte>, d: nat, small: seq<byte>, i: nat)
    requires EndsWith(big, d, small)
    ensures DecodeFrom(big, d + i).frames == DecodeFrom(small, i).frames
    ensures DecodeFrom(big, d + i).failure == ShiftFailure(d, DecodeFrom(small, i).failure)
    decreases |small| - i
  {
    if i < |small| {
      var r := ParseFrameAt(small, i);
      if r.Ok? {
        DecodeShift(big, d, small, r.value.next);
        DecodeShiftStep(big, d, small, i, r.value);
      } else {
        ParseShift(big, d, small, i);
      }
    }
  }

  /** Python slices of `m` inside a stretch that holds `e` at `i` are slices of `e`. */
  lemma SliceWithin(m: seq<byte>, i: nat, e: seq<byte>, lo: nat, hi: nat)
    requires i + |e| <= |m| && m[i..i + |e|] == e
    requires lo <= hi <= |e|
    ensures Slice(m, i + lo, i + hi) == e[lo..hi]
  {
    forall j | 0 <= j < hi - lo
      ensures m[i + lo..i + hi][j] == e[lo..hi][j]
    {
      assert e[lo..hi][j] == e[lo + j] == m[i..i + |e|][lo + j];
    }
    assert m[i + lo..i + hi] == e[lo..hi];
  }

  /** `e` holds the fields of `f` at their places, with any version bytes. */
  predicate FieldsOf(e: seq<byte>, f: Frame)
    requires WellFormed(f)
  {
    var n := |f.referenceId|;
    |e| == 16 + n + |f.payload| && e[..8] == ToLittleEndian(f.messageId, 8) && e[10] == n
    && e[11..11 + n] == f.referenceId && e[11 + n] == f.payloadFormat
    && e[12 + n..16 + n] == ToLittleEndian(|f.payload|, 4) && e[16 + n..] == f.payload
  }

  /** Where each field sits in an encoded frame. */
  lemma EncodedFields(f: Frame, version: (byte, byte))
    requires WellFormed(f)
    ensures FieldsOf(EncodeFrame(f, version), f)
  {
    var n := |f.referenceId|;
    var idBytes, sizeBytes := ToLittleEndian(f.messageId, 8), ToLittleEndian(|f.payload|, 4);
    var front := idBytes + [version.0, version.1] + [n];
    var back := [f.payloadFormat] + sizeBytes + f.payload;
    assert EncodeFrame(f, version) == front + f.referenceId + back;
    assert back[1..5] == sizeBytes && back[5..] == f.payload;
  }

  /** Every field of `f` sits at its place in the frame starting at cursor `i`. */
  predicate LaidOut(m: seq<byte>, i: nat, f: Frame)
    requires WellFormed(f)
  {
    var n := |f.referenceId|;
    i + 16 + n + |f.payload| <= |m| && m[i + 10] == n && m[i + 11 + n] == f.payloadFormat
    && Slice(m, i, i + 8) == ToLittleEndian(f.messageId, 8)
    && Slice(m, i + 11, i + 11 + n) == f.referenceId
    && Slice(m, i + 12 + n, i + 16 + n) == ToLittleEndian(|f.payload|, 4)
    && Slice(m, i + 16 + n, i + 16 + n + |f.payload|) == f.payload
  }

  /** A copy of the fields of `f` stored at cursor `i` lays them out there. */
  lemma StoredLaidOut(m: seq<byte>, i: nat, e: seq<byte>, f: Frame)
    requires WellFormed(f) && FieldsOf(e, f)
    requires i + |e| <= |m| && m[i..i + |e|] == e
    ensures LaidOut(m, i, f)
  {
    var n := |f.referenceId|;
    assert m[i + 10] == e[10];
    assert m[i + 11 + n] == e[11 + n];
    SliceWithin(m, i, e, 0, 8);
    SliceWithin(m, i, e, 11, 11 + n);
    SliceWithin(m, i, e, 12 + n, 16 + n);
    SliceWithin(m, i, e, 16 + n, |e|);
  }

  /** A cursor at which every field of `f` is laid out parses to `f`. */
  lemma ParseLaidOut(m: seq<byte>, i: nat, f: Frame)
    requires WellFormed(f) && LaidOut(m, i, f)
    ensures ParseFrameAt(m, i) == Ok(Step(f, i + 16 + |f.referenceId| + |f.payload|))
  {
  }

  /** An encoded frame stored at cursor `i` has its fields laid out there. */
  lemma EncodedLaidOut(m: seq<byte>, i: nat, f: Frame, version: (byte, byte))
    requires WellFormed(f)
    requires i + |EncodeFrame(f, version)| <= |m| && m[i..i + |EncodeFrame(f, version)|] == EncodeFrame(f, version)
    ensures LaidOut(m, i, f)
  {
    EncodedFields(f, version);
    StoredLaidOut(m, i, EncodeFrame(f, version), f);
  }

  /** An encoded frame stored at cursor `i` parses back to the frame, with the cursor just past it. */
  lemma ParseEncodedAt(m: seq<byte>, i: nat, f: Frame, version: (byte, byte))
    requires WellFormed(f)
    requires i + |EncodeFrame(f, version)| <= |m| && m[i..i + |EncodeFrame(f, version)|] == EncodeFrame(f, version)
    ensures ParseFrameAt(m, i) == Ok(Step(f, i + |EncodeFrame(f, version)|))
  {
    EncodedLaidOut(m, i, f, version);
    ParseLaidOut(m, i, f);
  }

  /** An encoded frame followed by anything parses back to the frame, with the cursor just past it. */
  lemma ParseEncoded(f: Frame, version: (byte, byte), rest: seq<byte>)
    requires WellFormed(f)
    ensures ParseFrameAt(EncodeFrame(f, version) + rest, 0) == Ok(Step(f, |EncodeFrame(f, version)|))
  {
    var m := EncodeFrame(f, version) + rest;
    assert m[0..|EncodeFrame(f, version)|] == EncodeFrame(f, version);
    ParseEncodedAt(m, 0, f, version);
  }

  /** Decoding from cursor `k` sees only the bytes from `k` on. */
  lemma DecodeSuffix(m: seq<byte>, k: nat)
    requires k <= |m|
    ensures DecodeFrom(m, k).frames == DecodeFrom(m[k..], 0).frames
    ensures DecodeFrom(m[k..], 0).failure == None ==> DecodeFrom(m, k).failure == None
  {
    assert EndsWith(m, k, m[k..]);
    DecodeShift(m, k, m[k..], 0);
  }

  /** A first frame of `k` bytes is followed by the decoding of the remaining bytes. */
  lemma DecodeAfterHead(m: seq<byte>, k: nat, f: Frame)
    requires k <= |m| && 0 < |m| && ParseFrameAt(m, 0) == Ok(Step(f, k))
    ensures DecodeFrom(m, 0).frames == [f] + DecodeFrom(m[k..], 0).frames
    ensures DecodeFrom(m[k..], 0).failure == None ==> DecodeFrom(m, 0).failure == None
  {
    DecodeStep(m, 0, Step(f, k));
    DecodeSuffix(m, k);
  }

  /** An encoded frame followed by `rest` decodes to the frame, then to what `rest` decodes to. */
  lemma DecodeEncoded(f: Frame, version: (byte, byte), rest: seq<byte>)
    requires WellFormed(f)
    ensures DecodeFrom(EncodeFrame(f, version) + rest, 0).frames == [f] + DecodeFrom(rest, 0).frames
    ensures DecodeFrom(rest, 0).failure == None ==> DecodeFrom(EncodeFrame(f, version) + rest, 0).failure == None
  {
    var e := EncodeFrame(f, version);
    ParseEncoded(f, version, rest);
    DecodeAfterHead(e + rest, |e|, f);
    assert (e + rest)[|e|..] == rest;
  }

  /** Decoding back-to-back encoded frames yields exactly those frames, in order, and no error. */
  lemma {:induction false} RoundTrip(fs: seq<Frame>, version: (byte, byte))
    requires forall k :: 0 <= k < |fs| ==> WellFormed(fs[k])
    ensures DecodeFrom(EncodeFrames(fs, version), 0) == Decoded(fs, None)
  {
    if fs != [] {
      DecodeEncoded(fs[0], version, EncodeFrames(fs[1..], version));
      RoundTrip(fs[1..], version);
      assert fs == [fs[0]] + fs[1..];
    }
  }

  /** `on_message` reads the first encoded frame and ignores whatever follows it. */
  lemma OnMessageIgnoresTail(f: Frame, version: (byte, byte), rest: seq<byte>)
    requires WellFormed(f)
    ensures OnMessage(EncodeFrame(f, version) + rest) == Ok(f)
  {
    ParseEncoded(f, version, rest);
  }
}
