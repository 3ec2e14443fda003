/**
 Length-prefixed frames over a byte stream: a 4-byte length (type plus payload), a 2-byte
 type, the payload. The decoder is incremental: it consumes whole frames and keeps the rest.
 */
module FrameCodec {
  import opened Common
  import opened Endian
  import opened ByteBuffer

  const LENGTH_FIELD_SIZE := 4
  const TYPE_FIELD_SIZE := 2
  const MIN_FRAME_LENGTH := 2
  const MAX_FRAME_LENGTH := 64 * 1024

  datatype Frame = Frame(kind: u16, payload: Bytes)

  /** What the frame callback answers, given the frames it has been handed before. */
  type Callback = (seq<Frame>, Frame) -> bool

  predicate Encodable(f: Frame) {
    |f.payload| <= MAX_FRAME_LENGTH - TYPE_FIELD_SIZE
  }

  function Wire(f: Frame): Bytes {
    Big(TYPE_FIELD_SIZE + |f.payload|, LENGTH_FIELD_SIZE) + Big(f.kind, TYPE_FIELD_SIZE) + f.payload
  }

  function WireAll(frames: seq<Frame>): Bytes {
    if frames == [] then [] else Wire(frames[0]) + WireAll(frames[1..])
  }

  method Encode(kind: u16, payload: Bytes) returns (r: Option<Bytes>)
    ensures r == if Encodable(Frame(kind, payload)) then Some(Wire(Frame(kind, payload))) else None
  {
    if |payload| > MAX_FRAME_LENGTH - TYPE_FIELD_SIZE {
      return None;
    }
    var frame := Big(TYPE_FIELD_SIZE + |payload|, LENGTH_FIELD_SIZE);
    frame := frame + Big(kind, TYPE_FIELD_SIZE);
    frame := frame + payload;
    r := Some(frame);
  }

  /** One look at the front of the stream. */
  datatype Scan = Partial | Malformed | Complete(frame: Frame, size: nat)

  function ScanFrame(input: Bytes): (s: Scan)
    ensures s.Complete? ==> MIN_FRAME_LENGTH + LENGTH_FIELD_SIZE <= s.size <= |input|
  {
    if |input| < LENGTH_FIELD_SIZE then Partial
    else
      var len := Value(input[..LENGTH_FIELD_SIZE]);
      if len < MIN_FRAME_LENGTH || len > MAX_FRAME_LENGTH then Malformed
      else if |input| < len + LENGTH_FIELD_SIZE then Partial
      else
        BigOfValue(input[4..6]);
        Widths();
        Complete(Frame(Value(input[4..6]), input[6..len + LENGTH_FIELD_SIZE]), len + LENGTH_FIELD_SIZE)
  }

  /** The frames delivered, what stays in the buffer, and whether the connection survives. */
  datatype Decoded = Decoded(frames: seq<Frame>, rest: Bytes, ok: bool)

  /** Decoding `input` after `history` has already been delivered. */
  function DecodeFrom(history: seq<Frame>, input: Bytes, callback: Callback): Decoded
    decreases |input|
  {
    match ScanFrame(input)
    case Partial => Decoded(history, input, true)
    case Malformed => Decoded(history, input, false)
    case Complete(f, size) =>
      if callback(history, f) then DecodeFrom(history + [f], input[size..], callback)
      else Decoded(history + [f], input[size..], false)
  }

  /** The decode loop, consuming the buffer in place. */
  method Decode(buffer: Buffer, history: seq<Frame>, callback: Callback) returns (frames: seq<Frame>, ok: bool)
    requires buffer.Valid()
    modifies buffer
    ensures buffer.Valid() && buffer.bytes == old(buffer.bytes)
    ensures Decoded(frames, buffer.Contents(), ok) == DecodeFrom(history, old(buffer.Contents()), callback)
  {
    frames := history;
    ghost var goal := DecodeFrom(history, buffer.Contents(), callback);
    while true
      invariant buffer.Valid() && buffer.bytes == old(buffer.bytes)
      invariant DecodeFrom(frames, buffer.Contents(), callback) == goal
      decreases |buffer.Contents()|
    {
      ghost var input := buffer.Contents();
      var readable := buffer.ReadableBytes();
      if readable < LENGTH_FIELD_SIZE {
        assert ScanFrame(input) == Partial;
        return frames, true;
      }
      var netLen := buffer.Peek(0, LENGTH_FIELD_SIZE);
      assert netLen == input[..LENGTH_FIELD_SIZE];
      var frameLen := Value(netLen);
      if frameLen < MIN_FRAME_LENGTH || frameLen > MAX_FRAME_LENGTH {
        assert ScanFrame(input) == Malformed;
        return frames, false;
      }
      if readable < frameLen + LENGTH_FIELD_SIZE {
        assert ScanFrame(input) == Partial;
        return frames, true;
      }
      var netType := buffer.Peek(LENGTH_FIELD_SIZE, TYPE_FIELD_SIZE);
      var payload := buffer.Peek(LENGTH_FIELD_SIZE + TYPE_FIELD_SIZE, frameLen - TYPE_FIELD_SIZE);
      TwoByteValue(netType);
      var frame := Frame(Value(netType), payload);
      assert ScanFrame(input) == Complete(frame, frameLen + LENGTH_FIELD_SIZE);
      buffer.Retrieve(frameLen + LENGTH_FIELD_SIZE);
      if !callback(frames, frame) {
        return frames + [frame], false;
      }
      frames := frames + [frame];
    }
  }

  lemma TwoByteValue(bytes: Bytes)
    requires |bytes| == 2
    ensures Value(bytes) < 0x1_0000
  {
    BigOfValue(bytes);
    Widths();
  }

  function Joined(chunks: seq<Bytes>): Bytes {
    if chunks == [] then [] else Joined(chunks[..|chunks| - 1]) + chunks[|chunks| - 1]
  }

  /**
   Reading a connection: every chunk off the socket is appended and decoded, and reading stops
   at the first refusal. However the stream was cut, the outcome is that of decoding it at once.
   */
  method Receive(buffer: Buffer, chunks: seq<Bytes>, callback: Callback) returns (frames: seq<Frame>, ok: bool)
    requires buffer.Valid() && ScanFrame(buffer.Contents()) == Partial
    modifies buffer, buffer.bytes
    ensures buffer.Valid()
    ensures var whole := DecodeFrom([], old(buffer.Contents()) + Joined(chunks), callback);
            frames == whole.frames && ok == whole.ok && (ok ==> buffer.Contents() == whole.rest)
  {
    frames, ok := [], true;
    ghost var start := buffer.Contents();
    assert start + Joined(chunks[..0]) == start;
    for i := 0 to |chunks|
      invariant buffer.Valid() && (buffer.bytes == old(buffer.bytes) || fresh(buffer.bytes))
      invariant ok && Decoded(frames, buffer.Contents(), ok) == DecodeFrom([], start + Joined(chunks[..i]), callback)
    {
      DecodeNextChunk(start, chunks, i, callback);
      buffer.Append(chunks[i]);
      frames, ok := Decode(buffer, frames, callback);
      if !ok {
        RefusalIsFinal(start, chunks, i + 1, callback);
        return;
      }
    }
    assert chunks[..|chunks|] == chunks;
  }

  lemma DecodeNextChunk(start: Bytes, chunks: seq<Bytes>, i: nat, callback: Callback)
    requires i < |chunks|
    requires DecodeFrom([], start + Joined(chunks[..i]), callback).ok
    ensures var first := DecodeFrom([], start + Joined(chunks[..i]), callback);
            DecodeFrom([], start + Joined(chunks[..i + 1]), callback)
              == DecodeFrom(first.frames, first.rest + chunks[i], callback)
  {
    var before := start + Joined(chunks[..i]);
    assert chunks[..i + 1][..i] == chunks[..i];
    assert start + Joined(chunks[..i + 1]) == before + chunks[i];
    DecodeAppend([], before, chunks[i], callback);
  }

  lemma RefusalIsFinal(start: Bytes, chunks: seq<Bytes>, n: nat, callback: Callback)
    requires n <= |chunks|
    requires !DecodeFrom([], start + Joined(chunks[..n]), callback).ok
    ensures !DecodeFrom([], start + Joined(chunks), callback).ok
    ensures DecodeFrom([], start + Joined(chunks), callback).frames
         == DecodeFrom([], start + Joined(chunks[..n]), callback).frames
  {
    var before := start + Joined(chunks[..n]);
    SplitJoined(chunks, n);
    assert start + Joined(chunks) == before + Joined(chunks[n..]);
    DecodeAppend([], before, Joined(chunks[n..]), callback);
  }

  lemma {:induction false} SplitJoined(chunks: seq<Bytes>, n: nat)
    requires n <= |chunks|
    ensures Joined(chunks) == Joined(chunks[..n]) + Joined(chunks[n..])
    decreases |chunks| - n
  {
    if n == |chunks| {
      assert chunks[..n] == chunks;
    } else {
      var last := |chunks| - 1;
      SplitJoined(chunks[..last], n);
      assert chunks[..last][..n] == chunks[..n] && chunks[..last][n..] == chunks[n..][..last - n];
    }
  }

  /** A stream that is still being accepted can be decoded so far and continued later. */
  lemma {:induction false} DecodeAppend(history: seq<Frame>, a: Bytes, b: Bytes, callback: Callback)
    ensures var first := DecodeFrom(history, a, callback);
            DecodeFrom(history, a + b, callback) ==
              if first.ok then DecodeFrom(first.frames, first.rest + b, callback)
              else Decoded(first.frames, first.rest + b, false)
    decreases |a|
  {
    if |a| >= LENGTH_FIELD_SIZE {
      assert (a + b)[..LENGTH_FIELD_SIZE] == a[..LENGTH_FIELD_SIZE];
    }
    match ScanFrame(a)
    case Partial =>
    case Malformed =>
    case Complete(f, size) =>
      assert (a + b)[4..6] == a[4..6] && (a + b)[6..size] == a[6..size];
      assert ScanFrame(a + b) == Complete(f, size);
      assert (a + b)[size..] == a[size..] + b;
      DecodeAppend(history + [f], a[size..], b, callback);
  }

  /** An encoded frame at the front of a stream is recognised as exactly itself. */
  lemma ScanWire(f: Frame, rest: Bytes)
    requires Encodable(f)
    ensures ScanFrame(Wire(f) + rest) == Complete(f, |Wire(f)|)
  {
    var len := TYPE_FIELD_SIZE + |f.payload|;
    var input := Wire(f) + rest;
    Widths();
    ValueOfBig(len, LENGTH_FIELD_SIZE);
    ValueOfBig(f.kind, TYPE_FIELD_SIZE);
    assert input[..4] == Big(len, 4);
    assert input[4..6] == Big(f.kind, 2);
    assert input[6..len + 4] == f.payload;
  }

  /** A frame that has not fully arrived is kept, whatever its prefix. */
  lemma ScanPartial(f: Frame, n: nat)
    requires Encodable(f) && n < |Wire(f)|
    ensures ScanFrame(Wire(f)[..n]) == Partial
  {
    var len := TYPE_FIELD_SIZE + |f.payload|;
    Widths();
    ValueOfBig(len, LENGTH_FIELD_SIZE);
    if n >= 4 {
      assert Wire(f)[..n][..4] == Big(len, 4);
    }
  }

  /** The callback says yes to each of the frames in turn. */
  predicate AcceptsAll(history: seq<Frame>, frames: seq<Frame>, callback: Callback)
    decreases |frames|
  {
    frames == [] || (callback(history, frames[0]) && AcceptsAll(history + [frames[0]], frames[1..], callback))
  }

  /** Any encoded frames followed by an unfinished one: the frames come out, the rest waits. */
  lemma {:induction false} DecodeOfEncoded(
      history: seq<Frame>, frames: seq<Frame>, last: Frame, n: nat, callback: Callback)
    requires forall f :: f in frames ==> Encodable(f)
    requires Encodable(last) && n < |Wire(last)|
    requires AcceptsAll(history, frames, callback)
    ensures DecodeFrom(history, WireAll(frames) + Wire(last)[..n], callback)
         == Decoded(history + frames, Wire(last)[..n], true)
    decreases |frames|
  {
    hide Wire, ScanFrame;
    var tail := Wire(last)[..n];
    if frames == [] {
      ScanPartial(last, n);
      assert WireAll(frames) + tail == tail;
    } else {
      var first, rest := frames[0], WireAll(frames[1..]) + tail;
      assert WireAll(frames) + tail == Wire(first) + rest;
      DecodeFirst(history, first, rest, callback);
      DecodeOfEncoded(history + [first], frames[1..], last, n, callback);
      assert history + [first] + frames[1..] == history + frames;
    }
  }

  lemma DecodeFirst(history: seq<Frame>, f: Frame, rest: Bytes, callback: Callback)
    requires Encodable(f) && callback(history, f)
    ensures DecodeFrom(history, Wire(f) + rest, callback) == DecodeFrom(history + [f], rest, callback)
  {
    ScanWire(f, rest);
    hide Wire, ScanFrame;
    assert (Wire(f) + rest)[|Wire(f)|..] == rest;
  }

  /** `input` is what `frames` look like on the wire once `history` is known, then `rest`. */
  ghost predicate Explains(history: seq<Frame>, frames: seq<Frame>, input: Bytes, rest: Bytes) {
    && history <= frames
    && (forall f :: f in frames[|history|..] ==> Encodable(f))
    && input == WireAll(frames[|history|..]) + rest
  }

  /** Conversely, whatever the decoder consumed is the wire form of what it delivered. */
  lemma {:induction false} DeliveredIsWire(history: seq<Frame>, input: Bytes, callback: Callback)
    ensures var r := DecodeFrom(history, input, callback);
            Explains(history, r.frames, input, r.rest)
    decreases |input|
  {
    match ScanFrame(input)
    case Partial =>
    case Malformed =>
    case Complete(f, size) =>
      if callback(history, f) {
        DeliveredIsWire(history + [f], input[size..], callback);
      }
      ExplainsOneMore(history, input, DecodeFrom(history, input, callback));
  }

  lemma ExplainsOneMore(history: seq<Frame>, input: Bytes, r: Decoded)
    requires ScanFrame(input).Complete?
    requires var Complete(f, size) := ScanFrame(input);
             Explains(history + [f], r.frames, input[size..], r.rest)
    ensures Explains(history, r.frames, input, r.rest)
  {
    var Complete(f, size) := ScanFrame(input);
    ScanIsWire(input);
    var more := r.frames[|history + [f]|..];
    assert r.frames[|history|..] == [f] + more;
    assert ([f] + more)[1..] == more;
    assert input == Wire(f) + (WireAll(more) + r.rest);
  }

  lemma ScanIsWire(input: Bytes)
    requires ScanFrame(input).Complete?
    ensures Encodable(ScanFrame(input).frame)
    ensures input[..ScanFrame(input).size] == Wire(ScanFrame(input).frame)
  {
    var Complete(f, size) := ScanFrame(input);
    BigOfValue(input[..4]);
    BigOfValue(input[4..6]);
    assert input[..size] == input[..4] + input[4..6] + input[6..size];
  }
}
