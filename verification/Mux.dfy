/** Virtual-channel framing: `[channel: u8][length: u32 LE][payload]`. */
module Mux {
  import opened Prelude
  import opened LittleEndian
  import opened Buffers

  const MAX_MUX_PAYLOAD: nat := 16 * 1024 * 1024
  const HEADER_LEN: nat := 5

  datatype ChannelId = GfxRdp | PcMeta | PcAudio | PcCtrl | PcQuery

  datatype MuxFrame = MuxFrame(channel: ChannelId, payload: seq<byte>)

  datatype MuxError = PayloadTooLarge(len: nat) | UnknownChannel(raw: byte)

  function ChannelByte(c: ChannelId): byte {
    match c
    case GfxRdp => 1
    case PcMeta => 2
    case PcAudio => 3
    case PcCtrl => 4
    case PcQuery => 5
  }

  function ChannelOf(b: byte): Option<ChannelId> {
    match b
    case 1 => Some(GfxRdp)
    case 2 => Some(PcMeta)
    case 3 => Some(PcAudio)
    case 4 => Some(PcCtrl)
    case 5 => Some(PcQuery)
    case _ => None
  }

  // --------------------------------------------------------------- one frame

  function Length(src: seq<byte>): nat
    requires |src| >= HEADER_LEN
  {
    Get(src[1..5])
  }

  /** What one decode step finds at the front of the buffer: nothing yet, an
      error, or a frame. */
  function FrontFrame(src: seq<byte>): Result<Option<MuxFrame>, MuxError> {
    if |src| < HEADER_LEN then Ok(None)
    else if Length(src) > MAX_MUX_PAYLOAD then Err(PayloadTooLarge(Length(src)))
    else if |src| < HEADER_LEN + Length(src) then Ok(None)
    else match ChannelOf(src[0])
      case None => Err(UnknownChannel(src[0]))
      case Some(c) => Ok(Some(MuxFrame(c, src[HEADER_LEN..HEADER_LEN + Length(src)])))
  }

  function FrameLen(f: MuxFrame): nat {
    HEADER_LEN + |f.payload|
  }

  function EncodeFrame(f: MuxFrame): seq<byte> {
    [ChannelByte(f.channel)] + Put(|f.payload|, 4) + f.payload
  }

  function EncodeAll(fs: seq<MuxFrame>): seq<byte> {
    if fs == [] then [] else EncodeFrame(fs[0]) + EncodeAll(fs[1..])
  }

  predicate Legal(f: MuxFrame) {
    |f.payload| <= MAX_MUX_PAYLOAD
  }

  // -------------------------------------------------------------- whole streams

  /** The frames a stream yields, what is left over, and the error that ends it. */
  datatype Decoded = Decoded(frames: seq<MuxFrame>, rest: seq<byte>, error: Option<MuxError>)

  function Cons(f: MuxFrame, d: Decoded): Decoded {
    Decoded([f] + d.frames, d.rest, d.error)
  }

  function DecodeAll(src: seq<byte>): Decoded
    decreases |src|
  {
    match FrontFrame(src)
    case Err(e) => Decoded([], src, Some(e))
    case Ok(None) => Decoded([], src, None)
    case Ok(Some(f)) => Cons(f, DecodeAll(src[FrameLen(f)..]))
  }

  /** What becomes of a decoded prefix when `more` bytes arrive. */
  function Resume(first: Decoded, more: seq<byte>): Decoded {
    if first.error.Some? then first.(rest := first.rest + more)
    else
      var second := DecodeAll(first.rest + more);
      second.(frames := first.frames + second.frames)
  }

  lemma ResumeCons(f: MuxFrame, d: Decoded, more: seq<byte>)
    ensures Resume(Cons(f, d), more) == Cons(f, Resume(d, more))
  {
  }

  lemma ResumeNothing(rest: seq<byte>, more: seq<byte>)
    ensures Resume(Decoded([], rest, None), more) == DecodeAll(rest + more)
  {
  }

  /** Later bytes never change what an earlier decode step decided. */
  lemma FrontFrameExtends(src: seq<byte>, more: seq<byte>)
    requires FrontFrame(src) != Ok(None)
    ensures FrontFrame(src + more) == FrontFrame(src)
  {
    assert (src + more)[1..5] == src[1..5];
    if Length(src) <= MAX_MUX_PAYLOAD {
      assert (src + more)[HEADER_LEN..HEADER_LEN + Length(src)] == src[HEADER_LEN..HEADER_LEN + Length(src)];
    }
  }

  lemma DecodeFrame(src: seq<byte>, f: MuxFrame)
    requires FrontFrame(src) == Ok(Some(f))
    ensures 0 < FrameLen(f) <= |src| && DecodeAll(src) == Cons(f, DecodeAll(src[FrameLen(f)..]))
  {
  }

  /** Decoding a stream is decoding any prefix and resuming with the rest. */
  lemma {:induction false} DecodeInTwo(a: seq<byte>, b: seq<byte>)
    ensures DecodeAll(a + b) == Resume(DecodeAll(a), b)
    decreases |a|
  {
    match FrontFrame(a)
    case Err(e) =>
      FrontFrameExtends(a, b);
    case Ok(None) =>
      ResumeNothing(a, b);
    case Ok(Some(f)) =>
      DecodeFrame(a, f);
      FrontFrameExtends(a, b);
      DecodeFrame(a + b, f);
      var n := FrameLen(f);
      assert (a + b)[n..] == a[n..] + b;
      DecodeInTwo(a[n..], b);
      ResumeCons(f, DecodeAll(a[n..]), b);
  }

  // ------------------------------------------------------------- the wire format

  /** The frame, byte for byte: the channel's number, the length in four bytes with
      the lowest first, the payload. */
  ghost predicate OnWire(s: seq<byte>, f: MuxFrame) {
    && |s| == 5 + |f.payload| && s[5..] == f.payload && U32At(s, 1) == |f.payload|
    && s[0] == match f.channel
         case GfxRdp => 0x01
         case PcMeta => 0x02
         case PcAudio => 0x03
         case PcCtrl => 0x04
         case PcQuery => 0x05
  }

  /** What stands at the front of the bytes: too few, too long a payload, a channel
      number from 1 to 5, or an unknown one. */
  ghost predicate ReadsAs(s: seq<byte>, r: Result<Option<MuxFrame>, MuxError>) {
    if |s| < 5 then r == Ok(None)
    else if U32At(s, 1) > 16_777_216 then r == Err(PayloadTooLarge(U32At(s, 1)))
    else if |s| < 5 + U32At(s, 1) then r == Ok(None)
    else if 1 <= s[0] <= 5 then
      && r.Ok? && r.value.Some?
      && OnWire(s[..5 + U32At(s, 1)], r.value.value)
    else r == Err(UnknownChannel(s[0]))
  }

  lemma FrontReads(s: seq<byte>)
    ensures ReadsAs(s, FrontFrame(s))
  {
    if |s| >= 5 {
      KnownBytes4(s[1..5]);
      var n := U32At(s, 1);
      assert Length(s) == n;
      if n <= 16_777_216 && |s| >= 5 + n {
        assert s[..5 + n][5..] == s[5..5 + n];
      }
    }
  }

  lemma FrameOnWire(f: MuxFrame)
    requires Legal(f)
    ensures OnWire(EncodeFrame(f), f)
  {
    var s := EncodeFrame(f);
    Widths();
    GetPut(|f.payload|, 4);
    KnownBytes4(Put(|f.payload|, 4));
    assert s[1..5] == Put(|f.payload|, 4);
  }

  /** Bytes of a frame decode to that frame, and a frame is encoded as its bytes:
      the wire format, for every channel, length and payload. */
  lemma WireFormat(s: seq<byte>, f: MuxFrame)
    requires OnWire(s, f) && |f.payload| <= 16_777_216
    ensures DecodeAll(s) == Decoded([f], [], None) && EncodeAll([f]) == s
  {
    FrontReads(s);
    assert s[..5 + U32At(s, 1)] == s;
    var g := FrontFrame(s).value.value;
    assert g.payload == f.payload && g.channel == f.channel;
    DecodeFrame(s, f);
    assert s[FrameLen(f)..] == [];
    FrameOnWire(f);
    SameBytes(s, EncodeFrame(f), f);
    assert [f][1..] == [] && EncodeAll([f]) == EncodeFrame(f) + EncodeAll([]);
  }

  lemma SameBytes(a: seq<byte>, b: seq<byte>, f: MuxFrame)
    requires OnWire(a, f) && OnWire(b, f)
    ensures a == b
  {
    assert a == a[..5] + a[5..] && b == b[..5] + b[5..];
    assert a[..5] == [a[0], a[1], a[2], a[3], a[4]] && b[..5] == [b[0], b[1], b[2], b[3], b[4]];
  }

  // ------------------------------------------------------------------ the codec

  class MuxCodec {
    constructor () {}

    method Decode(src: ByteBuffer) returns (r: Result<Option<MuxFrame>, MuxError>)
      modifies src
      ensures r == FrontFrame(old(src.data)) && ReadsAs(old(src.data), r)
      ensures src.data ==
        if r.Ok? && r.value.Some? then old(src.data)[FrameLen(r.value.value)..] else old(src.data)
    {
      FrontReads(src.data);
      if |src.data| < HEADER_LEN {
        return Ok(None);
      }
      var channelRaw := src.data[0];
      var len := Get(src.data[1..5]);
      if len > MAX_MUX_PAYLOAD {
        return Err(PayloadTooLarge(len));
      }
      if |src.data| < HEADER_LEN + len {
        return Ok(None);
      }
      var channel := ChannelOf(channelRaw);
      if channel.None? {
        return Err(UnknownChannel(channelRaw));
      }
      ghost var all := src.data;
      src.Advance(HEADER_LEN);
      var payload := src.SplitTo(len);
      assert payload == all[HEADER_LEN..HEADER_LEN + len] && src.data == all[HEADER_LEN + len..];
      r := Ok(Some(MuxFrame(channel.value, payload)));
    }

    method Encode(item: MuxFrame, dst: ByteBuffer) returns (r: Result<(), MuxError>)
      modifies dst
      ensures Legal(item) ==> r == Ok(()) && dst.data == old(dst.data) + EncodeFrame(item)
      ensures |item.payload| <= 16_777_216 ==>
        |dst.data| >= |old(dst.data)| && OnWire(dst.data[|old(dst.data)|..], item)
      ensures |item.payload| > 16_777_216 ==> r == Err(PayloadTooLarge(|item.payload|))
      ensures !Legal(item) ==> r == Err(PayloadTooLarge(|item.payload|)) && dst.data == old(dst.data)
    {
      if |item.payload| > MAX_MUX_PAYLOAD {
        return Err(PayloadTooLarge(|item.payload|));
      }
      dst.Extend([ChannelByte(item.channel)]);
      dst.Extend(Put(|item.payload|, 4));
      dst.Extend(item.payload);
      r := Ok(());
      FrameOnWire(item);
      assert dst.data[|old(dst.data)|..] == EncodeFrame(item);
    }
  }

  /** Frames already delivered in front of a decoded remainder. */
  function Behind(frames: seq<MuxFrame>, d: Decoded): Decoded {
    d.(frames := frames + d.frames)
  }

  lemma BehindCons(frames: seq<MuxFrame>, f: MuxFrame, d: Decoded)
    ensures Behind(frames, Cons(f, d)) == Behind(frames + [f], d)
    ensures d.frames == [] ==> Behind(frames, d).frames == frames
  {
  }

  /** Decode until the buffer holds no complete frame, or an error ends the stream. */
  method Drain(codec: MuxCodec, src: ByteBuffer) returns (frames: seq<MuxFrame>, error: Option<MuxError>)
    modifies src
    ensures DecodeAll(old(src.data)) == Decoded(frames, src.data, error)
  {
    frames, error := [], None;
    ghost var whole := DecodeAll(src.data);
    assert [] + whole.frames == whole.frames;
    while true
      invariant error == None
      invariant whole == Behind(frames, DecodeAll(src.data))
      decreases |src.data|
    {
      ghost var before := src.data;
      var r := codec.Decode(src);
      match r
      case Err(e) =>
        assert frames + [] == frames;
        error := Some(e);
        return;
      case Ok(None) =>
        assert frames + [] == frames;
        return;
      case Ok(Some(f)) =>
        DecodeFrame(before, f);
        BehindCons(frames, f, DecodeAll(src.data));
        frames := frames + [f];
    }
  }

  /** The receiving side: feed each chunk, drain, and stop at the first error. The
      frames and the error are those of the unchunked stream. */
  method FeedAndDrain(chunks: seq<seq<byte>>) returns (frames: seq<MuxFrame>, error: Option<MuxError>)
    ensures var whole := DecodeAll(Flatten(chunks));
      frames == whole.frames && error == whole.error
  {
    var codec := new MuxCodec();
    var src := new ByteBuffer();
    frames, error := [], None;
    for i := 0 to |chunks|
      invariant error == None
      invariant DecodeAll(Flatten(chunks[..i])) == Decoded(frames, src.data, None)
    {
      NextChunk(chunks, i);
      src.Extend(chunks[i]);
      var more, e := Drain(codec, src);
      frames := frames + more;
      error := e;
      if e.Some? {
        NextChunks(chunks, i + 1);
        return;
      }
    }
    assert chunks[..|chunks|] == chunks;
  }

  lemma NextChunk(chunks: seq<seq<byte>>, i: nat)
    requires i < |chunks|
    ensures DecodeAll(Flatten(chunks[..i + 1])) == Resume(DecodeAll(Flatten(chunks[..i])), chunks[i])
  {
    assert chunks[..i + 1] == chunks[..i] + [chunks[i]];
    FlattenAppend(chunks[..i], [chunks[i]]);
    FlattenOne(chunks[i]);
    DecodeInTwo(Flatten(chunks[..i]), chunks[i]);
  }

  lemma NextChunks(chunks: seq<seq<byte>>, i: nat)
    requires i <= |chunks|
    ensures DecodeAll(Flatten(chunks)) == Resume(DecodeAll(Flatten(chunks[..i])), Flatten(chunks[i..]))
  {
    assert chunks == chunks[..i] + chunks[i..];
    FlattenAppend(chunks[..i], chunks[i..]);
    DecodeInTwo(Flatten(chunks[..i]), Flatten(chunks[i..]));
  }

  // ------------------------------------------------------------------ round trip

  lemma FrameRoundTrip(f: MuxFrame, tail: seq<byte>)
    requires Legal(f)
    ensures FrontFrame(EncodeFrame(f) + tail) == Ok(Some(f))
    ensures |EncodeFrame(f)| == FrameLen(f)
  {
    var s := EncodeFrame(f) + tail;
    Widths();
    GetPut(|f.payload|, 4);
    assert s[1..5] == Put(|f.payload|, 4);
    assert s[HEADER_LEN..HEADER_LEN + |f.payload|] == f.payload;
    assert s[0] == ChannelByte(f.channel);
  }

  /** Legal frames come back as they were sent, with nothing left over; by
      `FeedAndDrain`, under every chunking. */
  lemma {:induction false} StreamRoundTrip(fs: seq<MuxFrame>)
    requires forall f :: f in fs ==> Legal(f)
    ensures DecodeAll(EncodeAll(fs)) == Decoded(fs, [], None)
  {
    if fs != [] {
      var f, tail := fs[0], EncodeAll(fs[1..]);
      FrameRoundTrip(f, tail);
      DecodeFrame(EncodeFrame(f) + tail, f);
      StreamRoundTrip(fs[1..]);
      assert (EncodeFrame(f) + tail)[FrameLen(f)..] == tail;
    }
  }
}
