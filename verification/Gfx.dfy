/** RDPGFX PDUs: section 2.2 of MS-RDPEGFX, with the header of section 2.2.1.5. */
module Gfx {
  import opened Prelude
  import opened LittleEndian
  import opened Buffers

  const HEADER_LEN: nat := 8
  const CMDID_WIRETOSURFACE_1: u16 := 0x0001
  const CMDID_START_FRAME: u16 := 0x000b
  const CMDID_END_FRAME: u16 := 0x000c
  const CMDID_FRAMEACKNOWLEDGE: u16 := 0x000d
  const CODECID_UNCOMPRESSED: u16 := 0x0000
  const CODECID_JPEG: u16 := 0x00f1

  datatype Rect = Rect(left: i16, top: i16, right: i16, bottom: i16)

  datatype GfxPdu =
    | StartFrame(frameId: u32, timestamp: u32)
    | EndFrame(frameId: u32)
    | WireToSurface1(surfaceId: u16, codecId: u16, pixelFormat: byte, destRect: Rect, bitmap: seq<byte>)
    | FrameAcknowledge(queueDepth: u32, frameId: u32, totalFramesDecoded: u32)

  datatype GfxError =
    | Truncated(needed: nat, had: nat)
    | ShortLength
    | ShortBody(cmd: u16)
    | TruncatedBitmap
    | UnknownCmdId(cmd: u16)

  function CmdId(p: GfxPdu): u16 {
    match p
    case StartFrame(_, _) => CMDID_START_FRAME
    case EndFrame(_) => CMDID_END_FRAME
    case WireToSurface1(_, _, _, _, _) => CMDID_WIRETOSURFACE_1
    case FrameAcknowledge(_, _, _) => CMDID_FRAMEACKNOWLEDGE
  }

  // ------------------------------------------------------------------- encoding

  function PutI16(n: i16): (s: seq<byte>)
    ensures |s| == 2
  {
    Widths();
    PutSigned(n, 2)
  }

  function RectBytes(r: Rect): (s: seq<byte>)
    ensures |s| == 8
  {
    PutI16(r.left) + PutI16(r.top) + PutI16(r.right) + PutI16(r.bottom)
  }

  function Body(p: GfxPdu): seq<byte> {
    match p
    case StartFrame(id, ts) => Put(id, 4) + Put(ts, 4)
    case EndFrame(id) => Put(id, 4)
    case WireToSurface1(surface, codec, format, rect, bitmap) =>
      Put(surface, 2) + Put(codec, 2) + [format] + RectBytes(rect) + Put(|bitmap|, 4) + bitmap
    case FrameAcknowledge(depth, id, total) => Put(depth, 4) + Put(id, 4) + Put(total, 4)
  }

  /** Header and body. Both length fields are written modulo 2^32, as the casts do. */
  function Encode(p: GfxPdu): seq<byte> {
    Put(CmdId(p), 2) + Put(0, 2) + Put(HEADER_LEN + |Body(p)|, 4) + Body(p)
  }

  function EncodedLen(p: GfxPdu): nat {
    HEADER_LEN +
    match p
    case StartFrame(_, _) => 8
    case EndFrame(_) => 4
    case WireToSurface1(_, _, _, _, bitmap) => 17 + |bitmap|
    case FrameAcknowledge(_, _, _) => 12
  }

  function EncodeAll(ps: seq<GfxPdu>): seq<byte> {
    if ps == [] then [] else Encode(ps[0]) + EncodeAll(ps[1..])
  }

  // ------------------------------------------------------------------- decoding

  function GetU16(s: seq<byte>, at: nat): u16
    requires at + 2 <= |s|
  {
    Widths();
    GetBound(s[at..at + 2]);
    Get(s[at..at + 2])
  }

  function GetU32(s: seq<byte>, at: nat): u32
    requires at + 4 <= |s|
  {
    Widths();
    GetBound(s[at..at + 4]);
    Get(s[at..at + 4])
  }

  function GetI16(s: seq<byte>, at: nat): i16
    requires at + 2 <= |s|
  {
    Widths();
    PutGetSigned(s[at..at + 2]);
    GetSigned(s[at..at + 2])
  }

  function DecodeBody(cmd: u16, body: seq<byte>): Result<GfxPdu, GfxError> {
    if cmd == CMDID_START_FRAME then
      if |body| < 8 then Err(ShortBody(cmd))
      else Ok(StartFrame(GetU32(body, 0), GetU32(body, 4)))
    else if cmd == CMDID_END_FRAME then
      if |body| < 4 then Err(ShortBody(cmd))
      else Ok(EndFrame(GetU32(body, 0)))
    else if cmd == CMDID_WIRETOSURFACE_1 then
      if |body| < 17 then Err(ShortBody(cmd))
      else
        var n := GetU32(body, 13);
        if |body| < 17 + n then Err(TruncatedBitmap)
        else
          Ok(WireToSurface1(GetU16(body, 0), GetU16(body, 2), body[4],
            Rect(GetI16(body, 5), GetI16(body, 7), GetI16(body, 9), GetI16(body, 11)), body[17..17 + n]))
    else if cmd == CMDID_FRAMEACKNOWLEDGE then
      if |body| < 12 then Err(ShortBody(cmd))
      else Ok(FrameAcknowledge(GetU32(body, 0), GetU32(body, 4), GetU32(body, 8)))
    else Err(UnknownCmdId(cmd))
  }

  /** The PDU at the front of the buffer and the number of bytes it takes up. */
  function Decode(buf: seq<byte>): (r: Result<(GfxPdu, nat), GfxError>)
    ensures r.Ok? ==> HEADER_LEN <= r.value.1 <= |buf|
  {
    if |buf| < HEADER_LEN then Err(Truncated(HEADER_LEN, |buf|))
    else
      var cmd, len := GetU16(buf, 0), GetU32(buf, 4);
      if len < HEADER_LEN then Err(ShortLength)
      else if |buf| < len then Err(Truncated(len, |buf|))
      else match DecodeBody(cmd, buf[HEADER_LEN..len])
        case Err(e) => Err(e)
        case Ok(p) => Ok((p, len))
  }

  // ------------------------------------------------------------------ round trip

  lemma FourSlices(pre: seq<byte>, a: seq<byte>, b: seq<byte>, c: seq<byte>, d: seq<byte>, post: seq<byte>)
    requires |a| == |b| == |c| == |d| == 2
    ensures var s, n := pre + (a + b + c + d) + post, |pre|;
      s[n..n + 2] == a && s[n + 2..n + 4] == b && s[n + 4..n + 6] == c && s[n + 6..n + 8] == d
  {
  }

  lemma SignedAt(s: seq<byte>, at: nat, n: i16)
    requires at + 2 <= |s| && s[at..at + 2] == PutI16(n)
    ensures GetI16(s, at) == n
  {
    Widths();
    GetPutSigned(n, 2);
  }

  lemma RectAt(pre: seq<byte>, r: Rect, post: seq<byte>)
    ensures var s := pre + RectBytes(r) + post;
      Rect(GetI16(s, |pre|), GetI16(s, |pre| + 2), GetI16(s, |pre| + 4), GetI16(s, |pre| + 6)) == r
  {
    var s, n := pre + RectBytes(r) + post, |pre|;
    FourSlices(pre, PutI16(r.left), PutI16(r.top), PutI16(r.right), PutI16(r.bottom), post);
    SignedAt(s, n, r.left);
    SignedAt(s, n + 2, r.top);
    SignedAt(s, n + 4, r.right);
    SignedAt(s, n + 6, r.bottom);
  }

  lemma BodyLen(p: GfxPdu)
    ensures HEADER_LEN + |Body(p)| == EncodedLen(p) == |Encode(p)|
  {
  }

  lemma SurfaceSlices(s: seq<byte>, c: seq<byte>, f: byte, r: seq<byte>, n: seq<byte>, bitmap: seq<byte>)
    requires |s| == |c| == 2 && |r| == 8 && |n| == 4
    ensures var b := s + c + [f] + r + n + bitmap;
      && b[0..2] == s && b[2..4] == c && b[4] == f && b[13..17] == n && b[17..17 + |bitmap|] == bitmap
      && b == (s + c + [f]) + r + (n + bitmap)
  {
  }

  lemma SurfaceRoundTrip(p: GfxPdu)
    requires p.WireToSurface1? && |p.bitmap| < 0x1_0000_0000
    ensures DecodeBody(CmdId(p), Body(p)) == Ok(p)
  {
    Widths();
    GetPut(p.surfaceId, 2);
    GetPut(p.codecId, 2);
    GetPut(|p.bitmap|, 4);
    var s, c, r, n := Put(p.surfaceId, 2), Put(p.codecId, 2), RectBytes(p.destRect), Put(|p.bitmap|, 4);
    SurfaceSlices(s, c, p.pixelFormat, r, n, p.bitmap);
    RectAt(s + c + [p.pixelFormat], p.destRect, n + p.bitmap);
    SurfaceFields(p, Body(p));
  }

  lemma SurfaceFields(p: GfxPdu, b: seq<byte>)
    requires p.WireToSurface1? && |b| == 17 + |p.bitmap|
    requires GetU16(b, 0) == p.surfaceId && GetU16(b, 2) == p.codecId && b[4] == p.pixelFormat
    requires Rect(GetI16(b, 5), GetI16(b, 7), GetI16(b, 9), GetI16(b, 11)) == p.destRect
    requires GetU32(b, 13) == |p.bitmap| && b[17..17 + |p.bitmap|] == p.bitmap
    ensures DecodeBody(CMDID_WIRETOSURFACE_1, b) == Ok(p)
  {
  }

  lemma WordSlices(x: seq<byte>, y: seq<byte>, z: seq<byte>)
    requires |x| == |y| == |z| == 4
    ensures x[0..4] == x
    ensures (x + y)[0..4] == x && (x + y)[4..8] == y
    ensures (x + y + z)[0..4] == x && (x + y + z)[4..8] == y && (x + y + z)[8..12] == z
  {
  }

  lemma WordAt(s: seq<byte>, at: nat, n: u32)
    requires at + 4 <= |s| && s[at..at + 4] == Put(n, 4)
    ensures GetU32(s, at) == n
  {
    Widths();
    GetPut(n, 4);
  }

  lemma TwoWords(a: u32, b: u32)
    ensures GetU32(Put(a, 4), 0) == a
    ensures var s := Put(a, 4) + Put(b, 4); GetU32(s, 0) == a && GetU32(s, 4) == b
  {
    var x, y := Put(a, 4), Put(b, 4);
    WordSlices(x, y, y);
    WordAt(x, 0, a);
    WordAt(x + y, 0, a);
    WordAt(x + y, 4, b);
  }

  lemma ThreeWords(a: u32, b: u32, c: u32)
    ensures var s := Put(a, 4) + Put(b, 4) + Put(c, 4);
      GetU32(s, 0) == a && GetU32(s, 4) == b && GetU32(s, 8) == c
  {
    var x, y, z := Put(a, 4), Put(b, 4), Put(c, 4);
    WordSlices(x, y, z);
    WordAt(x + y + z, 0, a);
    WordAt(x + y + z, 4, b);
    WordAt(x + y + z, 8, c);
  }

  lemma BodyRoundTrip(p: GfxPdu)
    requires EncodedLen(p) < 0x1_0000_0000
    ensures DecodeBody(CmdId(p), Body(p)) == Ok(p)
  {
    match p
    case StartFrame(id, ts) => TwoWords(id, ts);
    case EndFrame(id) => TwoWords(id, 0);
    case WireToSurface1(_, _, _, _, _) => SurfaceRoundTrip(p);
    case FrameAcknowledge(depth, id, total) => ThreeWords(depth, id, total);
  }

  lemma HeaderSlices(cmd: seq<byte>, flags: seq<byte>, len: seq<byte>, body: seq<byte>, tail: seq<byte>)
    requires |cmd| == |flags| == 2 && |len| == 4
    ensures var buf := cmd + flags + len + body + tail;
      buf[0..2] == cmd && buf[4..8] == len && buf[8..8 + |body|] == body
  {
  }

  lemma HeaderFields(p: GfxPdu, tail: seq<byte>)
    ensures var buf := Encode(p) + tail;
      && GetU16(buf, 0) == CmdId(p)
      && GetU32(buf, 4) == Get(Put(EncodedLen(p), 4))
      && buf[HEADER_LEN..EncodedLen(p)] == Body(p)
  {
    Widths();
    BodyLen(p);
    GetPut(CmdId(p), 2);
    HeaderSlices(Put(CmdId(p), 2), Put(0, 2), Put(EncodedLen(p), 4), Body(p), tail);
  }

  /** A PDU decodes back to itself, consuming exactly its own bytes whatever
      follows, exactly when its length fits the 32-bit length field. */
  lemma RoundTripExactly(p: GfxPdu, tail: seq<byte>)
    ensures Decode(Encode(p) + tail) == Ok((p, EncodedLen(p))) <==> EncodedLen(p) < 0x1_0000_0000
    ensures |Encode(p)| == EncodedLen(p)
  {
    Widths();
    BodyLen(p);
    HeaderFields(p, tail);
    if EncodedLen(p) < 0x1_0000_0000 {
      GetPut(EncodedLen(p), 4);
      BodyRoundTrip(p);
    } else {
      GetBound(Put(EncodedLen(p), 4));
    }
  }

  // ------------------------------------------------------------- the wire format

  /** The command number of section 2.2.1.5, flags of zero and the whole length, then
      the fields of the body, each at its offset. */
  ghost predicate HeaderOnWire(s: seq<byte>, p: GfxPdu) {
    && |s| >= 8 && U32At(s, 4) == |s|
    && U16At(s, 0) == match p
         case WireToSurface1(_, _, _, _, _) => 0x0001
         case StartFrame(_, _) => 0x000b
         case EndFrame(_) => 0x000c
         case FrameAcknowledge(_, _, _) => 0x000d
  }

  ghost predicate FieldsAt(s: seq<byte>, p: GfxPdu) {
    match p
    case StartFrame(id, ts) => |s| >= 16 && U32At(s, 8) == id && U32At(s, 12) == ts
    case EndFrame(id) => |s| >= 12 && U32At(s, 8) == id
    case WireToSurface1(surface, codec, format, rect, bitmap) =>
      && |s| >= 25 && U16At(s, 8) == surface && U16At(s, 10) == codec && s[12] == format
      && I16At(s, 13) == rect.left && I16At(s, 15) == rect.top
      && I16At(s, 17) == rect.right && I16At(s, 19) == rect.bottom
      && U32At(s, 21) == |bitmap| && |s| >= 25 + |bitmap| && s[25..25 + |bitmap|] == bitmap
    case FrameAcknowledge(depth, id, total) =>
      |s| >= 20 && U32At(s, 8) == depth && U32At(s, 12) == id && U32At(s, 16) == total
  }

  lemma ReadAt(s: seq<byte>, at: nat)
    ensures at + 2 <= |s| ==> GetU16(s, at) == U16At(s, at) && GetI16(s, at) == I16At(s, at)
    ensures at + 4 <= |s| ==> GetU32(s, at) == U32At(s, at)
  {
    if at + 2 <= |s| { KnownBytes2(s[at..at + 2]); }
    if at + 4 <= |s| { KnownBytes4(s[at..at + 4]); }
  }

  /** The bytes of the body sit eight further on in the buffer. */
  lemma Offset(buf: seq<byte>, n: nat, at: nat)
    requires 8 <= n <= |buf|
    ensures var body := buf[8..n];
      && (at + 2 <= |body| ==> U16At(body, at) == U16At(buf, at + 8) && I16At(body, at) == I16At(buf, at + 8))
      && (at + 4 <= |body| ==> U32At(body, at) == U32At(buf, at + 8))
  {
  }

  /** What a decoded body says about the buffer. */
  lemma BodyReads(buf: seq<byte>, n: nat, p: GfxPdu)
    requires 8 <= n <= |buf| && DecodeBody(GetU16(buf, 0), buf[8..n]) == Ok(p)
    ensures FieldsAt(buf[..n], p)
  {
    var body, s := buf[8..n], buf[..n];
    assert body == s[8..n];
    match p
    case StartFrame(_, _) =>
      ReadAt(body, 0); ReadAt(body, 4);
      Offset(s, n, 0); Offset(s, n, 4);
    case EndFrame(_) =>
      ReadAt(body, 0);
      Offset(s, n, 0);
    case FrameAcknowledge(_, _, _) =>
      ReadAt(body, 0); ReadAt(body, 4); ReadAt(body, 8);
      Offset(s, n, 0); Offset(s, n, 4); Offset(s, n, 8);
    case WireToSurface1(_, _, _, _, bitmap) =>
      SurfaceReads(body, p);
      Offset(s, n, 0); Offset(s, n, 2); Offset(s, n, 13);
      Offset(s, n, 5); Offset(s, n, 7); Offset(s, n, 9); Offset(s, n, 11);
      assert s[25..25 + |bitmap|] == body[17..17 + |bitmap|];
  }

  lemma SurfaceReads(body: seq<byte>, p: GfxPdu)
    requires p.WireToSurface1? && DecodeBody(CMDID_WIRETOSURFACE_1, body) == Ok(p)
    ensures |body| >= 17 && U16At(body, 0) == p.surfaceId && U16At(body, 2) == p.codecId && body[4] == p.pixelFormat
    ensures I16At(body, 5) == p.destRect.left && I16At(body, 7) == p.destRect.top
    ensures I16At(body, 9) == p.destRect.right && I16At(body, 11) == p.destRect.bottom
    ensures U32At(body, 13) == |p.bitmap| && |body| >= 17 + |p.bitmap| && body[17..17 + |p.bitmap|] == p.bitmap
  {
    ReadAt(body, 0); ReadAt(body, 2); ReadAt(body, 13);
    ReadAt(body, 5); ReadAt(body, 7); ReadAt(body, 9); ReadAt(body, 11);
  }

  /** A decoded PDU is what the bytes say: its length field, its command number and
      every field at its offset. */
  lemma DecodeReadsTheWire(buf: seq<byte>, p: GfxPdu, n: nat)
    requires Decode(buf) == Ok((p, n))
    ensures 8 <= n <= |buf| && U32At(buf, 4) == n && HeaderOnWire(buf[..n], p) && FieldsAt(buf[..n], p)
  {
    ReadAt(buf, 0);
    ReadAt(buf, 4);
    BodyReads(buf, n, p);
    assert U16At(buf[..n], 0) == U16At(buf, 0) && U32At(buf[..n], 4) == U32At(buf, 4);
  }

  /** A PDU is decoded exactly when its command is known and its length covers the
      fixed fields, and for a bitmap the bitmap. */
  lemma DecodesExactly(buf: seq<byte>)
    ensures Decode(buf).Ok? <==>
      |buf| >= 8 && var cmd, n := U16At(buf, 0), U32At(buf, 4);
        8 <= n <= |buf| &&
          (|| (cmd == 0x000b && n >= 16) || (cmd == 0x000c && n >= 12) || (cmd == 0x000d && n >= 20)
           || (cmd == 0x0001 && n >= 25 && n >= 25 + U32At(buf, 21)))
  {
    if |buf| >= 8 {
      ReadAt(buf, 0);
      ReadAt(buf, 4);
      var n := U32At(buf, 4);
      if 25 <= n <= |buf| {
        ReadAt(buf[8..n], 13);
        Offset(buf, n, 13);
      }
    }
  }

  /** An encoded PDU is those bytes, with flags of zero and nothing behind. */
  lemma EncodeWritesTheWire(p: GfxPdu)
    requires EncodedLen(p) < 0x1_0000_0000
    ensures var s := Encode(p);
      && HeaderOnWire(s, p) && FieldsAt(s, p) && s[2] == s[3] == 0
      && |s| == match p
         case StartFrame(_, _) => 16
         case EndFrame(_) => 12
         case WireToSurface1(_, _, _, _, bitmap) => 25 + |bitmap|
         case FrameAcknowledge(_, _, _) => 20
  {
    var s := Encode(p);
    RoundTripExactly(p, []);
    assert s + [] == s;
    DecodeReadsTheWire(s, p, EncodedLen(p));
    assert s[..EncodedLen(p)] == s;
    assert s[2..4] == Put(0, 2) && Put(0, 2) == [0 % 256] + Put(0, 1);
    assert Put(0, 1) == [0] + Put(0, 0);
  }

  // ------------------------------------------------------------------- iteration

  /** Everything the iterator yields: PDUs, then at most one error. */
  function IterAll(buf: seq<byte>): (r: seq<Result<GfxPdu, GfxError>>)
    ensures |r| * HEADER_LEN <= |buf| + HEADER_LEN
    decreases |buf|
  {
    if buf == [] then []
    else match Decode(buf)
      case Ok((p, n)) => [Ok(p)] + IterAll(buf[n..])
      case Err(e) => [Err(e)]
  }

  function AllOk(ps: seq<GfxPdu>): seq<Result<GfxPdu, GfxError>> {
    if ps == [] then [] else [Ok(ps[0])] + AllOk(ps[1..])
  }

  lemma IterOne(p: GfxPdu, rest: seq<byte>)
    requires EncodedLen(p) < 0x1_0000_0000
    ensures IterAll(Encode(p) + rest) == [Ok(p)] + IterAll(rest)
  {
    var buf := Encode(p) + rest;
    RoundTripExactly(p, rest);
    assert buf[EncodedLen(p)..] == rest;
  }

  /** Concatenated encodings iterate to exactly the PDUs that were encoded; what
      follows them is iterated as if it stood alone. */
  lemma {:induction false} IterRoundTrip(ps: seq<GfxPdu>, tail: seq<byte>)
    requires forall p :: p in ps ==> EncodedLen(p) < 0x1_0000_0000
    ensures IterAll(EncodeAll(ps) + tail) == AllOk(ps) + IterAll(tail)
  {
    if ps == [] {
      assert EncodeAll(ps) + tail == tail;
      assert AllOk(ps) + IterAll(tail) == IterAll(tail);
    } else {
      IterOne(ps[0], EncodeAll(ps[1..]) + tail);
      IterRoundTrip(ps[1..], tail);
      Reassociate(Encode(ps[0]), EncodeAll(ps[1..]), tail);
      Reassociate([Ok(ps[0])], AllOk(ps[1..]), IterAll(tail));
    }
  }

  lemma Reassociate<T>(a: seq<T>, b: seq<T>, c: seq<T>)
    ensures a + b + c == a + (b + c)
  {
  }

  ghost predicate ErrorsOnlyLast(r: seq<Result<GfxPdu, GfxError>>) {
    forall i :: 0 <= i < |r| - 1 ==> r[i].Ok?
  }

  /** An error ends the iteration. */
  lemma {:induction false} ErrorIsLast(buf: seq<byte>)
    ensures ErrorsOnlyLast(IterAll(buf))
    decreases |buf|
  {
    if buf != [] && Decode(buf).Ok? {
      var (p, n) := Decode(buf).value;
      ErrorIsLast(buf[n..]);
      OkInFront(p, IterAll(buf[n..]));
    }
  }

  lemma OkInFront(p: GfxPdu, r: seq<Result<GfxPdu, GfxError>>)
    requires ErrorsOnlyLast(r)
    ensures ErrorsOnlyLast([Ok(p)] + r)
  {
  }

  /** `GfxPduIter`. */
  class GfxPduIter {
    var rest: seq<byte>

    constructor (buf: seq<byte>)
      ensures rest == buf
    {
      rest := buf;
    }

    method Next() returns (item: Option<Result<GfxPdu, GfxError>>)
      modifies this
      ensures item.None? <==> IterAll(old(rest)) == []
      ensures item.Some? ==> IterAll(old(rest)) == [item.value] + IterAll(rest) && |rest| < |old(rest)|
      ensures item.None? ==> rest == old(rest)
    {
      if rest == [] {
        return None;
      }
      match Decode(rest)
      case Ok((pdu, consumed)) =>
        rest := rest[consumed..];
        return Some(Ok(pdu));
      case Err(e) =>
        rest := [];
        return Some(Err(e));
    }
  }

  /** `GfxPdu::encode`. */
  method EncodeInto(p: GfxPdu, dst: ByteBuffer)
    modifies dst
    ensures dst.data == old(dst.data) + Encode(p)
    ensures EncodedLen(p) < 0x1_0000_0000 ==>
      HeaderOnWire(dst.data[|old(dst.data)|..], p) && FieldsAt(dst.data[|old(dst.data)|..], p)
  {
    var body := BodyBytes(p);
    dst.Extend(Put(CmdId(p), 2));
    dst.Extend(Put(0, 2));
    dst.Extend(Put(HEADER_LEN + |body|, 4));
    dst.Extend(body);
    Reassociate(old(dst.data), Put(CmdId(p), 2), Put(0, 2));
    Reassociate(old(dst.data), Put(CmdId(p), 2) + Put(0, 2), Put(HEADER_LEN + |body|, 4));
    Reassociate(old(dst.data), Put(CmdId(p), 2) + Put(0, 2) + Put(HEADER_LEN + |body|, 4), body);
    assert dst.data[|old(dst.data)|..] == Encode(p);
    if EncodedLen(p) < 0x1_0000_0000 { EncodeWritesTheWire(p); }
  }

  method BodyBytes(p: GfxPdu) returns (bytes: seq<byte>)
    ensures bytes == Body(p)
  {
    var body := new ByteBuffer();
    match p {
      case StartFrame(id, ts) =>
        body.Extend(Put(id, 4));
        body.Extend(Put(ts, 4));
        assert [] + Put(id, 4) == Put(id, 4);
      case EndFrame(id) =>
        body.Extend(Put(id, 4));
        assert [] + Put(id, 4) == Put(id, 4);
      case WireToSurface1(surface, codec, format, rect, bitmap) =>
        body.Extend(Put(surface, 2));
        assert [] + Put(surface, 2) == Put(surface, 2);
        body.Extend(Put(codec, 2));
        body.Extend([format]);
        body.Extend(RectBytes(rect));
        body.Extend(Put(|bitmap|, 4));
        body.Extend(bitmap);
      case FrameAcknowledge(depth, id, total) =>
        body.Extend(Put(depth, 4));
        assert [] + Put(depth, 4) == Put(depth, 4);
        body.Extend(Put(id, 4));
        body.Extend(Put(total, 4));
    }
    bytes := body.data;
  }
}
