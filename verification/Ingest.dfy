/** Reassembling frames from PDUs and pairing them with capture records. */
module Ingest {
  import opened Prelude
  import opened LittleEndian
  import opened Calendar
  import opened Gfx
  import Mux

  const MAX_PENDING: nat := 64

  datatype Region = Region(codecId: u16, rect: Rect, data: seq<byte>)

  /** One finished frame awaiting its metadata record. */
  datatype PendingFrame = PendingFrame(codecId: u16, data: seq<byte>)

  // ---------------------------------------------------------------- reassembly

  /** The assembler between two PDUs. */
  datatype Assembly = Assembly(current: Option<u32>, regions: seq<Region>)

  function RegionBlob(r: Region): seq<byte> {
    RectBytes(r.rect) + Put(|r.data|, 4) + r.data
  }

  function Blob(regions: seq<Region>): seq<byte> {
    if regions == [] then [] else Blob(regions[..|regions| - 1]) + RegionBlob(regions[|regions| - 1])
  }

  /** A single region is passed on verbatim; several are concatenated. */
  function Pack(regions: seq<Region>): PendingFrame {
    if |regions| == 1 then PendingFrame(regions[0].codecId, regions[0].data)
    else
      PendingFrame(
        if regions == [] then CODECID_UNCOMPRESSED else regions[|regions| - 1].codecId,
        Blob(regions))
  }

  /** A reader of the packed regions of a frame: a rectangle of four 16-bit numbers,
      a length, and that many bytes, again and again. */
  function ReadRegions(s: seq<byte>): Option<seq<(Rect, seq<byte>)>>
    decreases |s|
  {
    if s == [] then Some([])
    else if |s| < 12 || |s| < 12 + U32At(s, 8) then None
    else
      var n := U32At(s, 8);
      Widths();
      KnownBytes2(s[0..2]); KnownBytes2(s[2..4]); KnownBytes2(s[4..6]); KnownBytes2(s[6..8]);
      PutGetSigned(s[0..2]); PutGetSigned(s[2..4]); PutGetSigned(s[4..6]); PutGetSigned(s[6..8]);
      match ReadRegions(s[12 + n..])
      case None => None
      case Some(rest) => Some([(Rect(I16At(s, 0), I16At(s, 2), I16At(s, 4), I16At(s, 6)), s[12..12 + n])] + rest)
  }

  function Parts(regions: seq<Region>): seq<(Rect, seq<byte>)> {
    if regions == [] then [] else [(regions[0].rect, regions[0].data)] + Parts(regions[1..])
  }

  ghost predicate SizesFit(regions: seq<Region>) {
    forall r :: r in regions ==> |r.data| < 0x1_0000_0000
  }

  lemma {:induction false} BlobFront(r: Region, rest: seq<Region>)
    ensures Blob([r] + rest) == RegionBlob(r) + Blob(rest)
    decreases |rest|
  {
    var all := [r] + rest;
    if rest == [] {
      assert all[..0] == [] && all[0] == r;
      assert Blob([]) + RegionBlob(r) == RegionBlob(r) + Blob([]);
    } else {
      var n := |rest| - 1;
      assert all[..|rest|] == [r] + rest[..n] && all[|rest|] == rest[n];
      BlobFront(r, rest[..n]);
      assert RegionBlob(r) + Blob(rest[..n]) + RegionBlob(rest[n])
          == RegionBlob(r) + (Blob(rest[..n]) + RegionBlob(rest[n]));
    }
  }

  lemma ReadOne(r: Region, tail: seq<byte>)
    requires |r.data| < 0x1_0000_0000
    ensures var s := RegionBlob(r) + tail;
      && |s| == 12 + |r.data| + |tail| && U32At(s, 8) == |r.data|
      && s[12..12 + |r.data|] == r.data && s[12 + |r.data|..] == tail
      && I16At(s, 0) == r.rect.left && I16At(s, 2) == r.rect.top
      && I16At(s, 4) == r.rect.right && I16At(s, 6) == r.rect.bottom
  {
    var s := RegionBlob(r) + tail;
    Widths();
    GetPut(|r.data|, 4);
    KnownBytes4(Put(|r.data|, 4));
    assert s[8..12] == Put(|r.data|, 4);
    RectAt([], r.rect, Put(|r.data|, 4) + r.data + tail);
    assert s == [] + RectBytes(r.rect) + (Put(|r.data|, 4) + r.data + tail);
    ReadAt(s, 0); ReadAt(s, 2); ReadAt(s, 4); ReadAt(s, 6);
  }

  /** The reader recovers every rectangle and payload of a packed frame, in order. */
  lemma {:induction false} BlobReadsBack(regions: seq<Region>)
    requires SizesFit(regions)
    ensures ReadRegions(Blob(regions)) == Some(Parts(regions))
    decreases |regions|
  {
    if regions != [] {
      var r, rest := regions[0], regions[1..];
      assert regions == [r] + rest;
      BlobFront(r, rest);
      ReadOne(r, Blob(rest));
      BlobReadsBack(rest);
    }
  }

  /** The frame of a list of regions: a single one verbatim, several recoverable from
      the bytes, the codec that of the last, and uncompressed if there is none. */
  ghost predicate FrameHolds(f: PendingFrame, regions: seq<Region>) {
    && f.codecId == (if regions == [] then 0x0000 else regions[|regions| - 1].codecId)
    && (regions == [] ==> f.data == [])
    && (|regions| == 1 ==> f.data == regions[0].data)
    && (|regions| > 1 && SizesFit(regions) ==> ReadRegions(f.data) == Some(Parts(regions)))
  }

  lemma PackHolds(regions: seq<Region>)
    ensures FrameHolds(Pack(regions), regions)
  {
    if SizesFit(regions) { BlobReadsBack(regions); }
  }

  function OnPdu(a: Assembly, p: GfxPdu): (Assembly, seq<PendingFrame>) {
    match p
    case StartFrame(id, _) => (Assembly(Some(id), []), [])
    case WireToSurface1(_, codec, _, rect, bitmap) =>
      (if a.current.Some? then a.(regions := a.regions + [Region(codec, rect, bitmap)]) else a, [])
    case EndFrame(id) =>
      if a.current == Some(id) then (Assembly(None, []), [Pack(a.regions)]) else (a, [])
    case FrameAcknowledge(_, _, _) => (a, [])
  }

  /** The frames that a list of PDUs completes. */
  function Assemble(a: Assembly, ps: seq<GfxPdu>): (Assembly, seq<PendingFrame>)
    decreases |ps|
  {
    if ps == [] then (a, [])
    else
      var (b, done) := OnPdu(a, ps[0]);
      var (c, more) := Assemble(b, ps[1..]);
      (c, done + more)
  }

  lemma {:induction false} AssembleAppend(a: Assembly, ps: seq<GfxPdu>, qs: seq<GfxPdu>)
    ensures var (b, first) := Assemble(a, ps);
      var (c, second) := Assemble(b, qs);
      Assemble(a, ps + qs) == (c, first + second)
    decreases |ps|
  {
    if ps == [] {
      assert ps + qs == qs;
      assert [] + Assemble(a, qs).1 == Assemble(a, qs).1;
    } else {
      assert (ps + qs)[0] == ps[0] && (ps + qs)[1..] == ps[1..] + qs;
      var (b, done) := OnPdu(a, ps[0]);
      AssembleAppend(b, ps[1..], qs);
      var (c, first) := Assemble(b, ps[1..]);
      assert done + (first + Assemble(c, qs).1) == done + first + Assemble(c, qs).1;
    }
  }

  /** A frame as the client sends it. */
  datatype Shot = Shot(id: u32, timestamp: u32, surface: u16, format: byte, regions: seq<Region>)

  function RegionPdus(s: Shot, regions: seq<Region>): seq<GfxPdu> {
    if regions == [] then []
    else
      var r := regions[0];
      [WireToSurface1(s.surface, r.codecId, s.format, r.rect, r.data)] + RegionPdus(s, regions[1..])
  }

  function ShotPdus(s: Shot): seq<GfxPdu> {
    [StartFrame(s.id, s.timestamp)] + RegionPdus(s, s.regions) + [EndFrame(s.id)]
  }

  function Pdus(shots: seq<Shot>): seq<GfxPdu> {
    if shots == [] then [] else ShotPdus(shots[0]) + Pdus(shots[1..])
  }

  function Packed(shots: seq<Shot>): seq<PendingFrame> {
    if shots == [] then [] else [Pack(shots[0].regions)] + Packed(shots[1..])
  }

  lemma {:induction false} RegionsCollected(s: Shot, have: seq<Region>, regions: seq<Region>)
    ensures Assemble(Assembly(Some(s.id), have), RegionPdus(s, regions)) == (Assembly(Some(s.id), have + regions), [])
    decreases |regions|
  {
    if regions == [] {
      assert have + regions == have;
    } else {
      var r := regions[0];
      var ps := RegionPdus(s, regions);
      RegionsCollected(s, have + [r], regions[1..]);
      assert have + [r] + regions[1..] == have + regions;
      assert ps[1..] == RegionPdus(s, regions[1..]);
      assert r == Region(r.codecId, r.rect, r.data);
      assert OnPdu(Assembly(Some(s.id), have), ps[0]) == (Assembly(Some(s.id), have + [r]), []);
      var rest := Assemble(Assembly(Some(s.id), have + [r]), ps[1..]);
      assert rest.1 == [] && [] + rest.1 == rest.1;
    }
  }

  lemma AssembleOne(a: Assembly, p: GfxPdu)
    ensures Assemble(a, [p]) == OnPdu(a, p)
  {
    var (b, done) := OnPdu(a, p);
    assert [p][1..] == [];
    assert Assemble(b, []) == (b, []);
    assert done + [] == done;
  }

  lemma ShotCompletes(a: Assembly, s: Shot)
    ensures Assemble(a, ShotPdus(s)) == (Assembly(None, []), [Pack(s.regions)])
  {
    var open := Assembly(Some(s.id), []);
    AssembleOne(a, StartFrame(s.id, s.timestamp));
    RegionsCollected(s, [], s.regions);
    assert [] + s.regions == s.regions;
    AssembleOne(Assembly(Some(s.id), s.regions), EndFrame(s.id));
    var start, middle, end := [StartFrame(s.id, s.timestamp)], RegionPdus(s, s.regions), [EndFrame(s.id)];
    AssembleAppend(a, start, middle);
    assert Assemble(a, start + middle) == (Assembly(Some(s.id), s.regions), []);
    AssembleAppend(a, start + middle, end);
    assert ShotPdus(s) == start + middle + end;
    assert [] + [Pack(s.regions)] == [Pack(s.regions)];
  }

  /** Whatever the assembler was doing before, each complete START..END group
      yields exactly its own frame, in order. */
  lemma {:induction false} ShotsComplete(a: Assembly, shots: seq<Shot>)
    ensures var frames := Assemble(a, Pdus(shots)).1;
      && frames == Packed(shots) && |frames| == |shots|
      && forall k :: 0 <= k < |shots| ==> FrameHolds(frames[k], shots[k].regions)
    decreases |shots|
  {
    PackedAt(shots);
    forall k | 0 <= k < |shots| ensures FrameHolds(Packed(shots)[k], shots[k].regions) {
      PackHolds(shots[k].regions);
    }
    if shots != [] {
      ShotCompletes(a, shots[0]);
      ShotsComplete(Assembly(None, []), shots[1..]);
      AssembleAppend(a, ShotPdus(shots[0]), Pdus(shots[1..]));
    }
  }

  /** The PDUs in front of the first error. */
  function OkPrefix(items: seq<Result<GfxPdu, GfxError>>): seq<GfxPdu> {
    if items == [] || items[0].Err? then [] else [items[0].value] + OkPrefix(items[1..])
  }

  predicate NoError(items: seq<Result<GfxPdu, GfxError>>) {
    |OkPrefix(items)| == |items|
  }

  lemma {:induction false} OkPrefixAll(ps: seq<GfxPdu>)
    ensures OkPrefix(AllOk(ps)) == ps
  {
    if ps != [] {
      assert AllOk(ps)[1..] == AllOk(ps[1..]);
      OkPrefixAll(ps[1..]);
    }
  }

  /** From end to end: frames encoded as PDUs, sent on the graphics channel among
      other frames, cut into chunks anywhere, come out of the assembler as sent. */
  lemma FramesSurviveTheWire(
    before: seq<Mux.MuxFrame>, shots: seq<Shot>, behind: seq<Mux.MuxFrame>, a: Assembly, chunks: seq<seq<byte>>)
    requires forall p :: p in Pdus(shots) ==> EncodedLen(p) < 0x1_0000_0000
    requires var frame := Mux.MuxFrame(Mux.GfxRdp, EncodeAll(Pdus(shots)));
      && (forall f :: f in before + [frame] + behind ==> Mux.Legal(f))
      && Flatten(chunks) == Mux.EncodeAll(before + [frame] + behind)
    ensures var got := Mux.DecodeAll(Flatten(chunks));
      && got.error.None? && |got.frames| == |before| + 1 + |behind|
      && got.frames[|before|].channel == Mux.GfxRdp
      && Assemble(a, OkPrefix(IterAll(got.frames[|before|].payload))).1 == Packed(shots)
  {
    var frame := Mux.MuxFrame(Mux.GfxRdp, EncodeAll(Pdus(shots)));
    Mux.StreamRoundTrip(before + [frame] + behind);
    IterRoundTrip(Pdus(shots), []);
    assert EncodeAll(Pdus(shots)) + [] == EncodeAll(Pdus(shots));
    assert AllOk(Pdus(shots)) + [] == AllOk(Pdus(shots));
    OkPrefixAll(Pdus(shots));
    ShotsComplete(a, shots);
  }

  // ------------------------------------------------------- pairing, by position

  /** A session as the pairing queue sees it. */
  datatype Msg = Complete | Receive

  /** `completed` frames so far, of which those from `oldest` on are queued, and
      the position of the frame that each received capture was given. */
  datatype Pairing = Pairing(completed: nat, oldest: nat, given: seq<Option<nat>>)

  function OnMsg(s: Pairing, m: Msg): Pairing {
    match m
    case Complete =>
      Pairing(
        s.completed + 1,
        if s.completed - s.oldest >= MAX_PENDING then s.oldest + 1 else s.oldest,
        s.given)
    case Receive =>
      if s.oldest < s.completed then Pairing(s.completed, s.oldest + 1, s.given + [Some(s.oldest)])
      else s.(given := s.given + [None])
  }

  function Pair(msgs: seq<Msg>): Pairing {
    if msgs == [] then Pairing(0, 0, [])
    else OnMsg(Pair(msgs[..|msgs| - 1]), msgs[|msgs| - 1])
  }

  function CountOf(msgs: seq<Msg>, m: Msg): nat {
    if msgs == [] then 0
    else CountOf(msgs[..|msgs| - 1], m) + if msgs[|msgs| - 1] == m then 1 else 0
  }

  /** Frames completed but not yet claimed. */
  function Balance(msgs: seq<Msg>): int {
    CountOf(msgs, Complete) - CountOf(msgs, Receive)
  }

  /** Every capture arrives while between 1 and 64 frames are unclaimed. */
  ghost predicate Balanced(msgs: seq<Msg>) {
    forall i :: 0 <= i < |msgs| && msgs[i] == Receive ==> 0 < Balance(msgs[..i]) <= 64
  }

  ghost predicate InStep(given: seq<Option<nat>>) {
    forall k :: 0 <= k < |given| ==> given[k] == Some(k)
  }

  lemma BalancedPrefix(msgs: seq<Msg>)
    requires msgs != []
    ensures var n := |msgs| - 1;
      Balanced(msgs) <==> Balanced(msgs[..n]) && (msgs[n] == Receive ==> 0 < Balance(msgs[..n]) <= MAX_PENDING)
  {
    var n := |msgs| - 1;
    forall i | 0 <= i < n ensures msgs[..n][..i] == msgs[..i] && msgs[..n][i] == msgs[i] {
    }
    if Balanced(msgs[..n]) && (msgs[n] == Receive ==> 0 < Balance(msgs[..n]) <= MAX_PENDING) {
      forall i | 0 <= i < |msgs| && msgs[i] == Receive ensures 0 < Balance(msgs[..i]) <= MAX_PENDING {
        if i < n {
          assert msgs[..n][i] == Receive;
        }
      }
    }
    if Balanced(msgs) {
      forall i | 0 <= i < n && msgs[..n][i] == Receive ensures 0 < Balance(msgs[..n][..i]) <= MAX_PENDING {
        assert msgs[i] == Receive;
      }
    }
  }

  /** The k-th capture gets the k-th frame, for every k, exactly when every capture
      arrives while between 1 and 64 frames are unclaimed. */
  lemma {:induction false} PairingExactly(msgs: seq<Msg>)
    ensures var s := Pair(msgs);
      && s.oldest <= s.completed <= s.oldest + 64
      && s.completed == CountOf(msgs, Complete) && |s.given| == CountOf(msgs, Receive)
      && (InStep(s.given) <==> Balanced(msgs))
      && (InStep(s.given) ==>
            |s.given| <= s.completed
            && s.oldest == if s.completed - |s.given| > 64 then s.completed - 64 else |s.given|)
    decreases |msgs|
  {
    if msgs != [] {
      var n := |msgs| - 1;
      PairingExactly(msgs[..n]);
      BalancedPrefix(msgs);
      var s, t := Pair(msgs[..n]), Pair(msgs);
      if msgs[n] == Receive {
        var last := t.given[|s.given|];
        assert InStep(t.given) <==> InStep(s.given) && last == Some(|s.given|) by {
          if InStep(t.given) {
            forall k | 0 <= k < |s.given| ensures s.given[k] == Some(k) { assert t.given[k] == s.given[k]; }
          }
        }
      }
    }
  }

  // --------------------------------------------------------------- the assembler

  class FrameAssembler {
    var currentId: Option<u32>
    var timestamp: u32
    var regions: seq<Region>

    /** The regions matter only while a frame is open. */
    function View(): Assembly
      reads this
    {
      Assembly(currentId, if currentId.Some? then regions else [])
    }

    constructor ()
      ensures View() == Assembly(None, [])
    {
      currentId, timestamp, regions := None, 0, [];
    }

    method Begin(frameId: u32, ts: u32)
      modifies this
      ensures View() == Assembly(Some(frameId), []) && timestamp == ts
    {
      currentId := Some(frameId);
      timestamp := ts;
      regions := [];
    }

    method AddRegion(codecId: u16, rect: Rect, data: seq<byte>)
      modifies this
      ensures old(View()).current.Some? ==>
        View() == old(View()).(regions := old(View()).regions + [Region(codecId, rect, data)])
      ensures old(View()).current.None? ==> View() == old(View())
    {
      if currentId.Some? {
        regions := regions + [Region(codecId, rect, data)];
      }
    }

    method Finish(frameId: u32) returns (done: Option<PendingFrame>)
      modifies this
      ensures old(View()).current == Some(frameId) ==>
        && done == Some(Pack(old(View()).regions)) && FrameHolds(done.value, old(View()).regions)
        && View() == Assembly(None, [])
      ensures old(View()).current != Some(frameId) ==> done == None && View() == old(View())
    {
      if currentId != Some(frameId) {
        return None;
      }
      PackHolds(regions);
      currentId := None;
      if |regions| == 1 {
        var r := regions[0];
        regions := [];
        return Some(PendingFrame(r.codecId, r.data));
      }
      var blob: seq<byte> := [];
      var codec: u16 := CODECID_UNCOMPRESSED;
      var i := 0;
      while i < |regions|
        invariant 0 <= i <= |regions|
        invariant blob == Blob(regions[..i])
        invariant codec == if i == 0 then CODECID_UNCOMPRESSED else regions[i - 1].codecId
      {
        var r := regions[i];
        assert regions[..i + 1][..i] == regions[..i];
        codec := r.codecId;
        blob := blob + (RectBytes(r.rect) + Put(|r.data|, 4) + r.data);
        i := i + 1;
      }
      assert regions[..|regions|] == regions;
      regions := [];
      done := Some(PendingFrame(codec, blob));
    }
  }

  // --------------------------------------------------------------- what is stored

  /** A capture record: its image token and its time. */
  datatype Record = Record(token: string, timestamp: i64)

  datatype Extension = Jpg | Raw

  /** What one record hands to the object store. */
  datatype Stored = Stored(extension: Extension, data: seq<byte>)

  datatype ObjectPath = ObjectPath(date: Date, name: string, extension: Extension)

  function ObjectOf(f: PendingFrame): Stored {
    Stored(if f.codecId == CODECID_JPEG then Jpg else Raw, f.data)
  }

  /** The characters that a path keeps; `alnum` says which are alphanumeric. */
  function Kept(alnum: char -> bool): char -> bool {
    (c: char) => alnum(c) || c == '-' || c == '_' || c == '.'
  }

  type KeyPath = (Record, Extension) -> ObjectPath

  /** Where the object store keeps a record's object. */
  function PathIn(alnum: char -> bool): KeyPath {
    (r: Record, extension: Extension) =>
      ObjectPath(YmdFromFiletime(r.timestamp), Filter(Kept(alnum), r.token), extension)
  }

  /** A path keeps letters, digits, '-', '_' and '.', and a token of only those whole. */
  lemma PathOfPlainToken(alnum: char -> bool, r: Record, extension: Extension)
    ensures var p := PathIn(alnum)(r, extension);
      && p.extension == extension && p.date == YmdFromFiletime(r.timestamp)
      && (forall c :: c in p.name ==> alnum(c) || c in {'-', '_', '.'})
      && ((forall c :: c in r.token ==> alnum(c) || c in {'-', '_', '.'}) ==> p.name == r.token)
  {
    if forall c :: c in r.token ==> alnum(c) || c in {'-', '_', '.'} {
      FilterAll(Kept(alnum), r.token);
    }
  }

  /** One put: a later one at the same path overwrites. */
  function PutIn(
    path: KeyPath, objects: map<ObjectPath, seq<byte>>, r: Record, put: Option<Stored>): map<ObjectPath, seq<byte>>
  {
    if put.None? then objects else objects[path(r, put.value.extension) := put.value.data]
  }

  /** The objects after the puts of all records, in order. */
  function Puts(
    path: KeyPath, base: map<ObjectPath, seq<byte>>, records: seq<Record>, stored: seq<Option<Stored>>)
    : map<ObjectPath, seq<byte>>
    requires |records| == |stored|
  {
    if records == [] then base
    else
      var n := |records| - 1;
      PutIn(path, Puts(path, base, records[..n], stored[..n]), records[n], stored[n])
  }

  predicate HasToken(rows: seq<Record>, token: string) {
    exists i :: 0 <= i < |rows| && rows[i].token == token
  }

  /** One insert: a known token adds nothing. */
  function RowIn(rows: seq<Record>, r: Record): seq<Record> {
    if HasToken(rows, r.token) then rows else rows + [r]
  }

  /** The capture rows after inserting all records, in order. */
  function Inserted(base: seq<Record>, records: seq<Record>): seq<Record> {
    if records == [] then base
    else RowIn(Inserted(base, records[..|records| - 1]), records[|records| - 1])
  }

  ghost predicate TokensDistinct(rows: seq<Record>) {
    forall i, j :: 0 <= i < j < |rows| ==> rows[i].token != rows[j].token
  }

  /** Every token has one row, the row of the record that first brought it. */
  lemma {:induction false} OneRowPerToken(base: seq<Record>, records: seq<Record>)
    requires TokensDistinct(base)
    ensures var rows := Inserted(base, records);
      && TokensDistinct(rows) && base <= rows
      && (forall token :: HasToken(rows, token) <==> HasToken(base, token) || HasToken(records, token))
      && (forall i :: |base| <= i < |rows| ==>
            exists k :: 0 <= k < |records| && records[k] == rows[i] && !HasToken(records[..k], rows[i].token))
    decreases |records|
  {
    if records != [] {
      var n := |records| - 1;
      var rows, before := Inserted(base, records), Inserted(base, records[..n]);
      OneRowPerToken(base, records[..n]);
      forall token ensures HasToken(rows, token) <==> HasToken(base, token) || HasToken(records, token) {
        TokenInFront(records, token);
        if rows != before { TokenInFront(rows, token); }
      }
      forall i | |base| <= i < |rows|
        ensures exists k :: 0 <= k < |records| && records[k] == rows[i] && !HasToken(records[..k], rows[i].token)
      {
        if i < |before| {
          var k :| 0 <= k < n && records[..n][k] == before[i] && !HasToken(records[..n][..k], before[i].token);
          assert records[..n][..k] == records[..k];
        } else {
          assert !HasToken(records[..n], records[n].token);
        }
      }
    }
  }

  lemma TokenInFront(rows: seq<Record>, token: string)
    requires rows != []
    ensures HasToken(rows, token) <==> HasToken(rows[..|rows| - 1], token) || rows[|rows| - 1].token == token
  {
    var n := |rows| - 1;
    if HasToken(rows[..n], token) {
      var i :| 0 <= i < n && rows[..n][i].token == token;
      assert rows[i].token == token;
    }
    if HasToken(rows, token) && rows[n].token != token {
      var i :| 0 <= i < |rows| && rows[i].token == token;
      assert rows[..n][i].token == token;
    }
  }

  /** Does record `j` write to the path of record `k`? */
  predicate SamePath(path: KeyPath, records: seq<Record>, stored: seq<Option<Stored>>, j: nat, k: nat)
    requires j < |records| == |stored| && k < |stored| && stored[k].Some?
  {
    && stored[j].Some?
    && path(records[j], stored[j].value.extension) == path(records[k], stored[k].value.extension)
  }

  /** An object is what the last record with its path wrote. */
  lemma {:induction false} LastPutWins(
    path: KeyPath, base: map<ObjectPath, seq<byte>>, records: seq<Record>, stored: seq<Option<Stored>>, k: nat)
    requires |records| == |stored| && k < |records| && stored[k].Some?
    requires forall j :: k < j < |records| ==> !SamePath(path, records, stored, j, k)
    ensures var at := path(records[k], stored[k].value.extension);
      var objects := Puts(path, base, records, stored);
      at in objects && objects[at] == stored[k].value.data
    decreases |records|
  {
    var n := |records| - 1;
    if k < n {
      assert !SamePath(path, records, stored, n, k);
      forall j | k < j < n ensures !SamePath(path, records[..n], stored[..n], j, k) {
        assert !SamePath(path, records, stored, j, k);
      }
      LastPutWins(path, base, records[..n], stored[..n], k);
    }
  }

  lemma PutsMore(
    path: KeyPath, base: map<ObjectPath, seq<byte>>, records: seq<Record>, stored: seq<Option<Stored>>,
    r: Record, put: Option<Stored>)
    requires |records| == |stored|
    ensures Puts(path, base, records + [r], stored + [put]) == PutIn(path, Puts(path, base, records, stored), r, put)
  {
    assert (records + [r])[..|records|] == records && (stored + [put])[..|stored|] == stored;
  }

  lemma InsertedMore(base: seq<Record>, records: seq<Record>, r: Record)
    ensures Inserted(base, records + [r]) == RowIn(Inserted(base, records), r)
  {
    assert (records + [r])[..|records|] == records;
  }

  /** A record whose token is known replaces the object and leaves the row. */
  lemma ResentRecord(
    path: KeyPath, base: map<ObjectPath, seq<byte>>, rows: seq<Record>, records: seq<Record>,
    stored: seq<Option<Stored>>, r: Record, o: Stored)
    requires |records| == |stored| && HasToken(Inserted(rows, records), r.token)
    ensures Inserted(rows, records + [r]) == Inserted(rows, records)
    ensures var at := path(r, o.extension);
      Puts(path, base, records + [r], stored + [Some(o)]) == Puts(path, base, records, stored)[at := o.data]
  {
    InsertedMore(rows, records, r);
    PutsMore(path, base, records, stored, r, Some(o));
  }

  // ---------------------------------------------------------- a session, by value

  /** How far a session has come: its assembler, the frames completed and records
      received so far, and the order in which they came. */
  datatype Progress = Progress(
    assembly: Assembly, completed: seq<PendingFrame>, records: seq<Record>, msgs: seq<Msg>)

  function Many(n: nat, m: Msg): seq<Msg> {
    seq(n, i => m)
  }

  function FeedPdu(s: Progress, p: GfxPdu): Progress {
    var (a, done) := OnPdu(s.assembly, p);
    Progress(a, s.completed + done, s.records, s.msgs + Many(|done|, Complete))
  }

  /** One graphics payload: the PDUs in front of the first error. */
  function FeedAll(s: Progress, items: seq<Result<GfxPdu, GfxError>>): Progress
    decreases |items|
  {
    if items == [] || items[0].Err? then s else FeedAll(FeedPdu(s, items[0].value), items[1..])
  }

  function TakeRecords(s: Progress, records: seq<Record>): Progress {
    s.(records := s.records + records, msgs := s.msgs + Many(|records|, Receive))
  }

  lemma ManyMore(m: nat, n: nat, x: Msg)
    ensures Many(m, x) + Many(n, x) == Many(m + n, x)
  {
  }

  /** Feeding a payload is assembling the PDUs in front of its first error. */
  lemma {:induction false} FeedAllAssembles(s: Progress, items: seq<Result<GfxPdu, GfxError>>)
    ensures var (a, done) := Assemble(s.assembly, OkPrefix(items));
      FeedAll(s, items) == Progress(a, s.completed + done, s.records, s.msgs + Many(|done|, Complete))
    decreases |items|
  {
    if items == [] || items[0].Err? {
      assert s.completed + [] == s.completed && s.msgs + Many(0, Complete) == s.msgs;
    } else {
      var p := items[0].value;
      var (b, first) := OnPdu(s.assembly, p);
      FeedAllAssembles(FeedPdu(s, p), items[1..]);
      var (a, rest) := Assemble(b, OkPrefix(items[1..]));
      assert OkPrefix(items)[1..] == OkPrefix(items[1..]);
      assert Assemble(s.assembly, OkPrefix(items)) == (a, first + rest);
      FedInTwo(s, first, rest);
    }
  }

  lemma FedInTwo(s: Progress, first: seq<PendingFrame>, rest: seq<PendingFrame>)
    ensures s.completed + first + rest == s.completed + (first + rest)
    ensures s.msgs + Many(|first|, Complete) + Many(|rest|, Complete) == s.msgs + Many(|first + rest|, Complete)
  {
    ManyMore(|first|, |rest|, Complete);
    assert s.msgs + Many(|first|, Complete) + Many(|rest|, Complete)
        == s.msgs + (Many(|first|, Complete) + Many(|rest|, Complete));
  }

  /** A batch of capture records, and whether it names the session's client. */
  datatype Batch = Batch(sameClient: bool, records: seq<Record>)

  /** What this model takes from outside: how metadata payloads parse, and which
      audio and control frames are handled without an error. */
  datatype Outside = Outside(parse: seq<byte> -> Option<Batch>, accepts: Mux.MuxFrame -> bool)

  /** One channel frame, and whether the session goes on after it. */
  function OnFrame(o: Outside, s: Progress, f: Mux.MuxFrame): (Progress, bool) {
    match f.channel
    case GfxRdp => (FeedAll(s, IterAll(f.payload)), NoError(IterAll(f.payload)))
    case PcMeta =>
      (match o.parse(f.payload)
       case None => (s, false)
       case Some(b) => (if b.sameClient then TakeRecords(s, b.records) else s, true))
    case PcAudio => (s, o.accepts(f))
    case PcCtrl => (s, o.accepts(f))
    case PcQuery => (s, true)
  }

  function ServeAll(o: Outside, s: Progress, frames: seq<Mux.MuxFrame>): (Progress, bool)
    decreases |frames|
  {
    if frames == [] then (s, true)
    else
      var (t, ok) := OnFrame(o, s, frames[0]);
      if ok then ServeAll(o, t, frames[1..]) else (t, false)
  }

  // ------------------------------------------------------------------ the session

  function NextPut(pending: seq<PendingFrame>): Option<Stored> {
    if pending == [] then None else Some(ObjectOf(pending[0]))
  }

  function Behind(pending: seq<PendingFrame>): seq<PendingFrame> {
    if pending == [] then [] else pending[1..]
  }

  /** The queue and the stored objects are what the positional pairing names. */
  ghost predicate Paired(
    msgs: seq<Msg>, completed: seq<PendingFrame>, pending: seq<PendingFrame>, stored: seq<Option<Stored>>)
  {
    var s := Pair(msgs);
    && s.completed == |completed| && s.oldest <= |completed|
    && pending == completed[s.oldest..] && |pending| <= MAX_PENDING
    && |stored| == |s.given|
    && forall k :: 0 <= k < |stored| ==>
         match s.given[k]
         case None => stored[k] == None
         case Some(j) => j < |completed| && stored[k] == Some(ObjectOf(completed[j]))
  }

  /** The tables are what the records, in order, make of those found before. */
  ghost predicate Filed(
    path: KeyPath, rowsBefore: seq<Record>, objectsBefore: map<ObjectPath, seq<byte>>,
    records: seq<Record>, stored: seq<Option<Stored>>, rows: seq<Record>, objects: map<ObjectPath, seq<byte>>)
  {
    && |stored| == |records|
    && objects == Puts(path, objectsBefore, records, stored) && rows == Inserted(rowsBefore, records)
  }

  lemma FiledMore(
    path: KeyPath, rowsBefore: seq<Record>, objectsBefore: map<ObjectPath, seq<byte>>,
    records: seq<Record>, stored: seq<Option<Stored>>, rows: seq<Record>, objects: map<ObjectPath, seq<byte>>,
    r: Record, put: Option<Stored>)
    requires Filed(path, rowsBefore, objectsBefore, records, stored, rows, objects)
    ensures Filed(
      path, rowsBefore, objectsBefore, records + [r], stored + [put], RowIn(rows, r), PutIn(path, objects, r, put))
  {
    PutsMore(path, objectsBefore, records, stored, r, put);
    InsertedMore(rowsBefore, records, r);
  }

  lemma PairedReceive(
    msgs: seq<Msg>, completed: seq<PendingFrame>, pending: seq<PendingFrame>, stored: seq<Option<Stored>>)
    requires Paired(msgs, completed, pending, stored)
    ensures Paired(msgs + [Receive], completed, Behind(pending), stored + [NextPut(pending)])
  {
    assert (msgs + [Receive])[..|msgs|] == msgs;
    assert Pair(msgs + [Receive]) == OnMsg(Pair(msgs), Receive);
  }

  class IngestSession {
    const path: KeyPath
    const frames: FrameAssembler
    var pending: seq<PendingFrame>
    var rows: seq<Record>
    var objects: map<ObjectPath, seq<byte>>
    ghost const rowsBefore: seq<Record>
    ghost const objectsBefore: map<ObjectPath, seq<byte>>
    ghost var completed: seq<PendingFrame>
    ghost var records: seq<Record>
    ghost var msgs: seq<Msg>
    ghost var stored: seq<Option<Stored>>

    /** The queue is the newest end of the completed frames, every record stored
        the frame that the positional pairing names, and the tables are what the
        records, in order, make of those the session found. */
    ghost predicate Valid()
      reads this
    {
      && Paired(msgs, completed, pending, stored)
      && Filed(path, rowsBefore, objectsBefore, records, stored, rows, objects)
    }

    ghost function View(): Progress
      reads this, frames
    {
      Progress(frames.View(), completed, records, msgs)
    }

    /** A session over a client's existing rows and objects. */
    constructor (path: KeyPath, rows: seq<Record>, objects: map<ObjectPath, seq<byte>>)
      ensures Valid() && fresh(frames) && View() == Progress(Assembly(None, []), [], [], [])
      ensures this.path == path && rowsBefore == rows && objectsBefore == objects && stored == []
    {
      this.path := path;
      frames := new FrameAssembler();
      pending, this.rows, this.objects := [], rows, objects;
      rowsBefore, objectsBefore := rows, objects;
      completed, records, msgs, stored := [], [], [], [];
    }

    /** A finished frame joins the queue; the oldest gives way when it is full. */
    method Enqueue(f: PendingFrame)
      requires Valid()
      modifies this`pending, this`completed, this`msgs
      ensures Valid() && completed == old(completed) + [f] && msgs == old(msgs) + [Complete]
      ensures pending == (if |old(pending)| >= 64 then old(pending)[1..] else old(pending)) + [f]
    {
      ghost var s := Pair(msgs);
      PairingExactly(msgs);
      assert (msgs + [Complete])[..|msgs|] == msgs;
      if |pending| >= MAX_PENDING {
        pending := pending[1..];
      }
      pending := pending + [f];
      completed := completed + [f];
      msgs := msgs + [Complete];
      assert Pair(msgs) == OnMsg(s, Complete);
    }

    /** Parse one GFXRDP payload. */
    method HandleGfx(payload: seq<byte>) returns (r: Result<(), GfxError>)
      requires Valid()
      modifies this, frames
      ensures Valid() && View() == FeedAll(old(View()), IterAll(payload))
      ensures r.Ok? <==> NoError(IterAll(payload))
      ensures rows == old(rows) && objects == old(objects) && stored == old(stored)
    {
      var iter := new GfxPduIter(payload);
      while true
        invariant Valid() && fresh(iter)
        invariant rows == old(rows) && objects == old(objects) && stored == old(stored)
        invariant FeedAll(old(View()), IterAll(payload)) == FeedAll(View(), IterAll(iter.rest))
        invariant NoError(IterAll(payload)) == NoError(IterAll(iter.rest))
        decreases |iter.rest|
      {
        ghost var items := IterAll(iter.rest);
        var item := iter.Next();
        if item.None? {
          return Ok(());
        }
        assert items[0] == item.value && items[1..] == IterAll(iter.rest);
        match item.value
        case Err(e) =>
          return Err(e);
        case Ok(p) =>
          assert OkPrefix(items) == [p] + OkPrefix(items[1..]);
          Feed(p);
      }
    }

    method Feed(p: GfxPdu)
      requires Valid()
      modifies this`pending, this`completed, this`msgs, frames
      ensures Valid() && View() == FeedPdu(old(View()), p)
    {
      assert completed + [] == completed && msgs + Many(0, Complete) == msgs;
      assert Many(1, Complete) == [Complete];
      match p
      case StartFrame(id, ts) => frames.Begin(id, ts);
      case WireToSurface1(_, codec, _, rect, bitmap) => frames.AddRegion(codec, rect, bitmap);
      case EndFrame(id) =>
        var done := frames.Finish(id);
        if done.Some? {
          Enqueue(done.value);
        }
      case FrameAcknowledge(_, _, _) =>
    }

    /** Receive a batch of capture records; one for another client is dropped. */
    method HandleMeta(batch: Batch)
      requires Valid()
      modifies this`pending, this`rows, this`objects, this`records, this`stored, this`msgs
      ensures Valid()
      ensures View() == if batch.sameClient then TakeRecords(old(View()), batch.records) else old(View())
      ensures !batch.sameClient ==>
        rows == old(rows) && objects == old(objects) && pending == old(pending) && stored == old(stored)
    {
      if !batch.sameClient {
        return;
      }
      StoreAll(batch.records);
    }

    method StoreAll(rs: seq<Record>)
      requires Valid()
      modifies this`pending, this`rows, this`objects, this`records, this`stored, this`msgs
      ensures Valid() && records == old(records) + rs && msgs == old(msgs) + Many(|rs|, Receive)
    {
      assert records + rs[..0] == records && msgs + Many(0, Receive) == msgs;
      for k := 0 to |rs|
        invariant Valid()
        invariant records == old(records) + rs[..k] && msgs == old(msgs) + Many(k, Receive)
      {
        StoreRecord(rs[k]);
        OneMoreRecord(old(records), old(msgs), rs, k);
      }
      assert rs[..|rs|] == rs;
    }

    /** Pair a record with the oldest queued frame, if there is one; put the object,
        then insert the row unless its token is known. */
    method StoreRecord(r: Record)
      requires Valid()
      modifies this`pending, this`rows, this`objects, this`records, this`stored, this`msgs
      ensures Valid() && records == old(records) + [r] && msgs == old(msgs) + [Receive]
      ensures old(pending) == [] ==> pending == [] && stored == old(stored) + [None]
      ensures old(pending) != [] ==> pending == old(pending)[1..] && |stored| == |old(stored)| + 1
      ensures old(pending) != [] ==>
        var f := old(pending)[0];
        stored[|old(stored)|] == Some(Stored(if f.codecId == 0x00f1 then Jpg else Raw, f.data))
    {
      ghost var put := NextPut(pending);
      PairedReceive(msgs, completed, pending, stored);
      FiledMore(path, rowsBefore, objectsBefore, records, stored, rows, objects, r, put);
      PutNext(r);
      InsertCapture(r);
      records, stored, msgs := records + [r], stored + [put], msgs + [Receive];
      assert Paired(msgs, completed, pending, stored);
      assert Filed(path, rowsBefore, objectsBefore, records, stored, rows, objects);
    }

    /** Put the object of the oldest queued frame, if there is one. */
    method PutNext(r: Record)
      modifies this`pending, this`objects
      ensures pending == Behind(old(pending))
      ensures objects == PutIn(path, old(objects), r, NextPut(old(pending)))
    {
      if pending != [] {
        var o := ObjectOf(pending[0]);
        pending := pending[1..];
        objects := objects[path(r, o.extension) := o.data];
      }
    }

    /** Insert the row unless its token is known. */
    method InsertCapture(r: Record)
      modifies this`rows
      ensures rows == RowIn(old(rows), r)
    {
      if !HasToken(rows, r.token) {
        rows := rows + [r];
      }
    }

    /** The session loop over decoded frames. */
    method Serve(o: Outside, input: seq<Mux.MuxFrame>) returns (ok: bool)
      requires Valid()
      modifies this, frames
      ensures Valid() && (View(), ok) == ServeAll(o, old(View()), input)
    {
      assert input[0..] == input;
      for i := 0 to |input|
        invariant Valid()
        invariant ServeAll(o, old(View()), input) == ServeAll(o, View(), input[i..])
      {
        assert input[i..][0] == input[i] && input[i..][1..] == input[i + 1..];
        var goesOn := ServeOne(o, input[i]);
        if !goesOn {
          return false;
        }
      }
      return true;
    }

    method ServeOne(o: Outside, f: Mux.MuxFrame) returns (ok: bool)
      requires Valid()
      modifies this, frames
      ensures Valid() && (View(), ok) == OnFrame(o, old(View()), f)
    {
      match f.channel
      case GfxRdp =>
        var r := HandleGfx(f.payload);
        ok := r.Ok?;
      case PcMeta =>
        var batch := o.parse(f.payload);
        if batch.Some? {
          HandleMeta(batch.value);
        }
        ok := batch.Some?;
      case PcAudio => ok := o.accepts(f);
      case PcCtrl => ok := o.accepts(f);
      case PcQuery => ok := true;
    }

    /** Bytes as they arrive, decoded and served until the first error. */
    method Run(o: Outside, chunks: seq<seq<byte>>) returns (ok: bool)
      requires Valid()
      modifies this, frames
      ensures Valid()
      ensures var input := Mux.DecodeAll(Flatten(chunks));
        && View() == ServeAll(o, old(View()), input.frames).0
        && (ok <==> ServeAll(o, old(View()), input.frames).1 && input.error.None?)
    {
      var input, error := Mux.FeedAndDrain(chunks);
      ok := Serve(o, input);
      ok := ok && error.None?;
    }
  }

  lemma OneMoreRecord(before: seq<Record>, msgs: seq<Msg>, records: seq<Record>, k: nat)
    requires k < |records|
    ensures before + records[..k] + [records[k]] == before + records[..k + 1]
    ensures msgs + Many(k, Receive) + [Receive] == msgs + Many(k + 1, Receive)
  {
  }

  /** What a session stored, once its messages were balanced: the k-th record has
      exactly the k-th completed frame. */
  lemma BalancedSessionsStoreInOrder(session: IngestSession)
    requires session.Valid() && Balanced(session.msgs)
    ensures |session.stored| == |session.records| <= |session.completed|
    ensures forall k :: 0 <= k < |session.stored| ==> session.stored[k] == Some(ObjectOf(session.completed[k]))
  {
    PairingExactly(session.msgs);
  }

  // -------------------------------------------------------------- from end to end

  /** A channel frame as the client sends it: part of its PDU stream, a batch of
      records, or something on another channel. */
  datatype Sent = Part(pdus: seq<GfxPdu>) | Told(payload: seq<byte>, records: seq<Record>) | Other(frame: Mux.MuxFrame)

  function FrameOf(x: Sent): Mux.MuxFrame {
    match x
    case Part(pdus) => Mux.MuxFrame(Mux.GfxRdp, EncodeAll(pdus))
    case Told(payload, _) => Mux.MuxFrame(Mux.PcMeta, payload)
    case Other(f) => f
  }

  predicate Sendable(o: Outside, x: Sent) {
    && Mux.Legal(FrameOf(x))
    && match x
       case Part(pdus) => forall p :: p in pdus ==> EncodedLen(p) < 0x1_0000_0000
       case Told(payload, records) => o.parse(payload) == Some(Batch(true, records))
       case Other(f) => f.channel == Mux.PcQuery || (f.channel in {Mux.PcAudio, Mux.PcCtrl} && o.accepts(f))
  }

  function FramesOf(xs: seq<Sent>): seq<Mux.MuxFrame> {
    if xs == [] then [] else [FrameOf(xs[0])] + FramesOf(xs[1..])
  }

  function PdusIn(x: Sent): seq<GfxPdu> {
    if x.Part? then x.pdus else []
  }

  function RecordsIn(x: Sent): seq<Record> {
    if x.Told? then x.records else []
  }

  /** The completed frames, or the records, that one sent frame amounts to. */
  function MsgsIn(a: Assembly, x: Sent): seq<Msg> {
    if x.Part? then Many(|Assemble(a, x.pdus).1|, Complete) else Many(|RecordsIn(x)|, Receive)
  }

  function PdusOf(xs: seq<Sent>): seq<GfxPdu> {
    if xs == [] then [] else PdusIn(xs[0]) + PdusOf(xs[1..])
  }

  function RecordsOf(xs: seq<Sent>): seq<Record> {
    if xs == [] then [] else RecordsIn(xs[0]) + RecordsOf(xs[1..])
  }

  function MsgsOf(a: Assembly, xs: seq<Sent>): seq<Msg>
    decreases |xs|
  {
    if xs == [] then [] else MsgsIn(a, xs[0]) + MsgsOf(Assemble(a, PdusIn(xs[0])).0, xs[1..])
  }

  /** Where a session stands after everything sent has been served. */
  function Served(s: Progress, xs: seq<Sent>): Progress {
    var (a, done) := Assemble(s.assembly, PdusOf(xs));
    Progress(a, s.completed + done, s.records + RecordsOf(xs), s.msgs + MsgsOf(s.assembly, xs))
  }

  /** What one sent frame does to a session. */
  function After(s: Progress, x: Sent): Progress {
    var (a, done) := Assemble(s.assembly, PdusIn(x));
    Progress(a, s.completed + done, s.records + RecordsIn(x), s.msgs + MsgsIn(s.assembly, x))
  }

  lemma ServedOne(o: Outside, s: Progress, x: Sent)
    requires Sendable(o, x)
    ensures OnFrame(o, s, FrameOf(x)) == (After(s, x), true)
  {
    Glue(s.completed, [], []);
    Glue(s.records, [], []);
    match x
    case Part(pdus) =>
      IterRoundTrip(pdus, []);
      Glue(EncodeAll(pdus), [], []);
      Glue(AllOk(pdus), [], []);
      OkPrefixAll(pdus);
      AllOkLength(pdus);
      FeedAllAssembles(s, AllOk(pdus));
    case Told(_, _) =>
    case Other(_) =>
      assert s.msgs + Many(0, Receive) == s.msgs;
  }

  lemma Glue<T>(a: seq<T>, b: seq<T>, c: seq<T>)
    ensures a + (b + c) == a + b + c && a + [] == a && [] + c == c
  {
  }

  lemma {:induction false} AllOkLength(ps: seq<GfxPdu>)
    ensures |AllOk(ps)| == |ps|
  {
    if ps != [] { AllOkLength(ps[1..]); }
  }

  lemma ServedRest(s: Progress, xs: seq<Sent>)
    requires xs != []
    ensures Served(After(s, xs[0]), xs[1..]) == Served(s, xs)
  {
    var x, rest := xs[0], xs[1..];
    var t := After(s, x);
    AssembleAppend(s.assembly, PdusIn(x), PdusOf(rest));
    Glue(s.completed, Assemble(s.assembly, PdusIn(x)).1, Assemble(t.assembly, PdusOf(rest)).1);
    Glue(s.records, RecordsIn(x), RecordsOf(rest));
    Glue(s.msgs, MsgsIn(s.assembly, x), MsgsOf(t.assembly, rest));
  }

  /** Serving what was sent assembles its PDUs across payloads and takes its records
      in order. */
  lemma {:induction false} SentIsServed(o: Outside, s: Progress, xs: seq<Sent>)
    requires forall x :: x in xs ==> Sendable(o, x)
    ensures ServeAll(o, s, FramesOf(xs)) == (Served(s, xs), true)
    decreases |xs|
  {
    if xs == [] {
      Glue(s.completed, [], []);
      Glue(s.records, [], []);
      Glue(s.msgs, [], []);
    } else {
      ServedOne(o, s, xs[0]);
      assert FramesOf(xs)[1..] == FramesOf(xs[1..]);
      SentIsServed(o, After(s, xs[0]), xs[1..]);
      ServedRest(s, xs);
    }
  }

  lemma {:induction false} FramesLegal(o: Outside, xs: seq<Sent>)
    requires forall x :: x in xs ==> Sendable(o, x)
    ensures forall f :: f in FramesOf(xs) ==> Mux.Legal(f)
  {
    if xs != [] {
      FramesLegal(o, xs[1..]);
      assert Sendable(o, xs[0]) && xs[0] in xs;
    }
  }

  lemma {:induction false} PackedAt(shots: seq<Shot>)
    ensures |Packed(shots)| == |shots|
    ensures forall k :: 0 <= k < |shots| ==> Packed(shots)[k] == Pack(shots[k].regions)
  {
    if shots != [] { PackedAt(shots[1..]); }
  }

  /** From bytes to pairs. The client's frames, cut into PDU payloads anywhere and
      interleaved with its records in a balanced order, go out as one stream: the
      session completes exactly those frames, receives exactly those records, and
      gives the k-th record the k-th frame. */
  lemma BytesToPairs(o: Outside, xs: seq<Sent>, shots: seq<Shot>)
    requires forall x :: x in xs ==> Sendable(o, x)
    requires PdusOf(xs) == Pdus(shots) && Balanced(MsgsOf(Assembly(None, []), xs))
    ensures var input := Mux.DecodeAll(Mux.EncodeAll(FramesOf(xs)));
      var (e, ok) := ServeAll(o, Progress(Assembly(None, []), [], [], []), input.frames);
      && input.error.None? && ok
      && e.completed == Packed(shots) && e.records == RecordsOf(xs) && Balanced(e.msgs)
      && InStep(Pair(e.msgs).given)
  {
    FramesLegal(o, xs);
    Mux.StreamRoundTrip(FramesOf(xs));
    SentIsServed(o, Progress(Assembly(None, []), [], [], []), xs);
    EmptyStart(xs, shots);
    PairingExactly(MsgsOf(Assembly(None, []), xs));
  }

  /** From bytes to objects: however the stream is cut into chunks, the k-th record
      stores exactly the k-th frame. */
  method StoreWhatWasSent(
    o: Outside, alnum: char -> bool, rows: seq<Record>, objects: map<ObjectPath, seq<byte>>,
    chunks: seq<seq<byte>>, ghost xs: seq<Sent>, ghost shots: seq<Shot>)
    returns (session: IngestSession, ok: bool)
    requires forall x :: x in xs ==> Sendable(o, x)
    requires Flatten(chunks) == Mux.EncodeAll(FramesOf(xs))
    requires PdusOf(xs) == Pdus(shots) && Balanced(MsgsOf(Assembly(None, []), xs))
    ensures ok && session.Valid() && session.rowsBefore == rows && session.objectsBefore == objects
    ensures session.path == PathIn(alnum) && session.records == RecordsOf(xs) && |session.records| <= |shots|
    ensures forall k :: 0 <= k < |session.records| ==>
      k < |session.stored| && session.stored[k] == Some(ObjectOf(Pack(shots[k].regions)))
    ensures forall k :: 0 <= k < |session.records| ==> StoredAs(session.stored[k].value, shots[k].regions)
  {
    BytesToPairs(o, xs, shots);
    session := new IngestSession(PathIn(alnum), rows, objects);
    ok := session.Run(o, chunks);
    BalancedSessionsStoreInOrder(session);
    PackedAt(shots);
    forall k | 0 <= k < |session.records| ensures StoredAs(session.stored[k].value, shots[k].regions) {
      HoldsAsStored(shots[k].regions);
    }
  }

  /** What the object store is given for a list of regions: the JPEG itself, under its
      extension, if it is one region in that codec. */
  ghost predicate StoredAs(o: Stored, regions: seq<Region>) {
    && o.extension == (if regions != [] && regions[|regions| - 1].codecId == 0x00f1 then Jpg else Raw)
    && (regions == [] ==> o.data == [])
    && (|regions| == 1 ==> o.data == regions[0].data)
    && (|regions| > 1 && SizesFit(regions) ==> ReadRegions(o.data) == Some(Parts(regions)))
  }

  lemma HoldsAsStored(regions: seq<Region>)
    ensures StoredAs(ObjectOf(Pack(regions)), regions)
  {
    PackHolds(regions);
  }

  lemma EmptyStart(xs: seq<Sent>, shots: seq<Shot>)
    requires PdusOf(xs) == Pdus(shots)
    ensures var s := Served(Progress(Assembly(None, []), [], [], []), xs);
      && s.completed == Packed(shots) && s.records == RecordsOf(xs) && s.msgs == MsgsOf(Assembly(None, []), xs)
  {
    ShotsComplete(Assembly(None, []), shots);
    assert [] + Packed(shots) == Packed(shots);
  }

  /** The objects that such a session leaves: a record's object is its own frame
      unless a later record has the same path. */
  lemma ObjectsAreFrames(session: IngestSession, shots: seq<Shot>, k: nat)
    requires session.Valid() && k < |session.records| <= |shots|
    requires forall i :: 0 <= i < |session.records| ==>
      i < |session.stored| && session.stored[i] == Some(ObjectOf(Pack(shots[i].regions)))
    requires forall j :: k < j < |session.records| ==>
      !SamePath(session.path, session.records, session.stored, j, k)
    ensures var o := ObjectOf(Pack(shots[k].regions));
      var at := session.path(session.records[k], o.extension);
      at in session.objects && session.objects[at] == o.data
  {
    LastPutWins(session.path, session.objectsBefore, session.records, session.stored, k);
  }
}
