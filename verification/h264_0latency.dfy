/**
 * The zero-latency H.264 demultiplexer (modules/demux/mpeg/h264_0latency.c).
 *
 * The input is a live byte stream of records, each a 12-byte header (an
 * 8-byte big-endian timestamp, a 4-byte big-endian length) followed by a raw
 * payload. A timestamp of all ones marks a configuration payload: it is kept
 * in a pending accumulator and prepended to the next media payload, which is
 * then forwarded as one unit. Everything else is forwarded at once.
 *
 * The stream reader, the block allocator and the output sink are outside
 * this file: what they answer during one call is an input (`Replies`).
 */
module H264ZeroLatency {
  import opened Wrappers
  import opened BigEndian

  const HEADER_SIZE: nat := 12

  /** The timestamp the server sends with a configuration payload (all 64 bits set). */
  const NO_PTS: nat := 0xFFFF_FFFF_FFFF_FFFF

  /** VLC_TICK_INVALID, the "no timestamp" tick value of VLC (zero). */
  const TICK_INVALID: int := 0

  const INT64_MIN: int := -0x8000_0000_0000_0000
  const INT64_MAX: int := 0x7FFF_FFFF_FFFF_FFFF

  /** A decoded frame header: timestamp and declared payload length. */
  datatype Header = Header(pts: nat, len: nat)

  /** A block_t as far as this demultiplexer looks at it. */
  datatype Block = Block(data: seq<Byte>, pts: int, dts: int, flags: int)

  /** The demultiplexer's return codes VLC_DEMUXER_SUCCESS, VLC_DEMUXER_EOF and VLC_DEMUXER_EGENERIC. */
  datatype DemuxStatus = DemuxSuccess | DemuxEof | DemuxError

  /** The plain VLC return codes used by Open and Control. */
  datatype VlcStatus = VlcSuccess | VlcEGeneric | VlcENoMem

  /** What the outside world answers during one Demux call. */
  datatype Replies = Replies(
    header: seq<Byte>,       // the bytes vlc_stream_Read delivered (fewer than 12 on a short read or an error)
    payload: Option<Block>,  // the block vlc_stream_Block returned; None for NULL
    allocOk: bool,           // whether block_Alloc or block_Realloc, whichever is called, succeeds
    sendOk: bool)            // whether es_out_Send returns VLC_SUCCESS

  /** The outcome of one Demux call: its return code, the unit handed to es_out_Send if any, and the new accumulator. */
  datatype StepResult = StepResult(status: DemuxStatus, sent: Option<Block>, pending: Option<seq<Byte>>)

  // ---------------------------------------------------------------------------
  // Header arithmetic
  // ---------------------------------------------------------------------------

  /** Header fields: the timestamp is bytes 0-7 and the length bytes 8-11, both big-endian. */
  function DecodeHeader(h: seq<Byte>): (hd: Header)
    requires |h| == HEADER_SIZE
    ensures hd.pts < TWO_64 && hd.len < TWO_32
  {
    Pow256Widths();
    Header(BeValue(h[..8]), BeValue(h[8..]))
  }

  /** The header a server writes for timestamp pts and a payload of len bytes. */
  function EncodeHeader(pts: nat, len: nat): (h: seq<Byte>)
    requires pts < TWO_64 && len < TWO_32
    ensures |h| == HEADER_SIZE
  {
    Pow256Widths();
    BeBytes(pts, 8) + BeBytes(len, 4)
  }

  lemma HeaderRoundTrip(pts: nat, len: nat)
    requires pts < TWO_64 && len < TWO_32
    ensures DecodeHeader(EncodeHeader(pts, len)) == Header(pts, len)
  {
    Pow256Widths();
    var h := EncodeHeader(pts, len);
    assert h[..8] == BeBytes(pts, 8) && h[8..] == BeBytes(len, 4);
    BeValueOfBeBytes(pts, 8);
    BeValueOfBeBytes(len, 4);
  }

  lemma HeaderBytesRoundTrip(h: seq<Byte>)
    requires |h| == HEADER_SIZE
    ensures EncodeHeader(DecodeHeader(h).pts, DecodeHeader(h).len) == h
  {
    BeBytesOfBeValue(h[..8]);
    BeBytesOfBeValue(h[8..]);
    assert h == h[..8] + h[8..];
  }

  /**
   * The shift-and-or expressions that build the fields: the shifted bytes
   * occupy disjoint bits, so each field is the weighted sum of its bytes.
   */
  lemma HeaderFieldsAreShiftedBytes(h: seq<Byte>)
    requires |h| == HEADER_SIZE
    ensures DecodeHeader(h).pts ==
      (h[0] as int) * 0x100_0000_0000_0000 + (h[1] as int) * 0x1_0000_0000_0000 + (h[2] as int) * 0x100_0000_0000
      + (h[3] as int) * 0x1_0000_0000 + (h[4] as int) * 0x100_0000 + (h[5] as int) * 0x1_0000 + (h[6] as int) * 0x100 + (h[7] as int)
    ensures DecodeHeader(h).len == (h[8] as int) * 0x100_0000 + (h[9] as int) * 0x1_0000 + (h[10] as int) * 0x100 + (h[11] as int)
  {
    var p := h[..8];
    BeValue8(p);
    BeValue4(p[..4]);
    BeValue4(p[4..]);
    BeValue4(h[8..]);
  }

  /** A header announces a configuration payload exactly when its first eight bytes are all 0xFF. */
  lemma ConfigHeaderBytes(h: seq<Byte>)
    requires |h| == HEADER_SIZE
    ensures DecodeHeader(h).pts == NO_PTS <==> h[..8] == [0xFF, 0xFF, 0xFF, 0xFF, 0xFF, 0xFF, 0xFF, 0xFF]
  {
    var ones: seq<Byte> := [0xFF, 0xFF, 0xFF, 0xFF, 0xFF, 0xFF, 0xFF, 0xFF];
    HeaderFieldsAreShiftedBytes(ones + h[8..]);
    assert (ones + h[8..])[..8] == ones;
    if DecodeHeader(h).pts == NO_PTS {
      BeValueInjective(h[..8], ones);
    }
  }

  /**
   * The uint64 timestamp stored into the signed 64-bit vlc_tick_t i_pts:
   * two's complement conversion, the same value modulo 2^64 within the int64 range.
   */
  function TickOf(pts: nat): (t: int)
    requires pts < TWO_64
    ensures INT64_MIN <= t <= INT64_MAX
    ensures t == pts || t == pts - TWO_64
  {
    if pts <= INT64_MAX then pts else pts - TWO_64
  }

  // ---------------------------------------------------------------------------
  // One Demux call
  // ---------------------------------------------------------------------------

  predicate IsConfig(hd: Header) {
    hd.pts == NO_PTS
  }

  /** The accumulator's bytes, none when there is no accumulator. */
  function AccBytes(pending: Option<seq<Byte>>): seq<Byte> {
    pending.GetOr([])
  }

  /**
   * One call of Demux with accumulator `pending`: the state machine of the
   * demultiplexer. Idle is `None`, Accumulating is `Some(bytes)`.
   */
  function DemuxStep(pending: Option<seq<Byte>>, rp: Replies): (r: StepResult)
    requires |rp.header| <= HEADER_SIZE
    // A short header read or a missing payload block ends the stream with no effect.
    ensures |rp.header| < HEADER_SIZE || rp.payload.None? ==> r == StepResult(DemuxEof, None, pending)
    // At most one unit per call; whenever one is handed to the sink the accumulator is empty afterwards.
    ensures r.sent.Some? ==> r.pending.None?
    // An error return always comes from an allocation failure or the sink refusing the unit.
    ensures r.status == DemuxError ==> !rp.allocOk || (r.sent.Some? && !rp.sendOk)
    ensures r.status == DemuxError && r.sent.None? ==> r.pending == pending
    // Failing to create or grow the accumulator is the generic error, with nothing sent and the accumulator kept.
    ensures (|rp.header| == HEADER_SIZE && rp.payload.Some? && !rp.allocOk
             && (IsConfig(DecodeHeader(rp.header)) || pending.Some?))
            ==> r == StepResult(DemuxError, None, pending)
    // The sink refusing the unit is the generic error.
    ensures r.sent.Some? && !rp.sendOk ==> r.status == DemuxError
    ensures |rp.header| == HEADER_SIZE && rp.payload.Some? ==>
      var hd := DecodeHeader(rp.header);
      var p := rp.payload.value;
      // A configuration payload is never forwarded; it is appended after the accumulated bytes.
      && (IsConfig(hd) ==>
            r.sent.None?
            && (r.status == DemuxSuccess <==> rp.allocOk)
            && (rp.allocOk ==> r.pending == Some(AccBytes(pending) + p.data)))
      // With no accumulator a media payload is forwarded as it came, stamped with its header timestamp.
      && (!IsConfig(hd) && pending.None? ==>
            r.sent == Some(p.(pts := TickOf(hd.pts)))
            && r.pending.None?
            && (r.status == DemuxSuccess <==> rp.sendOk))
      // With an accumulator a media payload is forwarded behind the accumulated bytes, with its own
      // timestamps and flags.
      && (!IsConfig(hd) && pending.Some? && rp.allocOk ==>
            r.sent == Some(Block(pending.value + p.data, TickOf(hd.pts), p.dts, p.flags))
            && r.pending.None?
            && (r.status == DemuxSuccess <==> rp.sendOk))
  {
    if |rp.header| < HEADER_SIZE || rp.payload.None? then
      StepResult(DemuxEof, None, pending)
    else
      var hd := DecodeHeader(rp.header);
      var isConfig := hd.pts == NO_PTS;
      var block := rp.payload.value.(pts := if isConfig then TICK_INVALID else TickOf(hd.pts));
      var sendStatus := if rp.sendOk then DemuxSuccess else DemuxError;
      if pending.None? && !isConfig then
        StepResult(sendStatus, Some(block), None)
      else if !rp.allocOk then
        StepResult(DemuxError, None, pending)
      else
        var merged := AccBytes(pending) + block.data;
        if isConfig then StepResult(DemuxSuccess, None, Some(merged))
        else StepResult(sendStatus, Some(block.(data := merged)), None)
  }

  /** Control: every request is refused. */
  function Control(query: int): (ret: VlcStatus)
    ensures ret == VlcEGeneric
  {
    VlcEGeneric
  }

  /** The elementary stream format declared at Open: H.264 video. */
  datatype EsCategory = VideoEs
  datatype Codec = CodecH264
  datatype EsFormat = EsFormat(category: EsCategory, codec: Codec)

  /** Handle of the elementary stream es_out_Add returns. */
  type EsOutId = nat

  /** The demultiplexer's private state, struct sys. */
  class Demuxer {
    const fmt: EsFormat
    var es: Option<EsOutId>
    var pending: Option<seq<Byte>>

    constructor Init()
      ensures fmt == EsFormat(VideoEs, CodecH264) && es.None? && pending.None?
    {
      fmt := EsFormat(VideoEs, CodecH264);
      es := None;
      pending := None;
    }

    /**
     * Open: allocate the state (mallocOk), declare the H.264 video stream and
     * keep the handle the sink answers (`added`, None when es_out_Add fails).
     */
    static method Open(mallocOk: bool, added: Option<EsOutId>) returns (ret: VlcStatus, d: Demuxer?)
      ensures !mallocOk ==> ret == VlcENoMem && d == null
      ensures mallocOk ==> d != null && fresh(d)
                           && d.fmt == EsFormat(VideoEs, CodecH264) && d.es == added && d.pending.None?
                           && ret == (if added.Some? then VlcSuccess else VlcEGeneric)
    {
      if !mallocOk {
        return VlcENoMem, null;
      }
      d := new Demuxer.Init();
      d.es := added;
      if d.es.None? {
        return VlcEGeneric, d;
      }
      ret := VlcSuccess;
    }

    /** Demux: read one record and forward at most one unit. */
    method Demux(rp: Replies) returns (status: DemuxStatus, sent: Option<Block>)
      requires |rp.header| <= HEADER_SIZE
      modifies this`pending
      ensures StepResult(status, sent, pending) == DemuxStep(old(pending), rp)
    {
      if |rp.header| < HEADER_SIZE {
        return DemuxEof, None;
      }
      var hd := DecodeHeader(rp.header);
      if rp.payload.None? {
        return DemuxEof, None;
      }
      var block := rp.payload.value;
      var isConfig := hd.pts == NO_PTS;
      block := block.(pts := if !isConfig then TickOf(hd.pts) else TICK_INVALID);

      if pending.Some? || isConfig {
        var acc: seq<Byte>;
        if pending.Some? {
          // block_Realloc grows the accumulator; on failure the field is left as it was.
          if !rp.allocOk {
            return DemuxError, None;
          }
          acc := pending.value;
        } else {
          // block_Alloc creates it; on failure the field stays NULL.
          if !rp.allocOk {
            return DemuxError, None;
          }
          acc := [];
        }
        // memcpy of the payload at offset |acc|.
        pending := Some(acc + block.data);

        if !isConfig {
          block := Block(pending.value, block.pts, block.dts, block.flags);
          pending := None;
        }
      }

      sent := None;
      if !isConfig {
        sent := Some(block);
        if !rp.sendOk {
          return DemuxError, sent;
        }
      }
      status := DemuxSuccess;
    }
  }

  // ---------------------------------------------------------------------------
  // Many calls over one wire stream
  // ---------------------------------------------------------------------------

  /** A record as a server sends it: a timestamp (NO_PTS for configuration) and a payload. */
  datatype Record = Record(ts: nat, payload: seq<Byte>)

  predicate WellFormed(rs: seq<Record>) {
    forall i :: 0 <= i < |rs| ==> rs[i].ts < TWO_64 && |rs[i].payload| < TWO_32
  }

  function EncodeRecord(r: Record): (w: seq<Byte>)
    requires r.ts < TWO_64 && |r.payload| < TWO_32
    ensures |w| == HEADER_SIZE + |r.payload|
  {
    EncodeHeader(r.ts, |r.payload|) + r.payload
  }

  /** The wire format: the records' encodings one after another. */
  function EncodeStream(rs: seq<Record>): seq<Byte>
    requires WellFormed(rs)
  {
    if rs == [] then [] else EncodeRecord(rs[0]) + EncodeStream(rs[1..])
  }

  /**
   * What an in-memory stream holding `wire` answers one Demux call: up to
   * twelve header bytes, then the declared payload when all of it is there
   * (NULL otherwise), with allocation and the sink always succeeding. The
   * payload block carries the given decode timestamp and flags.
   */
  function WireReplies(wire: seq<Byte>, dts: int, flags: int): (rp: Replies)
    ensures |rp.header| <= HEADER_SIZE
    ensures rp.payload.Some? ==> HEADER_SIZE + |rp.payload.value.data| <= |wire|
  {
    if |wire| < HEADER_SIZE then Replies(wire, None, true, true)
    else
      var len := DecodeHeader(wire[..HEADER_SIZE]).len;
      var payload := if HEADER_SIZE + len <= |wire|
                     then Some(Block(wire[HEADER_SIZE..HEADER_SIZE + len], TICK_INVALID, dts, flags))
                     else None;
      Replies(wire[..HEADER_SIZE], payload, true, true)
  }

  /** The units forwarded by a run, and the accumulator it leaves. */
  datatype Drained = Drained(units: seq<Block>, pending: Option<seq<Byte>>)

  /** Calling Demux over `wire` until it stops returning success. */
  function Run(pending: Option<seq<Byte>>, wire: seq<Byte>, dts: int, flags: int): Drained
    decreases |wire|
  {
    var rp := WireReplies(wire, dts, flags);
    var r := DemuxStep(pending, rp);
    if r.status != DemuxSuccess then Drained([], r.pending)
    else
      var rest := Run(r.pending, wire[HEADER_SIZE + |rp.payload.value.data|..], dts, flags);
      Drained((if r.sent.Some? then [r.sent.value] else []) + rest.units, rest.pending)
  }

  /**
   * The units a record sequence stands for: each media record, preceded by
   * the payloads of the configuration records since the previous media
   * record, with the media record's timestamp.
   */
  function Merge(acc: Option<seq<Byte>>, rs: seq<Record>, dts: int, flags: int): Drained
    requires WellFormed(rs)
    decreases rs
  {
    if rs == [] then Drained([], acc)
    else if rs[0].ts == NO_PTS then Merge(Some(AccBytes(acc) + rs[0].payload), rs[1..], dts, flags)
    else
      var rest := Merge(None, rs[1..], dts, flags);
      Drained([Block(AccBytes(acc) + rs[0].payload, TickOf(rs[0].ts), dts, flags)] + rest.units, rest.pending)
  }

  /** An in-memory stream starting with an encoded record delivers exactly that record. */
  lemma WireRepliesOfRecord(r: Record, tail: seq<Byte>, dts: int, flags: int)
    requires r.ts < TWO_64 && |r.payload| < TWO_32
    ensures var w := EncodeRecord(r) + tail;
      && WireReplies(w, dts, flags)
         == Replies(EncodeHeader(r.ts, |r.payload|), Some(Block(r.payload, TICK_INVALID, dts, flags)), true, true)
      && w[HEADER_SIZE + |r.payload|..] == tail
  {
    var len := |r.payload|;
    var w := EncodeRecord(r) + tail;
    assert w[..HEADER_SIZE] == EncodeHeader(r.ts, len);
    HeaderRoundTrip(r.ts, len);
    assert w[HEADER_SIZE..HEADER_SIZE + len] == r.payload;
    assert w[HEADER_SIZE + len..] == tail;
  }

  /** The Demux call on a delivered record, with allocation and the sink succeeding. */
  lemma StepOnRecord(acc: Option<seq<Byte>>, r: Record, dts: int, flags: int)
    requires r.ts < TWO_64 && |r.payload| < TWO_32
    ensures var rp := Replies(EncodeHeader(r.ts, |r.payload|), Some(Block(r.payload, TICK_INVALID, dts, flags)), true, true);
      DemuxStep(acc, rp)
      == if r.ts == NO_PTS then StepResult(DemuxSuccess, None, Some(AccBytes(acc) + r.payload))
         else StepResult(DemuxSuccess, Some(Block(AccBytes(acc) + r.payload, TickOf(r.ts), dts, flags)), None)
  {
    HeaderRoundTrip(r.ts, |r.payload|);
    if acc.None? {
      assert AccBytes(acc) + r.payload == r.payload;
    }
  }

  /** Demultiplexing an encoded record sequence forwards exactly the merged units. */
  lemma {:induction false} WireRoundTrip(acc: Option<seq<Byte>>, rs: seq<Record>, dts: int, flags: int)
    requires WellFormed(rs)
    ensures Run(acc, EncodeStream(rs), dts, flags) == Merge(acc, rs, dts, flags)
    decreases rs
  {
    if rs != [] {
      var r := rs[0];
      var tail := EncodeStream(rs[1..]);
      WireRepliesOfRecord(r, tail, dts, flags);
      StepOnRecord(acc, r, dts, flags);
      var wire := EncodeStream(rs);
      assert wire == EncodeRecord(r) + tail;
      var next := if r.ts == NO_PTS then Some(AccBytes(acc) + r.payload) else None;
      WireRoundTrip(next, rs[1..], dts, flags);
      var rest := Run(next, tail, dts, flags);
      if r.ts == NO_PTS {
        assert Run(acc, wire, dts, flags) == Drained([] + rest.units, rest.pending);
        assert [] + rest.units == rest.units;
      } else {
        assert Run(acc, wire, dts, flags) == Drained([Block(AccBytes(acc) + r.payload, TickOf(r.ts), dts, flags)] + rest.units, rest.pending);
      }
    } else {
      assert EncodeStream(rs) == [];
      assert Run(acc, [], dts, flags) == Drained([], acc);
    }
  }

  /** All bytes of a sequence of units, in order. */
  function Flatten(units: seq<Block>): seq<Byte> {
    if units == [] then [] else units[0].data + Flatten(units[1..])
  }

  lemma FlattenCons(u: Block, us: seq<Block>)
    ensures Flatten([u] + us) == u.data + Flatten(us)
  {
    assert ([u] + us)[1..] == us;
  }

  /** All payload bytes of a record sequence, in arrival order. */
  function Payloads(rs: seq<Record>): seq<Byte> {
    if rs == [] then [] else rs[0].payload + Payloads(rs[1..])
  }

  /** The timestamps of the media (non-configuration) records, as ticks. */
  function MediaTicks(rs: seq<Record>): seq<int>
    requires WellFormed(rs)
  {
    if rs == [] then []
    else if rs[0].ts == NO_PTS then MediaTicks(rs[1..])
    else [TickOf(rs[0].ts)] + MediaTicks(rs[1..])
  }

  function UnitTicks(units: seq<Block>): seq<int> {
    if units == [] then [] else [units[0].pts] + UnitTicks(units[1..])
  }

  /** No byte is lost, duplicated or reordered: units then accumulator spell the accumulator then the payloads. */
  lemma {:induction false} MergeKeepsBytes(acc: Option<seq<Byte>>, rs: seq<Record>, dts: int, flags: int)
    requires WellFormed(rs)
    ensures var d := Merge(acc, rs, dts, flags);
      Flatten(d.units) + AccBytes(d.pending) == AccBytes(acc) + Payloads(rs)
    decreases rs
  {
    if rs != [] {
      var r := rs[0];
      var tail := rs[1..];
      assert Payloads(rs) == r.payload + Payloads(tail);
      if r.ts == NO_PTS {
        var next := Some(AccBytes(acc) + r.payload);
        MergeKeepsBytes(next, tail, dts, flags);
        assert Merge(acc, rs, dts, flags) == Merge(next, tail, dts, flags);
      } else {
        var rest := Merge(None, tail, dts, flags);
        MergeKeepsBytes(None, tail, dts, flags);
        var u := Block(AccBytes(acc) + r.payload, TickOf(r.ts), dts, flags);
        assert Merge(acc, rs, dts, flags) == Drained([u] + rest.units, rest.pending);
        FlattenCons(u, rest.units);
        AppendAssoc(u.data, Flatten(rest.units), AccBytes(rest.pending));
        AppendAssoc(AccBytes(acc), r.payload, Payloads(tail));
      }
    }
  }

  lemma AppendAssoc(a: seq<Byte>, b: seq<Byte>, c: seq<Byte>)
    ensures a + b + c == a + (b + c)
  {
  }

  /**
   * Exactly one unit per media record, in order, stamped with that record's
   * timestamp: configuration records never produce a unit of their own.
   */
  lemma {:induction false} MergeTicks(acc: Option<seq<Byte>>, rs: seq<Record>, dts: int, flags: int)
    requires WellFormed(rs)
    ensures UnitTicks(Merge(acc, rs, dts, flags).units) == MediaTicks(rs)
    decreases rs
  {
    if rs != [] {
      if rs[0].ts == NO_PTS {
        MergeTicks(Some(AccBytes(acc) + rs[0].payload), rs[1..], dts, flags);
      } else {
        MergeTicks(None, rs[1..], dts, flags);
        var rest := Merge(None, rs[1..], dts, flags);
        var u := Block(AccBytes(acc) + rs[0].payload, TickOf(rs[0].ts), dts, flags);
        assert ([u] + rest.units)[1..] == rest.units;
      }
    }
  }

  /**
   * A demultiplexer fed the header FF FF FF FF FF FF FF FF 00 00 00 03 with
   * payload AA BB CC, then 00 00 00 00 00 00 00 05 00 00 00 02 with payload
   * 11 22, forwards nothing on the first call and AA BB CC 11 22 at tick 5
   * on the second.
   */
  method ConfigThenMediaScenario(dts: int, flags: int)
    returns (s1: DemuxStatus, u1: Option<Block>, s2: DemuxStatus, u2: Option<Block>, left: Option<seq<Byte>>)
    ensures s1 == DemuxSuccess && u1 == None
    ensures s2 == DemuxSuccess && u2 == Some(Block([0xAA, 0xBB, 0xCC, 0x11, 0x22], 5, dts, flags))
    ensures left == None
  {
    var h1: seq<Byte> := [0xFF, 0xFF, 0xFF, 0xFF, 0xFF, 0xFF, 0xFF, 0xFF, 0x00, 0x00, 0x00, 0x03];
    var h2: seq<Byte> := [0x00, 0x00, 0x00, 0x00, 0x00, 0x00, 0x00, 0x05, 0x00, 0x00, 0x00, 0x02];
    HeaderFieldsAreShiftedBytes(h1);
    HeaderFieldsAreShiftedBytes(h2);
    assert DecodeHeader(h1).pts == NO_PTS && DecodeHeader(h2) == Header(5, 2);
    assert AccBytes(None) + [0xAA, 0xBB, 0xCC] == [0xAA, 0xBB, 0xCC];
    var d := new Demuxer.Init();
    s1, u1 := d.Demux(Replies(h1, Some(Block([0xAA, 0xBB, 0xCC], TICK_INVALID, TICK_INVALID, 0)), true, true));
    assert d.pending == Some([0xAA, 0xBB, 0xCC]);
    s2, u2 := d.Demux(Replies(h2, Some(Block([0x11, 0x22], TICK_INVALID, dts, flags)), true, true));
    assert [0xAA, 0xBB, 0xCC] + [0x11, 0x22] == [0xAA, 0xBB, 0xCC, 0x11, 0x22];
    left := d.pending;
  }
}
