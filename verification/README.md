# Three pieces of VLC, modelled and proved in Dafny

This project models three small, sequential parts of the VLC media player:

- **The zero-latency H.264 demultiplexer** (`modules/demux/mpeg/h264_0latency.c`).
  It reads a live stream of records. Each record is a 12-byte header followed by a raw payload.
  The header holds an 8-byte big-endian timestamp and a 4-byte big-endian length.
  A timestamp of all ones (`NO_PTS`) marks a configuration payload.
  Configuration payloads are collected in an accumulator.
  The accumulator is then glued in front of the next media payload, which is forwarded as one unit.
  Media payloads that arrive with no accumulator are forwarded unchanged.
  The model is in `h264_0latency.dfy`, with the big-endian arithmetic in `big_endian.dfy`.
  - `DemuxStep` gives one `Demux` call as a two-state machine: the accumulator is idle (`None`) or accumulating (`Some(bytes)`).
  - `Demuxer` is the module's private state (`struct sys`) as a class, and its `Demux` method updates the accumulator in place as the C code does.
  - `Run` feeds a whole encoded stream through repeated calls.
  - `Merge` is an independent reference definition of what that stream should produce.
- **The single-slot picture hand-off buffer** (`src/video_output/pic_buf.c`), modelled in `pic_buf.dfy`.
  A producer pushes pictures and a consumer pops them.
  A push replaces the pending picture and releases it ("latest wins").
  Stop is a one-way flag after which Pop returns nothing.
  The class keeps ghost logs of the pictures pushed, released and handed out.
  Its invariant says that every picture is accounted for exactly once.
- **The legacy elementary-stream selection table** (`src/input/input_ctrl.c`), modelled in `input_ctrl.dfy`.
  - `input_AddPgrmElem` looks up a stream by id, spawns its decoder and records it in the first free slot of `pp_selected_es`.
  - `input_DelPgrmElem` undoes that.
  - Both are specified as functions on sequences (`Add`, `Del`) and implemented as methods over the two arrays.
  - A slot is the index of the `p_es` entry it points at, or `None` for NULL.

The stream reader, the block allocator, the output sink (`vlc_stream_Read`, `vlc_stream_Block`, `block_Alloc`, `block_Realloc`, `es_out_Send`, `es_out_Add`), `malloc` and decoder creation all lie outside the modelled code. What they answer is passed in as a parameter:

- `Replies` for one `Demux` call;
- `mallocOk` and `added` for `Open`;
- `spawned` for `AddPgrmElem`.

Two constants come from headers that are not part of this model:

- `VLC_TICK_INVALID` is taken as 0 (`vlc_tick.h` is not part of this model).
- `INPUT_MAX_ES` and `INPUT_MAX_SELECTED_ES` are the lengths of the two arrays (`config.h` is not part of this model).

Two behaviours of the code are worth stating:

- `vlc_pic_buf_Stop` wakes one waiter with `vlc_cond_signal` (src/video_output/pic_buf.c:85). The model has no waiters.
- `Close` frees only `struct sys` and does not release `sys->pending` (modules/demux/mpeg/h264_0latency.c:154-159).

The header comments of `input_AddPgrmElem` and `input_DelPgrmElem` say that they must not modify the table of streams. The code does modify it: it writes `p_dec`, `p_pes_packet`, `i_continuity_counter` and `b_random`. The model follows the code.

## Model

| member | source | states |
|---|---|---|
| `BigEndian.BeValue4` | modules/demux/mpeg/h264_0latency.c:61-62 | a 4-byte big-endian value is its bytes shifted by 24, 16, 8 and 0 bits |
| `BigEndian.BeValue8` | modules/demux/mpeg/h264_0latency.c:55-60 | an 8-byte big-endian value is its high four bytes shifted by 32 plus its low four |
| `BigEndian.BeValueOfBeBytes` | modules/demux/mpeg/h264_0latency.c:55-62 | big-endian decoding inverts big-endian encoding at any width |
| `BigEndian.BeBytesOfBeValue` | modules/demux/mpeg/h264_0latency.c:55-62 | encoding a decoded byte string at its own width gives the bytes back |
| `BigEndian.BeValueInjective` | modules/demux/mpeg/h264_0latency.c:55-62 | two byte strings of one width with the same value are equal |
| `H264ZeroLatency.DecodeHeader` | modules/demux/mpeg/h264_0latency.c:55-62 | the timestamp fits in 64 bits and the length in 32 bits |
| `H264ZeroLatency.EncodeHeader` | modules/demux/mpeg/h264_0latency.c:50-54 | the server's header layout has exactly 12 bytes |
| `H264ZeroLatency.HeaderRoundTrip` | modules/demux/mpeg/h264_0latency.c:55-62 | decoding the header written for (pts, len) gives back (pts, len) |
| `H264ZeroLatency.HeaderBytesRoundTrip` | modules/demux/mpeg/h264_0latency.c:55-62 | every 12-byte header is the encoding of its decoded fields |
| `H264ZeroLatency.HeaderFieldsAreShiftedBytes` | modules/demux/mpeg/h264_0latency.c:55-62 | the timestamp is bytes 0-7 and the length bytes 8-11, each byte weighted by its shift |
| `H264ZeroLatency.ConfigHeaderBytes` | modules/demux/mpeg/h264_0latency.c:29-68 | a header announces configuration exactly when its first eight bytes are 0xFF |
| `H264ZeroLatency.TickOf` | modules/demux/mpeg/h264_0latency.c:69 | the uint64 timestamp stored in the signed 64-bit tick keeps its value modulo 2^64 and lies in the int64 range |
| `H264ZeroLatency.DemuxStep` | modules/demux/mpeg/h264_0latency.c:39-120 | short header or no payload: end of stream with no effect; configuration: never forwarded, appended after the accumulator; media without accumulator: forwarded unchanged with its header timestamp; media with accumulator: accumulator then payload forwarded with the payload's pts/dts/flags, accumulator emptied; errors only from allocation or the sink, and a failed allocation or a refused unit is always the generic error, with a failed allocation keeping the accumulator; at most one unit, and the accumulator is empty after one is sent |
| `H264ZeroLatency.Control` | modules/demux/mpeg/h264_0latency.c:122-129 | every control request is refused with the generic error |
| `H264ZeroLatency.Demuxer.Init` | modules/demux/mpeg/h264_0latency.c:143-145 | the state starts with the H.264 video format, no stream and no accumulator |
| `H264ZeroLatency.Demuxer.Open` | modules/demux/mpeg/h264_0latency.c:131-152 | out of memory gives ENOMEM; otherwise a fresh state with an empty accumulator, and success exactly when the sink accepted the stream |
| `H264ZeroLatency.Demuxer.Demux` | modules/demux/mpeg/h264_0latency.c:39-120 | the in-place update of the accumulator, the return code and the unit sent are those of `DemuxStep` |
| `H264ZeroLatency.WireReplies` | modules/demux/mpeg/h264_0latency.c:45-66 | a stream read never delivers more than 12 header bytes, and a delivered payload lies within the stream |
| `H264ZeroLatency.WireRepliesOfRecord` | modules/demux/mpeg/h264_0latency.c:45-64 | a stream that starts with an encoded record delivers exactly its header and payload, and the rest of the stream follows |
| `H264ZeroLatency.StepOnRecord` | modules/demux/mpeg/h264_0latency.c:68-119 | on a delivered record a call appends configuration to the accumulator, or forwards accumulator then payload with the record's timestamp and empties the accumulator |
| `H264ZeroLatency.WireRoundTrip` | modules/demux/mpeg/h264_0latency.c:39-120 | repeated calls over an encoded record sequence forward exactly the units of the reference `Merge` and leave its accumulator |
| `H264ZeroLatency.MergeKeepsBytes` | modules/demux/mpeg/h264_0latency.c:71-98 | no byte is lost, duplicated or reordered: the forwarded units followed by the accumulator spell the old accumulator followed by every payload |
| `H264ZeroLatency.MergeTicks` | modules/demux/mpeg/h264_0latency.c:68-101 | exactly one unit per media record, in order, stamped with that record's timestamp; configuration never yields a unit |
| `H264ZeroLatency.ConfigThenMediaScenario` | modules/demux/mpeg/h264_0latency.c:68-117 | configuration AA BB CC then media at pts 5 with 11 22: nothing on the first call, then exactly AA BB CC 11 22 at tick 5, and the accumulator is empty |
| `PicBuf.PicBuf.Init` | src/video_output/pic_buf.c:32-38 | the slot is empty and the buffer not stopped |
| `PicBuf.PicBuf.Push` | src/video_output/pic_buf.c:46-58 | the new picture is installed whether or not the buffer is stopped; the previous one, if any, is released exactly once; the new one is not released; every picture stays accounted for |
| `PicBuf.PicBuf.Pop` | src/video_output/pic_buf.c:60-79 | stopped: None, and a pending picture stays in the slot; otherwise the pending (non-null) picture is handed out and the slot emptied |
| `PicBuf.PicBuf.Stop` | src/video_output/pic_buf.c:81-87 | sets the flag and touches nothing else, so a second call changes nothing |
| `PicBuf.PicBuf.Destroy` | src/video_output/pic_buf.c:40-44 | releases the pending picture exactly when there is one; afterwards every pushed picture was released or handed out |
| `PicBuf.ReleasedOrPoppedOnce` | src/video_output/pic_buf.c:40-79 | a picture pushed once ends up released once or handed out once, never both |
| `PicBuf.PushPushPop` | src/video_output/pic_buf.c:46-79 | Push(A), Push(B), Pop returns B and A has been released exactly once |
| `PicBuf.StopThenPop` | src/video_output/pic_buf.c:64-71 | after Stop, Pop returns None |
| `PicBuf.PushStopPop` | src/video_output/pic_buf.c:64-71 | after Push(C) and Stop, Pop returns None and C stays in the slot |
| `PicBuf.StopPushPopDestroy` | src/video_output/pic_buf.c:40-87 | a picture pushed after Stop is installed, not handed out by Pop, and released by Destroy |
| `InputCtrl.FindEsFrom` | src/input/input_ctrl.c:62-64 | the first entry from a position on with the id, or none has it |
| `InputCtrl.FindEs` | src/input/input_ctrl.c:62-64 | the first entry with the id, or none has it |
| `InputCtrl.FirstFreeFrom` | src/input/input_ctrl.c:79-80 | the first empty slot from a position on, or all of them are taken |
| `InputCtrl.FirstFree` | src/input/input_ctrl.c:79-80 | the first empty slot, always inside the table, or all of them are taken |
| `InputCtrl.FindSelectedFrom` | src/input/input_ctrl.c:173-178 | the first slot from a position on that points at an entry with the id, or none does |
| `InputCtrl.FindSelected` | src/input/input_ctrl.c:173-178 | the first slot that points at an entry with the id, or none does |
| `InputCtrl.Add` | src/input/input_ctrl.c:53-154 | returns 0 or -1; -1 changes nothing; unknown id, a full table or a failed decoder start give -1; success exactly when the first entry with the id has no decoder, is not PSI, has an MPEG audio or video type, a slot is free and the decoder started; success resets that entry's demultiplexer state, gives it the decoder and fills only the first free slot |
| `InputCtrl.Del` | src/input/input_ctrl.c:164-230 | returns 0 or -1; -1 changes nothing; no slot referring to the id gives -1; for the first such slot, success exactly when its entry has a decoder, and success clears that decoder and empties only that slot |
| `InputCtrl.AddPgrmElem` | src/input/input_ctrl.c:53-154 | the return value and both arrays afterwards are those of `Add` |
| `InputCtrl.DelPgrmElem` | src/input/input_ctrl.c:164-230 | the return value and both arrays afterwards are those of `Del` |
| `InputCtrl.AddKeepsConsistent` | src/input/input_ctrl.c:137-143 | Add keeps the table invariant: slots point into the table, no entry twice, and an entry has a decoder exactly when a slot points at it |
| `InputCtrl.DelKeepsConsistent` | src/input/input_ctrl.c:207-218 | Del keeps the same invariant |
| `InputCtrl.AddThenDel` | src/input/input_ctrl.c:53-230 | selecting a stream no slot refers to, then dropping it, restores the selection table, and leaves the entry without a decoder and with its demultiplexer state reset |
| `InputCtrl.ScanAsWritten` | src/input/input_ctrl.c:79-80 | the scan as written stops inside the table or at its end, and reads past the end exactly when it stops there |
| `InputCtrl.ScanAsWrittenReadsPastEnd` | src/input/input_ctrl.c:79-88 | the scan as written reads past the end exactly when every slot is taken, and otherwise stops at the first free slot |
| `InputCtrl.FullTableScanReadsPastEnd` | src/input/input_ctrl.c:79-82 | with two slots both taken, the scan as written reads the third |

## Left out

- Locking: `vlc_mutex_*`, `vlc_cond_*` and `es_lock`. Blocking and wake-ups are not modelled, and neither is the choice between signalling one waiter and all of them.
- `PicBuf.PicBuf.Pop`: modelled from the point its wait loop exits. It requires the buffer to be stopped or to hold a picture.
- Reference counting: `picture_Release` is recorded in a ghost log of released pictures.
- I/O, `malloc` and decoder threads: their answers are parameters.
  - This covers the stream reader, the block allocator, the output sink, `es_format_Init`, `malloc`, and the decoder threads (`adec_/vdec_CreateThread`, `adec_/vdec_DestroyThread`).
  - Demux reads the payload length from the returned block only, as the code does, so a block shorter than the header's length is handled as a block of its own length.
- `H264ZeroLatency.WireReplies`: it is an ideal in-memory stream. It answers a truncated payload with NULL, which `vlc_stream_Block` need not do. `WireRoundTrip` uses it only on streams of complete records.
- `H264ZeroLatency.Run`: a run stops at the first call that does not return success, as a demux loop does. Allocation and the sink always succeed during a run.
- Memory ownership on the demultiplexer's error paths is not modelled.
  - The payload `block` is never released once an accumulator is involved, on success paths too. A configuration payload is copied into `sys->pending` and then abandoned (modules/demux/mpeg/h264_0latency.c:88-90, 119). On a merge, `block = sys->pending` overwrites the only pointer to the payload block (modules/demux/mpeg/h264_0latency.c:96). On the error returns at lines 77 and 84 the block is not released either. The model has no ownership, so it cannot show these leaks.
  - When `block_Realloc` fails, the accumulator is left as the field still holds it.
  - `Close` frees only the private state. Whether the accumulator leaks is not modelled, and the model does not claim that it is released.
- The `#if 0` debug dump, the module registration macros, and the X11 and sound includes.
- Logging (`intf_ErrMsg`, `intf_DbgMsg`).
- `input_IsElemRecv`: its loop never advances its index and dereferences the slot it has just found to be NULL, so it has no terminating model.
- `InputCtrl.DelPgrmElem`: requires an empty slot after the slot it removes. Its second scan (src/input/input_ctrl.c:210-213) reads a slot before testing the bound. Without a free slot it would read and write one past the end of `pp_selected_es`.
- `InputCtrl.Del`: has the same requirement as `DelPgrmElem`.
- `InputCtrl.AddThenDel`: assumes a second empty slot after the one Add fills, because Del needs one.
- The "exchange" in `input_DelPgrmElem` (src/input/input_ctrl.c:215-218) moves the first empty slot over the removed one. So it empties that slot and moves nothing. It is modelled as written.

## Findings

| source | as written | input that shows it | evidently intended | confidence | as-written member | corrected member |
|---|---|---|---|---|---|---|
| src/input/input_ctrl.c:79-80 | the free-slot scan reads `pp_selected_es[i]` before it tests `i < INPUT_MAX_SELECTED_ES`, so on a full table it reads one slot past the end | a selection table whose slots are all taken, e.g. two slots `[Some(0), Some(1)]`: the scan reads slot 2 | test the bound first, so that a full table reaches the "array full" return at line 82 with in-bounds reads only | not executed; high | `InputCtrl.ScanAsWritten`, `InputCtrl.FullTableScanReadsPastEnd` | `InputCtrl.FirstFree` |
