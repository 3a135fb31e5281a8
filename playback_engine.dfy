/**
 * The gapless playback engine: two decoder slots, a current and a next index, a
 * Stopped/Playing/Paused state machine, and the buffer-fill routine that splices the
 * end of the current track and the start of the next one into one output buffer.
 *
 * The decoder capability and the audio device are collaborators: every call into them
 * is represented by the reply it gives (a status code and the value it writes through
 * its out-pointer), passed to the operation as a parameter. The calls the engine makes
 * on them are recorded in two ghost logs.
 */
module Playback {
  import opened Wrappers
  import opened Codes
  import opened Ints

  datatype PlaybackState = Stopped | Playing | Paused

  /** Identity of a borrowed decoder capability (an IDecoder pointer). */
  type DecoderId = nat

  /** An open-stream handle; 0 stands for a null `internal` pointer. */
  type Handle = nat
  const NullHandle: Handle := 0

  datatype StreamInfo = StreamInfo(sampleRate: u32, channels: u32, totalSamples: u64, durationMs: u64)
  const ZeroInfo: StreamInfo := StreamInfo(0, 0, 0, 0)

  datatype TrackInfo = TrackInfo(filePath: string, totalSamples: u64, encoderDelay: u64, encoderPadding: u64)

  /** One decoder slot (DecoderInstance). */
  datatype Slot = Slot(
    decoder: Option<DecoderId>,
    handle: Handle,
    info: StreamInfo,
    track: TrackInfo,
    position: u64,
    active: bool,
    eos: bool)

  const EmptySlot: Slot := Slot(None, NullHandle, ZeroInfo, TrackInfo("", 0, 0, 0), 0, false, false)

  /** What open_stream returns, with the handle it wrote. */
  datatype OpenReply = OpenReply(code: Result, handle: Handle)
  /** What get_stream_info returns, with the stream info it wrote. */
  datatype InfoReply = InfoReply(code: Result, info: StreamInfo)
  /** What decode_block returns: status, frames reported, and the samples it wrote into the buffer. */
  datatype DecodeReply = DecodeReply(code: Result, frames: u64, samples: seq<real>)
  /** What the decoder's seek returns, with the actual position it reports. */
  datatype SeekReply = SeekReply(code: Result, actualMs: u64)

  /** Calls the engine makes on the audio device. */
  datatype DeviceCall = DeviceOpen(sampleRate: u32, channels: u32, bufferFrames: nat) | DeviceStart | DeviceStop | DeviceClose
  /** A close_stream call on a decoder. */
  datatype StreamClose = StreamClose(decoder: DecoderId, handle: Handle)

  /** The buffer size, in frames, with which play() opens the device. */
  const DeviceBufferFrames: nat := 2048

  /** The engine's index invariant: current is 0 or 1, next is -1 (none) or the other slot. */
  predicate ValidIndices(current: int, next: int) {
    (current == 0 || current == 1) && (next == -1 || next == 1 - current)
  }

  /** A slot holds a handle only with a decoder to close it. */
  predicate SlotWellFormed(s: Slot) {
    s.handle != NullHandle ==> s.decoder.Some?
  }

  // ---------------------------------------------------------------------------------
  // Output buffers
  // ---------------------------------------------------------------------------------

  /** The buffer with data written from offset off on. */
  function Splice(buf: seq<real>, off: nat, data: seq<real>): (r: seq<real>)
    requires off + |data| <= |buf|
    ensures |r| == |buf|
  {
    buf[..off] + data + buf[off + |data|..]
  }

  /** A splice sample by sample: the data inside [off, off + |data|), the old buffer outside. */
  lemma SpliceAt(buf: seq<real>, off: nat, data: seq<real>)
    requires off + |data| <= |buf|
    ensures forall i :: 0 <= i < |buf| ==>
      Splice(buf, off, data)[i] == if off <= i < off + |data| then data[i - off] else buf[i]
  {
  }

  function Zeros(n: nat): (r: seq<real>)
    ensures |r| == n
    ensures forall i :: 0 <= i < n ==> r[i] == 0.0
  {
    seq(n, _ => 0.0)
  }

  /** Writes data into the buffer from offset off on (the decoder's writes and memset). */
  method WriteSamples(buffer: array<real>, off: nat, data: seq<real>)
    requires off + |data| <= buffer.Length
    modifies buffer
    ensures buffer[..] == Splice(old(buffer[..]), off, data)
  {
    var i := 0;
    while i < |data|
      invariant 0 <= i <= |data|
      invariant forall k :: 0 <= k < buffer.Length ==>
        buffer[k] == if off <= k < off + i then data[k - off] else old(buffer[k])
    {
      buffer[off + i] := data[i];
      i := i + 1;
    }
    SpliceAt(old(buffer[..]), off, data);
    assert forall k :: 0 <= k < buffer.Length ==> buffer[..][k] == Splice(old(buffer[..]), off, data)[k];
  }

  /**
   * The samples in frames frames of ch interleaved channels: the product frames * channels
   * by which the engine sizes and offsets its buffers, written as a sum (SamplesIsProduct).
   */
  function Samples(frames: nat, ch: nat): nat {
    if frames == 0 then 0 else Samples(frames - 1, ch) + ch
  }

  lemma {:induction false} SamplesIsProduct(frames: nat, ch: nat)
    ensures Samples(frames, ch) == frames * ch
  {
    if frames > 0 {
      SamplesIsProduct(frames - 1, ch);
    }
  }

  lemma {:induction false} SamplesAdd(a: nat, b: nat, ch: nat)
    ensures Samples(a + b, ch) == Samples(a, ch) + Samples(b, ch)
  {
    if b > 0 {
      SamplesAdd(a, b - 1, ch);
    }
  }

  lemma {:induction false} SamplesWider(frames: nat, c1: nat, c2: nat)
    requires c1 <= c2
    ensures Samples(frames, c1) <= Samples(frames, c2)
  {
    if frames > 0 {
      SamplesWider(frames - 1, c1, c2);
    }
  }

  lemma MulMono(a: nat, b: nat, c: nat)
    requires a <= b
    ensures a * c <= b * c
  {}

  /** Where the next slot's samples go: after d frames of c1 channels, room for the rest at c2 channels. */
  lemma SpliceFits(d: nat, frames: nat, c1: nat, c2: nat, len: nat)
    requires d <= frames && Samples(frames, c1) <= len && Samples(frames, c2) <= len
    ensures Samples(d, c1) + Samples(frames - d, c2) <= len
  {
    var m := if c1 <= c2 then c2 else c1;
    SamplesWider(d, c1, m);
    SamplesWider(frames - d, c2, m);
    SamplesAdd(d, frames - d, m);
  }

  lemma PadFits(d: nat, frames: nat, c: nat)
    requires d <= frames
    ensures Samples(d, c) + Samples(frames - d, c) == Samples(frames, c)
  {
    SamplesAdd(d, frames - d, c);
  }

  // ---------------------------------------------------------------------------------
  // Slots: closing, opening, decoding
  // ---------------------------------------------------------------------------------

  /** The slot after close_decoder: no decoder, no handle, zeroed stream info (its track info stays). */
  function Closed(s: Slot): Slot {
    Slot(None, NullHandle, ZeroInfo, s.track, 0, false, false)
  }

  /** The close_stream call close_decoder makes: only for a slot with a handle and a decoder. */
  function CloseCalls(s: Slot): seq<StreamClose> {
    if s.handle != NullHandle && s.decoder.Some? then [StreamClose(s.decoder.value, s.handle)] else []
  }

  datatype Opened = Opened(slot: Slot, result: Result)

  /**
   * Opening a track into an emptied slot (the shared body of load_track and prepare_next_track);
   * resetPadding is set for load_track, which also zeroes the encoder delay and padding.
   */
  function OpenTrack(s: Slot, path: string, dec: DecoderId, openReply: OpenReply, info: InfoReply, resetPadding: bool): (r: Opened)
    ensures r.result == Success <==> openReply.code == Success && info.code == Success
    ensures r.result != Success ==> r.result == if openReply.code != Success then openReply.code else info.code
    ensures r.slot.decoder == Some(dec) && r.slot.track.filePath == path
    ensures openReply.code == Success && info.code != Success ==> r.slot.handle == NullHandle
    ensures r.result == Success ==>
      && r.slot.handle == openReply.handle && r.slot.info == info.info
      && r.slot.track.totalSamples == info.info.totalSamples
      && r.slot.position == 0 && !r.slot.active && !r.slot.eos
    ensures r.result == Success && resetPadding ==> r.slot.track.encoderDelay == 0 && r.slot.track.encoderPadding == 0
    ensures r.result == Success && !resetPadding ==>
      r.slot.track.encoderDelay == s.track.encoderDelay && r.slot.track.encoderPadding == s.track.encoderPadding
  {
    var s1 := s.(decoder := Some(dec), track := s.track.(filePath := path), handle := openReply.handle);
    if openReply.code != Success then
      Opened(s1, openReply.code)
    else
      var s2 := s1.(info := info.info);
      if info.code != Success then
        Opened(s2.(handle := NullHandle), info.code)
      else
        var t := s2.track.(totalSamples := info.info.totalSamples);
        var t' := if resetPadding then t.(encoderDelay := 0, encoderPadding := 0) else t;
        Opened(s2.(track := t', position := 0, active := false, eos := false), Success)
  }

  /** The close_stream call made when get_stream_info fails after a successful open_stream. */
  function OpenCloseCalls(dec: DecoderId, openReply: OpenReply, info: InfoReply): seq<StreamClose> {
    if openReply.code == Success && info.code != Success then [StreamClose(dec, openReply.handle)] else []
  }

  /** The decoder keeps to what it was asked for: at most frames frames, within the buffer it was given. */
  predicate Fits(reply: DecodeReply, frames: nat, channels: nat) {
    reply.frames <= frames && |reply.samples| <= Samples(frames, channels)
  }

  /** decode_samples attempts a decode only on an active slot, not at end of stream, with a handle. */
  predicate Decodable(s: Slot) {
    s.active && !s.eos && s.handle != NullHandle
  }

  /** The last playable sample: total samples minus encoder padding, as uint64. */
  function EffectiveEnd(t: TrackInfo): u64 {
    Sub64(t.totalSamples, t.encoderPadding)
  }

  datatype Decoded = Decoded(slot: Slot, buffer: seq<real>, frames: nat)

  /** decode_samples on one slot, writing from offset off of the buffer. */
  function DecodeStep(s: Slot, buf: seq<real>, off: nat, frames: nat, reply: DecodeReply): (r: Decoded)
    requires Fits(reply, frames, s.info.channels) && off + Samples(frames, s.info.channels) <= |buf|
    ensures |r.buffer| == |buf| && r.frames <= frames
    ensures !Decodable(s) ==> r == Decoded(s, buf, 0)
    ensures Decodable(s) ==> r.buffer == Splice(buf, off, reply.samples)
    ensures Decodable(s) && (reply.code != Success || reply.frames == 0) ==> r.frames == 0 && r.slot == s.(eos := true)
    ensures r.frames > 0 ==>
      && r.frames == reply.frames
      && r.slot.position == Add64(s.position, reply.frames)
      && (r.slot.eos <==> r.slot.position >= EffectiveEnd(s.track))
      && r.slot == s.(position := r.slot.position, eos := r.slot.eos)
    ensures r.slot.active == s.active && r.slot.handle == s.handle && r.slot.info == s.info
      && r.slot.decoder == s.decoder && r.slot.track == s.track
  {
    if !Decodable(s) then
      Decoded(s, buf, 0)
    else
      var buf' := Splice(buf, off, reply.samples);
      if reply.code != Success || reply.frames == 0 then
        Decoded(s.(eos := true), buf', 0)
      else
        var pos := Add64(s.position, reply.frames);
        Decoded(s.(position := pos, eos := pos >= EffectiveEnd(s.track)), buf', reply.frames)
  }

  /** The frames decode_samples yields for a reply. */
  function Yield(s: Slot, reply: DecodeReply): nat {
    if Decodable(s) && reply.code == Success then reply.frames else 0
  }

  // ---------------------------------------------------------------------------------
  // Positions and the prebuffer trigger
  // ---------------------------------------------------------------------------------

  /** get_position: the cursor in milliseconds, 0 while the sample rate is unknown. */
  function PositionMs(s: Slot): u64 {
    if s.info.sampleRate == 0 then 0 else Mul64(s.position, 1000) / s.info.sampleRate
  }

  /** The cursor seek() sets from the position the decoder reports, in samples. */
  function SeekCursor(actualMs: u64, sampleRate: u32): u64 {
    Mul64(actualMs, sampleRate) / 1000
  }

  /** is_approaching_end: the current track's remaining time is under the prebuffer threshold. */
  function IsApproachingEnd(s: Slot, thresholdMs: nat): (r: bool)
    ensures r ==> s.info.sampleRate != 0 && s.track.totalSamples != 0
  {
    if s.info.sampleRate == 0 || s.track.totalSamples == 0 then false
    else Mul64(Sub64(s.track.totalSamples, s.position), 1000) / s.info.sampleRate < thresholdMs
  }

  lemma DivLess(x: nat, r: nat, t: nat)
    requires r > 0
    ensures x / r < t <==> x < t * r
  {
    var q := x / r;
    assert x == q * r + x % r;
    if q < t {
      MulMono(q + 1, t, r);
      assert (q + 1) * r == q * r + r;
    } else {
      MulMono(t, q, r);
    }
  }

  /**
   * Without wrap-around, the prebuffer trigger fires exactly when the remaining samples play
   * for less than the threshold: (total - position) * 1000 < threshold * rate.
   */
  lemma ApproachingEndIff(s: Slot, thresholdMs: nat)
    requires s.info.sampleRate > 0 && s.track.totalSamples > 0
    requires s.position <= s.track.totalSamples
    requires (s.track.totalSamples - s.position) * 1000 < U64
    ensures IsApproachingEnd(s, thresholdMs) <==>
      (s.track.totalSamples - s.position) * 1000 < thresholdMs * s.info.sampleRate
  {
    DivLess((s.track.totalSamples - s.position) * 1000, s.info.sampleRate, thresholdMs);
  }

  lemma DivMulBounds(x: nat, d: nat)
    requires d > 0
    ensures (x / d) * d <= x < (x / d) * d + d
  {}

  /**
   * seek followed by get_position: when the sample rate is at least 1000 Hz and nothing wraps,
   * the position read back is the position the decoder reported, or one millisecond less.
   */
  lemma {:induction false} SeekThenPosition(s: Slot, actualMs: u64)
    requires s.info.sampleRate >= 1000
    requires actualMs * s.info.sampleRate < U64
    ensures SeekCursor(actualMs, s.info.sampleRate) * 1000 < U64
    ensures var back := PositionMs(s.(position := SeekCursor(actualMs, s.info.sampleRate)));
      back <= actualMs && actualMs <= back + 1
  {
    var r: nat := s.info.sampleRate;
    var x: nat := actualMs * r;
    var p: nat := x / 1000;
    assert SeekCursor(actualMs, s.info.sampleRate) == p;
    DivMulBounds(x, 1000);
    var back := RoundTrip(actualMs, r, x, p);
    assert PositionMs(s.(position := p)) == back;
  }

  /** The arithmetic of the seek round trip: p = a * r / 1000, back = p * 1000 / r. */
  lemma RoundTrip(a: nat, r: nat, x: nat, p: nat) returns (back: nat)
    requires r >= 1000 && x == a * r && p == x / 1000 && p * 1000 <= x
    ensures back == (p * 1000) / r && back <= a <= back + 1
  {
    back := (p * 1000) / r;
    var y := p * 1000;
    DivMulBounds(y, r);
    DivMulBounds(x, 1000);
    assert back * r <= y <= x;
    MulLeCancel(back, a, r);
    assert x < y + 1000;
    assert y < back * r + r;
    MulAddTwo(back, r);
    assert a * r < (back + 2) * r;
    MulLtCancel(a, back + 2, r);
  }

  lemma MulAddTwo(b: nat, r: nat)
    ensures (b + 2) * r == b * r + r + r
  {}

  lemma MulLeCancel(a: nat, b: nat, r: nat)
    requires r > 0 && a * r <= b * r
    ensures a <= b
  {}

  lemma MulLtCancel(a: nat, b: nat, r: nat)
    requires r > 0 && a * r < b * r
    ensures a < b
  {}

  // ---------------------------------------------------------------------------------
  // The buffer fill, as a function of the engine's state and the decoders' replies
  // ---------------------------------------------------------------------------------

  /**
   * The outcome of one fill_buffer call: the slots, the indices and the buffer afterwards,
   * how many frames came from the current and the next slot, how many were filled with
   * silence, and the close_stream calls made by the slot switch.
   */
  datatype Fill = Fill(
    slots: seq<Slot>,
    current: int,
    next: int,
    buffer: seq<real>,
    fromCurrent: nat,
    fromNext: nat,
    silence: nat,
    closes: seq<StreamClose>)

  /**
   * What fill_buffer needs of its caller and of the decoders: a buffer that holds frames frames
   * of either slot's channel count, and decoders that return no more than they are asked for.
   */
  predicate FillFits(slots: seq<Slot>, current: int, next: int, len: nat, frames: nat,
                     curReply: DecodeReply, nextReply: DecodeReply)
    requires |slots| == 2 && ValidIndices(current, next)
  {
    && Samples(frames, slots[current].info.channels) <= len
    && Fits(curReply, frames, slots[current].info.channels)
    && (next >= 0 ==>
         && Samples(frames, slots[next].info.channels) <= len
         && Fits(nextReply, frames - Yield(slots[current], curReply), slots[next].info.channels))
  }

  /** Priming: the next slot is made active when gapless is on, it exists and the end approaches. */
  function Prime(slots: seq<Slot>, current: int, next: int, gapless: bool, thresholdMs: nat): (r: seq<Slot>)
    requires |slots| == 2 && ValidIndices(current, next)
    ensures |r| == 2 && r[current] == slots[current]
    ensures next < 0 ==> r == slots
    ensures next >= 0 ==>
      r[next] == slots[next].(active := slots[next].active || (gapless && IsApproachingEnd(slots[current], thresholdMs)))
  {
    if gapless && IsApproachingEnd(slots[current], thresholdMs) && next >= 0 then
      slots[next := slots[next].(active := true)]
    else
      slots
  }

  /** The final silence: whatever frames are still missing, at the channel count of the (new) current slot. */
  function Pad(f: Fill, frames: nat): (r: Fill)
    requires |f.slots| == 2 && (f.current == 0 || f.current == 1)
    requires f.fromCurrent + f.fromNext <= frames && f.silence == 0
    requires Samples(frames, f.slots[f.current].info.channels) <= |f.buffer|
    ensures r == f.(buffer := r.buffer, silence := r.silence) && |r.buffer| == |f.buffer|
    ensures r.silence == frames - f.fromCurrent - f.fromNext
  {
    var decoded := f.fromCurrent + f.fromNext;
    if decoded < frames then
      var ch := f.slots[f.current].info.channels;
      PadFits(decoded, frames, ch);
      f.(buffer := Splice(f.buffer, Samples(decoded, ch), Zeros(Samples(frames - decoded, ch))), silence := frames - decoded)
    else
      f
  }

  /**
   * What the shortfall branch needs: fewer frames decoded than requested, a buffer that holds
   * frames frames of either slot, and a next decoder that returns no more than the rest.
   */
  predicate ShortfallFits(s1: seq<Slot>, current: int, next: int, len: nat, frames: nat, decoded: nat, nextReply: DecodeReply) {
    && |s1| == 2 && ValidIndices(current, next) && decoded < frames
    && Samples(frames, s1[current].info.channels) <= len
    && (next >= 0 ==>
         && Samples(frames, s1[next].info.channels) <= len
         && Fits(nextReply, frames - decoded, s1[next].info.channels))
  }

  /** The splice from the next slot in the shortfall branch of fill_buffer, switching slots if it yielded. */
  function Spliced(s1: seq<Slot>, current: int, next: int, gapless: bool, buf: seq<real>,
                   frames: nat, decoded: nat, nextReply: DecodeReply): (r: Fill)
    requires ShortfallFits(s1, current, next, |buf|, frames, decoded, nextReply)
    ensures |r.slots| == 2 && ValidIndices(r.current, r.next) && |r.buffer| == |buf|
    ensures r.fromCurrent == decoded && r.fromCurrent + r.fromNext <= frames && r.silence == 0
    ensures Samples(frames, r.slots[r.current].info.channels) <= |r.buffer|
  {
    if gapless && next >= 0 && s1[next].active then
      var off := Samples(decoded, s1[current].info.channels);
      SpliceFits(decoded, frames, s1[current].info.channels, s1[next].info.channels, |buf|);
      var n := DecodeStep(s1[next], buf, off, frames - decoded, nextReply);
      var s2 := s1[next := n.slot];
      if n.frames > 0 then
        Fill(s2[current := Closed(s2[current])], next, -1, n.buffer, decoded, n.frames, 0, CloseCalls(s2[current]))
      else
        Fill(s2, current, next, n.buffer, decoded, 0, 0, [])
    else
      Fill(s1, current, next, buf, decoded, 0, 0, [])
  }

  /** The shortfall branch of fill_buffer: splice from the next slot, then pad with silence. */
  function Shortfall(s1: seq<Slot>, current: int, next: int, gapless: bool, buf: seq<real>,
                     frames: nat, decoded: nat, nextReply: DecodeReply): (r: Fill)
    requires ShortfallFits(s1, current, next, |buf|, frames, decoded, nextReply)
    ensures |r.buffer| == |buf|
  {
    Pad(Spliced(s1, current, next, gapless, buf, frames, decoded, nextReply), frames)
  }

  /** fill_buffer, as a function of the engine state, the caller's buffer and the decoders' replies. */
  function FillBufferSpec(slots: seq<Slot>, current: int, next: int, playing: bool, gapless: bool, thresholdMs: nat,
                          buf: seq<real>, frames: nat, curReply: DecodeReply, nextReply: DecodeReply): (f: Fill)
    requires |slots| == 2 && ValidIndices(current, next)
    requires FillFits(slots, current, next, |buf|, frames, curReply, nextReply)
    ensures |f.buffer| == |buf|
  {
    if !playing then
      Fill(slots, current, next, Splice(buf, 0, Zeros(Samples(frames, slots[current].info.channels))), 0, 0, frames, [])
    else
      var primed := Prime(slots, current, next, gapless, thresholdMs);
      assert FillFits(primed, current, next, |buf|, frames, curReply, nextReply);
      Played(primed, current, next, gapless, buf, frames, curReply, nextReply)
  }

  /** fill_buffer after priming: decode from the current slot, then the shortfall branch if it fell short. */
  function Played(primed: seq<Slot>, current: int, next: int, gapless: bool,
                  buf: seq<real>, frames: nat, curReply: DecodeReply, nextReply: DecodeReply): (f: Fill)
    requires |primed| == 2 && ValidIndices(current, next)
    requires FillFits(primed, current, next, |buf|, frames, curReply, nextReply)
    ensures |f.buffer| == |buf|
  {
    var c := DecodeStep(primed[current], buf, 0, frames, curReply);
    var s1 := primed[current := c.slot];
    if c.frames < frames then
      Shortfall(s1, current, next, gapless, c.buffer, frames, c.frames, nextReply)
    else
      Fill(s1, current, next, c.buffer, c.frames, 0, 0, [])
  }

  // ---------------------------------------------------------------------------------
  // How far fill_buffer reaches into the device buffer
  // ---------------------------------------------------------------------------------

  lemma {:induction false} SamplesMore(frames: nat, c1: nat, c2: nat)
    requires frames > 0 && c1 < c2
    ensures Samples(frames, c1) < Samples(frames, c2)
  {
    SamplesWider(frames - 1, c1, c2);
  }

  function Max(a: nat, b: nat): nat {
    if a < b then b else a
  }

  /**
   * The end of the furthest buffer region fill_buffer touches, as written and whatever the
   * buffer's length: the frames frames handed to the current decoder when decode_samples gets
   * past its guard, the rest after the decoded frames handed to the next decoder (at the next
   * slot's channel count) when that slot gets past the guard, and the silence cleared at the
   * channel count of the slot that is current after the switch.
   */
  function FillExtent(slots: seq<Slot>, current: int, next: int, playing: bool, gapless: bool, thresholdMs: nat,
                      frames: nat, curReply: DecodeReply, nextReply: DecodeReply): (n: nat)
    requires |slots| == 2 && ValidIndices(current, next)
    ensures !playing ==> n == Samples(frames, slots[current].info.channels)
    ensures playing && Decodable(slots[current]) ==> n >= Samples(frames, slots[current].info.channels)
    ensures playing && next < 0 && Yield(slots[current], curReply) < frames ==>
      n >= Samples(frames, slots[current].info.channels)
  {
    var chC := slots[current].info.channels;
    if !playing then Samples(frames, chC)
    else
      var primed := Prime(slots, current, next, gapless, thresholdMs);
      var cur := if Decodable(primed[current]) then Samples(frames, chC) else 0;
      var d := Yield(primed[current], curReply);
      if d >= frames then cur
      else if !(gapless && next >= 0 && primed[next].active) then Max(cur, Samples(frames, chC))
      else
        var chN := primed[next].info.channels;
        var spliceEnd := if Decodable(primed[next]) then Samples(d, chC) + Samples(frames - d, chN) else 0;
        var nd := Yield(primed[next], nextReply);
        var silenceEnd := if d + nd < frames then Samples(frames, if nd > 0 then chN else chC) else 0;
        Max(cur, Max(spliceEnd, silenceEnd))
  }

  /** On the splice branch, the extent covers the window offered to the next decoder. */
  lemma ExtentCoversSplice(slots: seq<Slot>, current: int, next: int, gapless: bool, thresholdMs: nat,
                           frames: nat, curReply: DecodeReply, nextReply: DecodeReply)
    requires |slots| == 2 && ValidIndices(current, next) && next >= 0 && gapless
    requires var primed := Prime(slots, current, next, gapless, thresholdMs);
      primed[next].active && Decodable(primed[next]) && Yield(primed[current], curReply) < frames
    ensures var primed := Prime(slots, current, next, gapless, thresholdMs);
      var d := Yield(primed[current], curReply);
      FillExtent(slots, current, next, true, gapless, thresholdMs, frames, curReply, nextReply)
        >= Samples(d, slots[current].info.channels) + Samples(frames - d, primed[next].info.channels)
  {
  }

  /**
   * As written, a gapless switch to a track with more channels than the device was opened with
   * reaches past the device buffer: play() opens the device at the current track's channel count
   * c, so the callback's buffer holds frames x c samples, and the next track's samples are handed
   * out at its own, larger, channel count.
   */
  lemma SwitchOverrunsDeviceBuffer(device: DeviceCall, slots: seq<Slot>, current: int, next: int, thresholdMs: nat,
                                   frames: nat, curReply: DecodeReply, nextReply: DecodeReply)
    requires |slots| == 2 && ValidIndices(current, next) && next >= 0
    requires device == DeviceOpen(slots[current].info.sampleRate, slots[current].info.channels, DeviceBufferFrames)
    requires frames <= device.bufferFrames
    requires Decodable(slots[next]) && Yield(slots[current], curReply) < frames
    requires nextReply.code == Success && nextReply.frames > 0
    requires device.channels < slots[next].info.channels
    ensures FillExtent(slots, current, next, true, true, thresholdMs, frames, curReply, nextReply)
      > Samples(frames, device.channels)
  {
    var c := device.channels;
    var primed := Prime(slots, current, next, true, thresholdMs);
    assert primed[current] == slots[current] && primed[next] == slots[next];
    var d := Yield(primed[current], curReply);
    var spliceEnd := Samples(d, c) + Samples(frames - d, slots[next].info.channels);
    ExtentCoversSplice(slots, current, next, true, thresholdMs, frames, curReply, nextReply);
    SamplesMore(frames - d, c, slots[next].info.channels);
    PadFits(d, frames, c);
    assert spliceEnd > Samples(frames, c);
  }

  /**
   * As written, load_track leaves the device open at the old channel count c, and only play()
   * from Stopped reopens it. A current track with more channels then reaches past the device
   * buffer when fill_buffer clears silence for it (not playing), when it is decoded (resumed
   * from Paused, so the slot is active), or when, with no next slot, the silence after it is
   * cleared at its count (load_track while Playing leaves the slot inactive).
   */
  lemma ReloadOverrunsDeviceBuffer(c: nat, slots: seq<Slot>, current: int, next: int, playing: bool, gapless: bool,
                                   thresholdMs: nat, frames: nat, curReply: DecodeReply, nextReply: DecodeReply)
    requires |slots| == 2 && ValidIndices(current, next)
    requires frames > 0 && c < slots[current].info.channels
    requires !playing || Decodable(slots[current]) || next < 0
    ensures FillExtent(slots, current, next, playing, gapless, thresholdMs, frames, curReply, nextReply)
      > Samples(frames, c)
  {
    SamplesMore(frames, c, slots[current].info.channels);
  }

  /**
   * When the buffer holds frames frames of either slot (FillFits), every region fill_buffer
   * touches lies inside it.
   */
  lemma FillStaysInBuffer(slots: seq<Slot>, current: int, next: int, playing: bool, gapless: bool, thresholdMs: nat,
                          len: nat, frames: nat, curReply: DecodeReply, nextReply: DecodeReply)
    requires |slots| == 2 && ValidIndices(current, next)
    requires FillFits(slots, current, next, len, frames, curReply, nextReply)
    ensures FillExtent(slots, current, next, playing, gapless, thresholdMs, frames, curReply, nextReply) <= len
  {
    var chC := slots[current].info.channels;
    var primed := Prime(slots, current, next, gapless, thresholdMs);
    var d := Yield(primed[current], curReply);
    if playing && d < frames && gapless && next >= 0 && primed[next].active && Decodable(primed[next]) {
      SpliceFits(d, frames, chC, primed[next].info.channels, len);
    }
  }

  // ---------------------------------------------------------------------------------
  // Properties of the buffer fill
  // ---------------------------------------------------------------------------------

  /** When not playing, fill_buffer writes exactly frames x channels zeros and changes nothing else. */
  lemma FillWhenNotPlaying(slots: seq<Slot>, current: int, next: int, gapless: bool, thresholdMs: nat,
                           buf: seq<real>, frames: nat, curReply: DecodeReply, nextReply: DecodeReply)
    requires |slots| == 2 && ValidIndices(current, next)
    requires FillFits(slots, current, next, |buf|, frames, curReply, nextReply)
    ensures var f := FillBufferSpec(slots, current, next, false, gapless, thresholdMs, buf, frames, curReply, nextReply);
      var n := Samples(frames, slots[current].info.channels);
      && f.slots == slots && f.current == current && f.next == next && f.closes == []
      && |f.buffer| == |buf| && f.buffer[..n] == Zeros(n) && f.buffer[n..] == buf[n..]
  {
    var f := FillBufferSpec(slots, current, next, false, gapless, thresholdMs, buf, frames, curReply, nextReply);
    var n := Samples(frames, slots[current].info.channels);
    assert f.buffer[..n] == Zeros(n);
  }

  /**
   * While playing, the frames delivered add up: decoded from the current slot, plus decoded from
   * the next slot, plus silence, equals the frames requested; the current slot contributes what
   * its decoder yielded.
   */
  lemma FillAccounting(slots: seq<Slot>, current: int, next: int, gapless: bool, thresholdMs: nat,
                       buf: seq<real>, frames: nat, curReply: DecodeReply, nextReply: DecodeReply)
    requires |slots| == 2 && ValidIndices(current, next)
    requires FillFits(slots, current, next, |buf|, frames, curReply, nextReply)
    ensures var f := FillBufferSpec(slots, current, next, true, gapless, thresholdMs, buf, frames, curReply, nextReply);
      && f.fromCurrent + f.fromNext + f.silence == frames
      && f.fromCurrent == Yield(slots[current], curReply)
      && |f.buffer| == |buf|
  {
  }

  /**
   * The slot switch happens exactly when the next slot yielded samples. Then the old current
   * slot is closed, the next slot becomes current and stays active, and next is none;
   * otherwise the indices stay and no stream is closed.
   */
  lemma FillSwitch(slots: seq<Slot>, current: int, next: int, gapless: bool, thresholdMs: nat,
                   buf: seq<real>, frames: nat, curReply: DecodeReply, nextReply: DecodeReply)
    requires |slots| == 2 && ValidIndices(current, next)
    requires FillFits(slots, current, next, |buf|, frames, curReply, nextReply)
    ensures var f := FillBufferSpec(slots, current, next, true, gapless, thresholdMs, buf, frames, curReply, nextReply);
      && |f.slots| == 2 && ValidIndices(f.current, f.next)
      && (f.current != current <==> f.fromNext > 0)
      && (f.fromNext > 0 ==>
           && next >= 0 && gapless && f.current == next && f.next == -1
           && f.slots[current] == Closed(DecodeStep(slots[current], buf, 0, frames, curReply).slot)
           && f.slots[next].active
           && f.closes == CloseCalls(DecodeStep(slots[current], buf, 0, frames, curReply).slot))
      && (f.fromNext == 0 ==> f.current == current && f.next == next && f.closes == [])
  {
  }

  /**
   * Priming: unless a switch took place, the next slot is active afterwards exactly when it was
   * active before or gapless is on and the current track approaches its end.
   */
  lemma FillPriming(slots: seq<Slot>, current: int, next: int, gapless: bool, thresholdMs: nat,
                    buf: seq<real>, frames: nat, curReply: DecodeReply, nextReply: DecodeReply)
    requires |slots| == 2 && ValidIndices(current, next)
    requires FillFits(slots, current, next, |buf|, frames, curReply, nextReply)
    requires next >= 0
    ensures var f := FillBufferSpec(slots, current, next, true, gapless, thresholdMs, buf, frames, curReply, nextReply);
      && (f.fromNext > 0 ==> gapless && (slots[next].active || IsApproachingEnd(slots[current], thresholdMs)))
      && (f.current == current ==>
            (f.slots[next].active <==> slots[next].active || (gapless && IsApproachingEnd(slots[current], thresholdMs))))
  {
  }

  /** The decoder writes exactly the frames it reports whenever it reports any. */
  predicate Exact(s: Slot, reply: DecodeReply) {
    Decodable(s) && reply.code == Success && reply.frames > 0 ==> |reply.samples| == Samples(reply.frames, s.info.channels)
  }

  /** Padding leaves the decoded prefix, zeros the rest of the frames, and touches nothing beyond. */
  lemma PadLayout(f: Fill, frames: nat, ch: nat)
    requires |f.slots| == 2 && (f.current == 0 || f.current == 1)
    requires f.fromCurrent + f.fromNext <= frames && f.silence == 0
    requires f.slots[f.current].info.channels == ch && Samples(frames, ch) <= |f.buffer|
    ensures var d := f.fromCurrent + f.fromNext;
      var g := Pad(f, frames);
      && Samples(d, ch) <= Samples(frames, ch)
      && g.buffer[..Samples(frames, ch)] == f.buffer[..Samples(d, ch)] + Zeros(Samples(g.silence, ch))
      && g.buffer[Samples(frames, ch)..] == f.buffer[Samples(frames, ch)..]
  {
    var d := f.fromCurrent + f.fromNext;
    PadFits(d, frames, ch);
    var g := Pad(f, frames);
    if d < frames {
      assert g.buffer == Splice(f.buffer, Samples(d, ch), Zeros(Samples(frames - d, ch)));
      assert g.buffer[..Samples(frames, ch)] == f.buffer[..Samples(d, ch)] + Zeros(Samples(g.silence, ch));
    } else {
      assert g == f && Zeros(0) == [];
    }
  }

  /** What a splice keeps and what it writes: the prefix before off, the data, the tail after it. */
  lemma SpliceParts(buf: seq<real>, off: nat, data: seq<real>, k: nat)
    requires off + |data| <= k <= |buf|
    ensures Splice(buf, off, data)[..off] == buf[..off]
    ensures Splice(buf, off, data)[..off + |data|] == buf[..off] + data
    ensures Splice(buf, off, data)[k..] == buf[k..]
  {
    var r := Splice(buf, off, data);
    assert r == buf[..off] + data + buf[off + |data|..];
    assert r[k..] == buf[off + |data|..][k - off - |data|..];
  }

  /** Both slots at ch channels, and the next decoder writing exactly the frames it reports. */
  predicate Uniform(s1: seq<Slot>, current: int, next: int, ch: nat, nextReply: DecodeReply)
    requires |s1| == 2 && ValidIndices(current, next)
  {
    s1[current].info.channels == ch && (next >= 0 ==> s1[next].info.channels == ch && Exact(s1[next], nextReply))
  }

  /** The splice from the next slot: the decoded prefix, then the next slot's samples if it yielded. */
  lemma SplicedLayout(s1: seq<Slot>, current: int, next: int, gapless: bool, buf: seq<real>,
                      frames: nat, decoded: nat, nextReply: DecodeReply, ch: nat)
    requires ShortfallFits(s1, current, next, |buf|, frames, decoded, nextReply)
    requires Uniform(s1, current, next, ch, nextReply)
    ensures var g := Spliced(s1, current, next, gapless, buf, frames, decoded, nextReply);
      var nxt := if g.fromNext > 0 then nextReply.samples else [];
      && g.slots[g.current].info.channels == ch
      && Samples(decoded, ch) <= Samples(decoded + g.fromNext, ch) <= Samples(frames, ch)
      && g.buffer[..Samples(decoded + g.fromNext, ch)] == buf[..Samples(decoded, ch)] + nxt
      && g.buffer[Samples(frames, ch)..] == buf[Samples(frames, ch)..]
  {
    var g := Spliced(s1, current, next, gapless, buf, frames, decoded, nextReply);
    SamplesAdd(decoded, g.fromNext, ch);
    PadFits(decoded + g.fromNext, frames, ch);
    if gapless && next >= 0 && s1[next].active && Decodable(s1[next]) {
      SpliceFits(decoded, frames, ch, ch, |buf|);
      var n := DecodeStep(s1[next], buf, Samples(decoded, ch), frames - decoded, nextReply);
      assert g.buffer == n.buffer == Splice(buf, Samples(decoded, ch), nextReply.samples) && g.fromNext == n.frames;
      if n.frames > 0 {
        SpliceWritten(buf, decoded, n.frames, nextReply.samples, frames, ch);
      } else {
        SpliceDiscarded(buf, decoded, nextReply.samples, frames, ch);
      }
    } else {
      assert g.buffer == buf && g.fromNext == 0;
      PadFits(decoded, frames, ch);
    }
  }

  /** Samples written for nf frames after d frames: the prefix, then the samples; nothing beyond the frames touched. */
  lemma SpliceWritten(buf: seq<real>, d: nat, nf: nat, data: seq<real>, frames: nat, ch: nat)
    requires |data| == Samples(nf, ch) && d + nf <= frames && Samples(frames, ch) <= |buf|
    ensures Samples(d + nf, ch) <= Samples(frames, ch)
    ensures Samples(d, ch) + |data| <= |buf|
    ensures Splice(buf, Samples(d, ch), data)[..Samples(d + nf, ch)] == buf[..Samples(d, ch)] + data
    ensures Splice(buf, Samples(d, ch), data)[Samples(frames, ch)..] == buf[Samples(frames, ch)..]
  {
    SamplesAdd(d, nf, ch);
    PadFits(d + nf, frames, ch);
    SpliceParts(buf, Samples(d, ch), data, Samples(frames, ch));
  }

  /** Samples written by a decoder that yielded nothing: the prefix kept; nothing beyond the frames touched. */
  lemma SpliceDiscarded(buf: seq<real>, d: nat, data: seq<real>, frames: nat, ch: nat)
    requires d <= frames && |data| <= Samples(frames - d, ch) && Samples(frames, ch) <= |buf|
    ensures Samples(d, ch) <= Samples(frames, ch)
    ensures Samples(d, ch) + |data| <= |buf|
    ensures Splice(buf, Samples(d, ch), data)[..Samples(d, ch)] == buf[..Samples(d, ch)]
    ensures Splice(buf, Samples(d, ch), data)[Samples(frames, ch)..] == buf[Samples(frames, ch)..]
  {
    PadFits(d, frames, ch);
    SpliceParts(buf, Samples(d, ch), data, Samples(frames, ch));
  }

  /** The shortfall branch: the decoded prefix, then the next slot's samples if it yielded, then zeros. */
  lemma ShortfallLayout(s1: seq<Slot>, current: int, next: int, gapless: bool, buf: seq<real>,
                        frames: nat, decoded: nat, nextReply: DecodeReply, ch: nat)
    requires ShortfallFits(s1, current, next, |buf|, frames, decoded, nextReply)
    requires Uniform(s1, current, next, ch, nextReply)
    ensures var f := Shortfall(s1, current, next, gapless, buf, frames, decoded, nextReply);
      var nxt := if f.fromNext > 0 then nextReply.samples else [];
      && Samples(decoded, ch) <= Samples(frames, ch)
      && f.fromCurrent == decoded
      && f.buffer[..Samples(frames, ch)] == buf[..Samples(decoded, ch)] + nxt + Zeros(Samples(f.silence, ch))
      && f.buffer[Samples(frames, ch)..] == buf[Samples(frames, ch)..]
  {
    var g := Spliced(s1, current, next, gapless, buf, frames, decoded, nextReply);
    PadFits(decoded, frames, ch);
    SplicedLayout(s1, current, next, gapless, buf, frames, decoded, nextReply, ch);
    PadLayout(g, frames, ch);
  }

  /** The current slot's decode: its samples, if it yielded, at the front; nothing beyond the frames touched. */
  lemma DecodeLayout(s: Slot, buf: seq<real>, frames: nat, reply: DecodeReply, ch: nat)
    requires Fits(reply, frames, s.info.channels) && Samples(frames, s.info.channels) <= |buf|
    requires s.info.channels == ch && Exact(s, reply)
    ensures var c := DecodeStep(s, buf, 0, frames, reply);
      && Samples(c.frames, ch) <= Samples(frames, ch)
      && c.buffer[..Samples(c.frames, ch)] == (if c.frames > 0 then reply.samples else [])
      && c.buffer[Samples(frames, ch)..] == buf[Samples(frames, ch)..]
  {
    var c := DecodeStep(s, buf, 0, frames, reply);
    PadFits(c.frames, frames, ch);
    if Decodable(s) {
      SpliceParts(buf, 0, reply.samples, Samples(frames, ch));
    }
  }

  /** The layout after priming (see FillLayout). */
  lemma PlayedLayout(primed: seq<Slot>, current: int, next: int, gapless: bool,
                     buf: seq<real>, frames: nat, curReply: DecodeReply, nextReply: DecodeReply, ch: nat)
    requires |primed| == 2 && ValidIndices(current, next)
    requires FillFits(primed, current, next, |buf|, frames, curReply, nextReply)
    requires Exact(primed[current], curReply) && Uniform(primed, current, next, ch, nextReply)
    ensures var f := Played(primed, current, next, gapless, buf, frames, curReply, nextReply);
      var cur := if f.fromCurrent > 0 then curReply.samples else [];
      var nxt := if f.fromNext > 0 then nextReply.samples else [];
      && f.buffer[..Samples(frames, ch)] == cur + nxt + Zeros(Samples(f.silence, ch))
      && f.buffer[Samples(frames, ch)..] == buf[Samples(frames, ch)..]
  {
    if DecodeStep(primed[current], buf, 0, frames, curReply).frames < frames {
      PlayedShortLayout(primed, current, next, gapless, buf, frames, curReply, nextReply, ch);
    } else {
      PlayedFullLayout(primed, current, next, gapless, buf, frames, curReply, nextReply, ch);
    }
  }

  /** The layout after priming when the current slot yields every frame asked for. */
  lemma PlayedFullLayout(primed: seq<Slot>, current: int, next: int, gapless: bool,
                         buf: seq<real>, frames: nat, curReply: DecodeReply, nextReply: DecodeReply, ch: nat)
    requires |primed| == 2 && ValidIndices(current, next)
    requires FillFits(primed, current, next, |buf|, frames, curReply, nextReply)
    requires Exact(primed[current], curReply) && Uniform(primed, current, next, ch, nextReply)
    requires DecodeStep(primed[current], buf, 0, frames, curReply).frames >= frames
    ensures var f := Played(primed, current, next, gapless, buf, frames, curReply, nextReply);
      var cur := if f.fromCurrent > 0 then curReply.samples else [];
      var nxt := if f.fromNext > 0 then nextReply.samples else [];
      && f.buffer[..Samples(frames, ch)] == cur + nxt + Zeros(Samples(f.silence, ch))
      && f.buffer[Samples(frames, ch)..] == buf[Samples(frames, ch)..]
  {
    var c := DecodeStep(primed[current], buf, 0, frames, curReply);
    DecodeLayout(primed[current], buf, frames, curReply, ch);
    var f := Played(primed, current, next, gapless, buf, frames, curReply, nextReply);
    assert c.frames == frames;
    assert f == Fill(primed[current := c.slot], current, next, c.buffer, frames, 0, 0, []);
    assert Samples(0, ch) == 0 && Zeros(0) == [];
  }

  /** The layout after priming when the current slot falls short. */
  lemma PlayedShortLayout(primed: seq<Slot>, current: int, next: int, gapless: bool,
                          buf: seq<real>, frames: nat, curReply: DecodeReply, nextReply: DecodeReply, ch: nat)
    requires |primed| == 2 && ValidIndices(current, next)
    requires FillFits(primed, current, next, |buf|, frames, curReply, nextReply)
    requires Exact(primed[current], curReply) && Uniform(primed, current, next, ch, nextReply)
    requires DecodeStep(primed[current], buf, 0, frames, curReply).frames < frames
    ensures var f := Played(primed, current, next, gapless, buf, frames, curReply, nextReply);
      var cur := if f.fromCurrent > 0 then curReply.samples else [];
      var nxt := if f.fromNext > 0 then nextReply.samples else [];
      && f.buffer[..Samples(frames, ch)] == cur + nxt + Zeros(Samples(f.silence, ch))
      && f.buffer[Samples(frames, ch)..] == buf[Samples(frames, ch)..]
  {
    var c := DecodeStep(primed[current], buf, 0, frames, curReply);
    var s1 := primed[current := c.slot];
    DecodeLayout(primed[current], buf, frames, curReply, ch);
    assert Uniform(s1, current, next, ch, nextReply);
    ShortfallLayout(s1, current, next, gapless, c.buffer, frames, c.frames, nextReply, ch);
  }

  /**
   * Splice layout: when both slots have the same channel count and the decoders write exactly
   * the frames they report, the first frames x channels samples of the buffer are the current
   * track's samples, then the next track's samples, then zeros, and the rest of the buffer is
   * untouched; whatever a failing decoder wrote is overwritten by the silence.
   */
  lemma FillLayout(slots: seq<Slot>, current: int, next: int, gapless: bool, thresholdMs: nat,
                   buf: seq<real>, frames: nat, curReply: DecodeReply, nextReply: DecodeReply, ch: nat)
    requires |slots| == 2 && ValidIndices(current, next)
    requires FillFits(slots, current, next, |buf|, frames, curReply, nextReply)
    requires slots[current].info.channels == ch && (next >= 0 ==> slots[next].info.channels == ch)
    requires Exact(slots[current], curReply)
    requires next >= 0 ==> Exact(slots[next].(active := true), nextReply)
    ensures var f := FillBufferSpec(slots, current, next, true, gapless, thresholdMs, buf, frames, curReply, nextReply);
      var cur := if f.fromCurrent > 0 then curReply.samples else [];
      var nxt := if f.fromNext > 0 then nextReply.samples else [];
      && |f.buffer| == |buf|
      && f.buffer[..Samples(frames, ch)] == cur + nxt + Zeros(Samples(f.silence, ch))
      && f.buffer[Samples(frames, ch)..] == buf[Samples(frames, ch)..]
  {
    var primed := Prime(slots, current, next, gapless, thresholdMs);
    assert Uniform(primed, current, next, ch, nextReply) by {
      if next >= 0 {
        assert primed[next] == slots[next] || primed[next] == slots[next].(active := true);
      }
    }
    PlayedLayout(primed, current, next, gapless, buf, frames, curReply, nextReply, ch);
  }

  // ---------------------------------------------------------------------------------
  // The engine object
  // ---------------------------------------------------------------------------------

  class PlaybackEngine {
    var decoders: array<Slot>
    var current: int
    var next: int
    var state: PlaybackState
    /** Whether an audio output was given to initialize (audio_output_ != nullptr). */
    var hasOutput: bool
    var initialized: bool
    var gapless: bool
    /** PREBUFFER_THRESHOLD_MS, from a header that is not part of this model. */
    const thresholdMs: nat

    /** The calls made on the audio device, in order. */
    ghost var deviceCalls: seq<DeviceCall>
    /** The close_stream calls made on decoders, in order. */
    ghost var streamCloses: seq<StreamClose>

    ghost predicate Valid()
      reads this, decoders
    {
      && decoders.Length == 2
      && ValidIndices(current, next)
      && (initialized ==> hasOutput)
      && SlotWellFormed(decoders[0]) && SlotWellFormed(decoders[1])
    }

    constructor (thresholdMs: nat)
      ensures Valid() && fresh(decoders)
      ensures decoders[..] == [EmptySlot, EmptySlot] && current == 0 && next == -1
      ensures state == Stopped && !hasOutput && !initialized && gapless
      ensures this.thresholdMs == thresholdMs
      ensures deviceCalls == [] && streamCloses == []
    {
      decoders := new Slot[2](_ => EmptySlot);
      current, next := 0, -1;
      state := Stopped;
      hasOutput, initialized, gapless := false, false, true;
      this.thresholdMs := thresholdMs;
      deviceCalls, streamCloses := [], [];
      new;
      assert decoders[..] == [EmptySlot, EmptySlot];
    }

    /** initialize: refused when repeated or without an output; otherwise resets the indices. */
    method Initialize(outputGiven: bool) returns (r: Result)
      requires Valid()
      modifies this
      ensures Valid()
      ensures old(initialized) ==> r == AlreadyInitialized && unchanged(this)
      ensures !old(initialized) && !outputGiven ==> r == InvalidParameter && unchanged(this)
      ensures !old(initialized) && outputGiven ==>
        && r == Success && initialized && hasOutput && current == 0 && next == -1
        && decoders == old(decoders) && state == old(state) && gapless == old(gapless)
        && deviceCalls == old(deviceCalls) && streamCloses == old(streamCloses)
    {
      if initialized {
        return AlreadyInitialized;
      }
      if !outputGiven {
        return InvalidParameter;
      }
      hasOutput := true;
      current, next := 0, -1;
      initialized := true;
      r := Success;
    }

    /** close_decoder: closes the slot's stream if it has one, and empties the slot. */
    method CloseDecoder(idx: nat)
      requires Valid() && idx < 2
      modifies decoders, `streamCloses
      ensures Valid()
      ensures decoders[..] == old(decoders[..])[idx := Closed(old(decoders[idx]))]
      ensures streamCloses == old(streamCloses) + CloseCalls(old(decoders[idx]))
    {
      var inst := decoders[idx];
      if inst.handle != NullHandle && inst.decoder.Some? {
        streamCloses := streamCloses + [StreamClose(inst.decoder.value, inst.handle)];
      }
      decoders[idx] := Closed(inst);
    }

    /** load_track: closes the current slot and opens the track into it. */
    method LoadTrack(path: string, dec: DecoderId, openReply: OpenReply, info: InfoReply) returns (r: Result)
      requires Valid()
      modifies decoders, `streamCloses
      ensures Valid()
      ensures !initialized ==> r == NotInitialized && unchanged(decoders) && streamCloses == old(streamCloses)
      ensures initialized ==>
        var o := OpenTrack(Closed(old(decoders[current])), path, dec, openReply, info, true);
        && r == o.result
        && decoders[..] == old(decoders[..])[current := o.slot]
        && streamCloses == old(streamCloses) + CloseCalls(old(decoders[current])) + OpenCloseCalls(dec, openReply, info)
    {
      if !initialized {
        return NotInitialized;
      }
      CloseDecoder(current);
      var o := OpenTrack(decoders[current], path, dec, openReply, info, true);
      streamCloses := streamCloses + OpenCloseCalls(dec, openReply, info);
      decoders[current] := o.slot;
      r := o.result;
    }

    /** prepare_next_track: opens a track into the slot that is not current; on success it becomes next. */
    method PrepareNextTrack(path: string, dec: DecoderId, openReply: OpenReply, info: InfoReply) returns (r: Result)
      requires Valid()
      modifies this, decoders
      ensures Valid()
      ensures current == old(current) && state == old(state) && initialized == old(initialized)
      ensures hasOutput == old(hasOutput) && gapless == old(gapless) && deviceCalls == old(deviceCalls)
      ensures decoders == old(decoders)
      ensures !initialized ==> r == NotInitialized && unchanged(decoders) && unchanged(this)
      ensures initialized ==>
        var target := 1 - current;
        var o := OpenTrack(Closed(old(decoders[target])), path, dec, openReply, info, false);
        && r == o.result
        && decoders[..] == old(decoders[..])[target := o.slot]
        && next == (if r == Success then target else old(next))
        && streamCloses == old(streamCloses) + CloseCalls(old(decoders[target])) + OpenCloseCalls(dec, openReply, info)
    {
      if !initialized {
        return NotInitialized;
      }
      var nextIdx := if current == 0 then 1 else 0;
      CloseDecoder(nextIdx);
      var o := OpenTrack(decoders[nextIdx], path, dec, openReply, info, false);
      streamCloses := streamCloses + OpenCloseCalls(dec, openReply, info);
      decoders[nextIdx] := o.slot;
      r := o.result;
      if r == Success {
        next := nextIdx;
      }
    }

    /**
     * play: success without change when already playing; InvalidState without a stream; the
     * device is opened only from Stopped; a start failure rolls back to Stopped.
     */
    method Play(openCode: Result, startCode: Result) returns (r: Result)
      requires Valid()
      modifies this, decoders
      ensures Valid()
      ensures decoders == old(decoders) && current == old(current) && next == old(next)
      ensures initialized == old(initialized) && hasOutput == old(hasOutput) && gapless == old(gapless)
      ensures streamCloses == old(streamCloses)
      ensures !initialized ==> r == NotInitialized && unchanged(this) && unchanged(decoders)
      ensures initialized && old(state) == Playing ==> r == Success && unchanged(this) && unchanged(decoders)
      ensures initialized && old(state) != Playing && decoders[current].handle == NullHandle ==>
        r == InvalidState && unchanged(this) && unchanged(decoders)
      ensures initialized && old(state) != Playing && old(decoders[current]).handle != NullHandle ==>
        var slot := old(decoders[current]);
        var opening := if old(state) == Stopped then [DeviceOpen(slot.info.sampleRate, slot.info.channels, DeviceBufferFrames)] else [];
        if old(state) == Stopped && openCode != Success then
          r == openCode && state == old(state) && unchanged(decoders) && deviceCalls == old(deviceCalls) + opening
        else if startCode != Success then
          && r == startCode && state == Stopped
          && decoders[..] == old(decoders[..])[current := slot.(active := false)]
          && deviceCalls == old(deviceCalls) + opening + [DeviceStart]
        else
          && r == Success && state == Playing
          && decoders[..] == old(decoders[..])[current := slot.(active := true)]
          && deviceCalls == old(deviceCalls) + opening + [DeviceStart]
    {
      if !initialized {
        return NotInitialized;
      }
      if state == Playing {
        return Success;
      }
      if decoders[current].handle == NullHandle {
        return InvalidState;
      }
      if state == Stopped {
        var slot := decoders[current];
        deviceCalls := deviceCalls + [DeviceOpen(slot.info.sampleRate, slot.info.channels, DeviceBufferFrames)];
        if openCode != Success {
          return openCode;
        }
      }
      r := StartCurrent(startCode);
    }

    /** The tail of play: activate the current slot and start the device; undo both if the start fails. */
    method StartCurrent(startCode: Result) returns (r: Result)
      requires Valid()
      modifies this, decoders
      ensures Valid()
      ensures decoders == old(decoders) && current == old(current) && next == old(next)
      ensures initialized == old(initialized) && hasOutput == old(hasOutput) && gapless == old(gapless)
      ensures streamCloses == old(streamCloses) && deviceCalls == old(deviceCalls) + [DeviceStart]
      ensures r == startCode && state == (if startCode == Success then Playing else Stopped)
      ensures decoders[..] == old(decoders[..])[current := old(decoders[current]).(active := startCode == Success)]
    {
      decoders[current] := decoders[current].(active := true);
      state := Playing;
      deviceCalls := deviceCalls + [DeviceStart];
      if startCode != Success {
        state := Stopped;
        decoders[current] := decoders[current].(active := false);
        return startCode;
      }
      r := Success;
    }

    /** pause: from Playing, stops the device without closing it and moves to Paused. */
    method Pause() returns (r: Result)
      requires Valid()
      modifies this
      ensures Valid()
      ensures !old(initialized) ==> r == NotInitialized && unchanged(this)
      ensures old(initialized) && old(state) != Playing ==> r == Success && unchanged(this)
      ensures old(initialized) && old(state) == Playing ==>
        && r == Success && state == Paused && deviceCalls == old(deviceCalls) + [DeviceStop]
        && decoders == old(decoders) && current == old(current) && next == old(next)
        && initialized == old(initialized) && hasOutput == old(hasOutput) && gapless == old(gapless)
        && streamCloses == old(streamCloses)
    {
      if !initialized {
        return NotInitialized;
      }
      if state != Playing {
        return Success;
      }
      deviceCalls := deviceCalls + [DeviceStop];
      state := Paused;
      r := Success;
    }

    /**
     * stop: a no-op from Stopped; otherwise stops and closes the device, deactivates the current
     * slot, rewinds it to position 0 and moves to Stopped.
     */
    method Stop() returns (r: Result)
      requires Valid()
      modifies this, decoders
      ensures Valid()
      ensures decoders == old(decoders) && current == old(current) && next == old(next)
      ensures initialized == old(initialized) && hasOutput == old(hasOutput) && gapless == old(gapless)
      ensures streamCloses == old(streamCloses)
      ensures !initialized || old(state) == Stopped ==>
        r == (if initialized then Success else NotInitialized) && unchanged(this) && unchanged(decoders)
      ensures initialized && old(state) != Stopped ==>
        && r == Success && state == Stopped
        && deviceCalls == old(deviceCalls) + [DeviceStop, DeviceClose]
        && decoders[..] == old(decoders[..])[current := old(decoders[current]).(active := false, position := 0)]
    {
      if !initialized {
        return NotInitialized;
      }
      if state == Stopped {
        return Success;
      }
      deviceCalls := deviceCalls + [DeviceStop, DeviceClose];
      decoders[current] := decoders[current].(active := false, position := 0);
      state := Stopped;
      r := Success;
    }

    /** shutdown: stop, close both slots, forget the output. */
    method Shutdown()
      requires Valid()
      modifies this, decoders
      ensures Valid()
      ensures decoders == old(decoders) && current == old(current) && next == old(next)
      ensures !initialized && !hasOutput && gapless == old(gapless)
      ensures decoders[..] == [Closed(old(decoders[0])), Closed(old(decoders[1]))]
      ensures old(initialized) && old(state) != Stopped ==> state == Stopped
      ensures !(old(initialized) && old(state) != Stopped) ==> state == old(state)
      ensures deviceCalls == old(deviceCalls) + (if old(initialized) && old(state) != Stopped then [DeviceStop, DeviceClose] else [])
      ensures streamCloses == old(streamCloses) + CloseCalls(old(decoders[0])) + CloseCalls(old(decoders[1]))
    {
      var _ := Stop();
      CloseDecoder(0);
      CloseDecoder(1);
      hasOutput := false;
      initialized := false;
    }

    /** seek: InvalidState without a stream; decoder failures propagate; success moves the cursor and clears eos. */
    method Seek(positionMs: u64, reply: SeekReply) returns (r: Result)
      requires Valid()
      modifies decoders
      ensures Valid()
      ensures !initialized ==> r == NotInitialized && unchanged(decoders)
      ensures initialized && old(decoders[current]).handle == NullHandle ==> r == InvalidState && unchanged(decoders)
      ensures initialized && old(decoders[current]).handle != NullHandle && reply.code != Success ==>
        r == reply.code && unchanged(decoders)
      ensures initialized && old(decoders[current]).handle != NullHandle && reply.code == Success ==>
        var slot := old(decoders[current]);
        && r == Success
        && decoders[..] == old(decoders[..])[current := slot.(position := SeekCursor(reply.actualMs, slot.info.sampleRate), eos := false)]
    {
      if !initialized {
        return NotInitialized;
      }
      var inst := decoders[current];
      if inst.handle == NullHandle {
        return InvalidState;
      }
      if reply.code != Success {
        return reply.code;
      }
      decoders[current] := inst.(position := SeekCursor(reply.actualMs, inst.info.sampleRate), eos := false);
      r := Success;
    }

    /** get_position: milliseconds played on the current slot; 0 while its sample rate is unknown. */
    function GetPosition(): (r: u64)
      requires Valid()
      reads this, decoders
      ensures decoders[current].info.sampleRate == 0 ==> r == 0
      ensures decoders[current].info.sampleRate > 0 && decoders[current].position * 1000 < U64 ==>
        r == decoders[current].position * 1000 / decoders[current].info.sampleRate
    {
      PositionMs(decoders[current])
    }

    /** get_duration: the current slot's duration as its stream info reports it. */
    function GetDuration(): (r: u64)
      requires Valid()
      reads this, decoders
      ensures r == decoders[current].info.durationMs
    {
      decoders[current].info.durationMs
    }

    /** switch_decoder: closes the current slot and promotes next to current. */
    method SwitchDecoder()
      requires Valid() && next >= 0
      modifies this, decoders
      ensures Valid() && decoders == old(decoders)
      ensures current == old(next) && next == -1
      ensures decoders[..] == old(decoders[..])[old(current) := Closed(old(decoders[current]))]
      ensures streamCloses == old(streamCloses) + CloseCalls(old(decoders[current]))
      ensures state == old(state) && initialized == old(initialized) && hasOutput == old(hasOutput)
      ensures gapless == old(gapless) && deviceCalls == old(deviceCalls)
    {
      CloseDecoder(current);
      current, next := next, -1;
    }

    /**
     * transition_to_next: InvalidState with no change when there is no next slot; otherwise the
     * current slot is closed, next becomes current and is active, and next is none.
     */
    method TransitionToNext() returns (r: Result)
      requires Valid()
      modifies this, decoders
      ensures Valid() && decoders == old(decoders)
      ensures state == old(state) && initialized == old(initialized) && hasOutput == old(hasOutput)
      ensures gapless == old(gapless) && deviceCalls == old(deviceCalls)
      ensures old(next) < 0 ==> r == InvalidState && unchanged(this) && unchanged(decoders)
      ensures old(next) >= 0 ==>
        && r == Success && current == old(next) && next == -1
        && decoders[old(current)] == Closed(old(decoders[current]))
        && decoders[current] == old(decoders[next]).(active := true)
        && streamCloses == old(streamCloses) + CloseCalls(old(decoders[current]))
    {
      if next < 0 {
        return InvalidState;
      }
      SwitchDecoder();
      decoders[current] := decoders[current].(active := true);
      r := Success;
    }

    /** decode_samples: decodes up to frames frames from slot idx into the buffer from offset off on. */
    method DecodeSamples(idx: nat, buffer: array<real>, off: nat, frames: nat, reply: DecodeReply) returns (n: nat)
      requires Valid() && idx < 2
      requires Fits(reply, frames, decoders[idx].info.channels)
      requires off + Samples(frames, decoders[idx].info.channels) <= buffer.Length
      modifies decoders, buffer
      ensures Valid()
      ensures var d := DecodeStep(old(decoders[idx]), old(buffer[..]), off, frames, reply);
        && n == d.frames
        && decoders[..] == old(decoders[..])[idx := d.slot]
        && buffer[..] == d.buffer
    {
      var inst := decoders[idx];
      if !inst.active || inst.eos || inst.handle == NullHandle {
        return 0;
      }
      WriteSamples(buffer, off, reply.samples);
      if reply.code != Success || reply.frames == 0 {
        decoders[idx] := inst.(eos := true);
        return 0;
      }
      var pos := Add64(inst.position, reply.frames);
      var effectiveEnd := Sub64(inst.track.totalSamples, inst.track.encoderPadding);
      decoders[idx] := inst.(position := pos, eos := pos >= effectiveEnd);
      n := reply.frames;
    }

    /**
     * fill_buffer: silence when not playing; otherwise prime the next slot near the end, decode
     * from the current slot, splice the shortfall from the next slot (switching slots when it
     * yielded) and pad with silence.
     */
    method FillBuffer(buffer: array<real>, frames: nat, curReply: DecodeReply, nextReply: DecodeReply)
      requires Valid()
      requires FillFits(decoders[..], current, next, buffer.Length, frames, curReply, nextReply)
      modifies this, decoders, buffer
      ensures Valid() && decoders == old(decoders)
      ensures state == old(state) && initialized == old(initialized) && hasOutput == old(hasOutput)
      ensures gapless == old(gapless) && deviceCalls == old(deviceCalls)
      ensures var f := FillBufferSpec(old(decoders[..]), old(current), old(next), old(state) == Playing, gapless, thresholdMs,
                                      old(buffer[..]), frames, curReply, nextReply);
        && decoders[..] == f.slots && current == f.current && next == f.next && buffer[..] == f.buffer
        && streamCloses == old(streamCloses) + f.closes
    {
      if state != Playing {
        WriteSamples(buffer, 0, Zeros(Samples(frames, decoders[current].info.channels)));
        return;
      }
      PrimeNext();
      assert FillFits(decoders[..], current, next, buffer.Length, frames, curReply, nextReply);
      FillPlayed(buffer, frames, curReply, nextReply);
    }

    /** fill_buffer after priming: decode from the current slot and fill the shortfall. */
    method FillPlayed(buffer: array<real>, frames: nat, curReply: DecodeReply, nextReply: DecodeReply)
      requires Valid()
      requires FillFits(decoders[..], current, next, buffer.Length, frames, curReply, nextReply)
      modifies this, decoders, buffer
      ensures Valid() && decoders == old(decoders)
      ensures state == old(state) && initialized == old(initialized) && hasOutput == old(hasOutput)
      ensures gapless == old(gapless) && deviceCalls == old(deviceCalls)
      ensures var f := Played(old(decoders[..]), old(current), old(next), gapless, old(buffer[..]), frames, curReply, nextReply);
        && decoders[..] == f.slots && current == f.current && next == f.next && buffer[..] == f.buffer
        && streamCloses == old(streamCloses) + f.closes
    {
      ghost var primed, buf0 := decoders[..], buffer[..];
      var decoded := DecodeSamples(current, buffer, 0, frames, curReply);
      ghost var c := DecodeStep(primed[current], buf0, 0, frames, curReply);
      assert decoded == c.frames == Yield(primed[current], curReply);
      if decoded < frames {
        FillShortfall(buffer, frames, decoded, nextReply);
      }
    }

    /** The priming step of fill_buffer: activate the next slot when gapless and the end approaches. */
    method PrimeNext()
      requires Valid()
      modifies decoders
      ensures Valid()
      ensures decoders[..] == Prime(old(decoders[..]), current, next, gapless, thresholdMs)
    {
      if gapless && IsApproachingEnd(decoders[current], thresholdMs) && next >= 0 {
        decoders[next] := decoders[next].(active := true);
      }
    }

    /** The shortfall branch of fill_buffer: splice from the next slot, switch if it yielded, pad with silence. */
    method FillShortfall(buffer: array<real>, frames: nat, decoded: nat, nextReply: DecodeReply)
      requires Valid() && ShortfallFits(decoders[..], current, next, buffer.Length, frames, decoded, nextReply)
      modifies this, decoders, buffer
      ensures Valid() && decoders == old(decoders)
      ensures state == old(state) && initialized == old(initialized) && hasOutput == old(hasOutput)
      ensures gapless == old(gapless) && deviceCalls == old(deviceCalls)
      ensures var f := Shortfall(old(decoders[..]), old(current), old(next), gapless, old(buffer[..]), frames, decoded, nextReply);
        && decoders[..] == f.slots && current == f.current && next == f.next && buffer[..] == f.buffer
        && f.fromCurrent == decoded
        && streamCloses == old(streamCloses) + f.closes
    {
      ghost var g := Spliced(decoders[..], current, next, gapless, buffer[..], frames, decoded, nextReply);
      var total := SpliceNext(buffer, frames, decoded, nextReply);
      PadSilence(buffer, frames, total, g);
    }

    /** The splice from the next slot: decode the missing frames from it and switch if it yielded any. */
    method SpliceNext(buffer: array<real>, frames: nat, decoded: nat, nextReply: DecodeReply) returns (total: nat)
      requires Valid() && ShortfallFits(decoders[..], current, next, buffer.Length, frames, decoded, nextReply)
      modifies this, decoders, buffer
      ensures Valid() && decoders == old(decoders)
      ensures state == old(state) && initialized == old(initialized) && hasOutput == old(hasOutput)
      ensures gapless == old(gapless) && deviceCalls == old(deviceCalls)
      ensures var g := Spliced(old(decoders[..]), old(current), old(next), gapless, old(buffer[..]), frames, decoded, nextReply);
        && decoders[..] == g.slots && current == g.current && next == g.next && buffer[..] == g.buffer
        && total == g.fromCurrent + g.fromNext
        && streamCloses == old(streamCloses) + g.closes
    {
      total := decoded;
      if gapless && next >= 0 && decoders[next].active {
        var remaining := frames - decoded;
        var off := Samples(decoded, decoders[current].info.channels);
        SpliceFits(decoded, frames, decoders[current].info.channels, decoders[next].info.channels, buffer.Length);
        var nextDecoded := DecodeSamples(next, buffer, off, remaining, nextReply);
        if nextDecoded > 0 {
          SwitchDecoder();
        }
        total := decoded + nextDecoded;
      }
    }

    /**
     * The final memset of fill_buffer: zeros for the frames still missing, at the current slot's
     * channel count; g is the fill so far, which this completes.
     */
    method PadSilence(buffer: array<real>, frames: nat, total: nat, ghost g: Fill)
      requires Valid() && g.slots == decoders[..] && g.current == current && g.buffer == buffer[..]
      requires g.fromCurrent + g.fromNext == total <= frames && g.silence == 0
      requires Samples(frames, decoders[current].info.channels) <= buffer.Length
      modifies buffer
      ensures buffer[..] == Pad(g, frames).buffer
    {
      if total < frames {
        var silenceFrames := frames - total;
        var ch := decoders[current].info.channels;
        PadFits(total, frames, ch);
        WriteSamples(buffer, Samples(total, ch), Zeros(Samples(silenceFrames, ch)));
      }
    }
  }
}
