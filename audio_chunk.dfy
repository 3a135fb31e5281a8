/**
 * The audio_chunk buffer of the compatibility SDK (compat/foobar_sdk/foobar2000_sdk.h), with the
 * no-op abort callback and the file_info defaults declared beside it. The sample buffer's
 * contents are not modelled: data is an array whose identity and length stand for the
 * allocation behind data_, and capacity for data_capacity_.
 */
module Chunks {
  import opened Ints
  import opened Wrappers

  /** The buffer capacity after a request for total samples: grown to it only when it is larger. */
  function GrowTo(capacity: nat, total: nat): (r: nat)
    ensures r >= capacity && r >= total
    ensures r == capacity || r == total
  {
    if total > capacity then total else capacity
  }

  /** The capacity after a series of set_data_size requests, the i-th asking for totals[i] samples. */
  function CapacityAfter(capacity: nat, totals: seq<nat>): nat {
    if totals == [] then capacity else GrowTo(CapacityAfter(capacity, totals[..|totals| - 1]), totals[|totals| - 1])
  }

  /**
   * The capacity is a high-water mark: after any series of requests it is the largest of the
   * starting capacity and every request, so it never shrinks and covers each request made.
   */
  lemma {:induction false} CapacityIsHighWater(capacity: nat, totals: seq<nat>)
    ensures CapacityAfter(capacity, totals) >= capacity
    ensures forall i :: 0 <= i < |totals| ==> CapacityAfter(capacity, totals) >= totals[i]
    ensures CapacityAfter(capacity, totals) == capacity
      || exists i :: 0 <= i < |totals| && CapacityAfter(capacity, totals) == totals[i]
  {
    if totals != [] {
      var init := totals[..|totals| - 1];
      CapacityIsHighWater(capacity, init);
      var c := CapacityAfter(capacity, init);
      assert forall i :: 0 <= i < |init| ==> totals[i] == init[i];
      if c != capacity && CapacityAfter(capacity, totals) == c {
        var i :| 0 <= i < |init| && c == init[i];
        assert totals[i] == c;
      }
    }
  }

  /**
   * After set_data_size(n) on a chunk of ch channels the buffer holds n * ch samples whenever
   * that product fits in a size_t; when it does not, the wrapped total is what is compared, and
   * a huge request can leave an empty buffer.
   */
  lemma DataSizeCovers(capacity: nat, n: u64, ch: u32)
    ensures n * ch < U64 ==> GrowTo(capacity, Mul64(n, ch)) >= n * ch
    ensures GrowTo(0, Mul64(0x8000_0000_0000_0000, 2)) == 0
  {
  }

  class AudioChunk {
    var sampleRate: u32
    var channels: u32
    var channelConfig: u32
    var sampleCount: u64
    /** data_: null until the first allocation. */
    var data: array?<real>
    var capacity: u64

    /** The allocation and its recorded capacity agree. */
    ghost predicate Valid()
      reads this
    {
      if data == null then capacity == 0 else data.Length == capacity
    }

    /** A fresh chunk: every field 0 and no data. */
    constructor ()
      ensures Valid()
      ensures sampleRate == 0 && channels == 0 && channelConfig == 0 && sampleCount == 0
      ensures data == null && capacity == 0
    {
      sampleRate, channels, channelConfig, sampleCount, data, capacity := 0, 0, 0, 0, null, 0;
    }

    function GetSampleRate(): (r: u32)
      reads this
    {
      sampleRate
    }

    method SetSampleRate(rate: u32)
      modifies `sampleRate
      ensures GetSampleRate() == rate
    {
      sampleRate := rate;
    }

    function GetChannels(): (r: u32)
      reads this
    {
      channels
    }

    method SetChannels(ch: u32)
      modifies `channels
      ensures GetChannels() == ch
    {
      channels := ch;
    }

    function GetChannelConfig(): (r: u32)
      reads this
    {
      channelConfig
    }

    method SetChannelConfig(config: u32)
      modifies `channelConfig
      ensures GetChannelConfig() == config
    {
      channelConfig := config;
    }

    function GetSampleCount(): (r: u64)
      reads this
    {
      sampleCount
    }

    method SetSampleCount(count: u64)
      modifies `sampleCount
      ensures GetSampleCount() == count
    {
      sampleCount := count;
    }

    /**
     * set_data_size: the per-channel count is stored, and the buffer is replaced by a fresh one
     * of the new total (a size_t product, so it wraps) only when that total exceeds the
     * capacity.
     */
    method SetDataSize(samplesPerChannel: u64)
      requires Valid()
      modifies this
      ensures Valid()
      ensures sampleCount == samplesPerChannel
      ensures capacity == GrowTo(old(capacity), Mul64(samplesPerChannel, old(channels)))
      ensures capacity > old(capacity) ==> fresh(data)
      ensures capacity == old(capacity) ==> data == old(data)
      ensures sampleRate == old(sampleRate) && channels == old(channels) && channelConfig == old(channelConfig)
    {
      sampleCount := samplesPerChannel;
      var total := Mul64(samplesPerChannel, channels);
      if total > capacity {
        data := new real[total];
        capacity := total;
      }
    }

    /** reset: the sample count returns to 0; the buffer and every other field stay. */
    method Reset()
      modifies `sampleCount
      ensures sampleCount == 0
    {
      sampleCount := 0;
    }
  }

  /** abort_callback_dummy: never aborting, and sleeping does nothing. */
  class AbortCallbackDummy {
    constructor ()
    {
    }

    function IsAborting(): (r: bool)
      ensures !r
    {
      false
    }

    method Sleep(seconds: real)
    {
    }
  }

  datatype Tag = Tag(name: string, value: string)

  /** file_info: codec and tags stand for char and tag pointers, None for null. */
  datatype FileInfo = FileInfo(
    length: real,
    sampleRate: u32,
    channels: u32,
    bitrate: u32,
    codec: Option<string>,
    tags: Option<seq<Tag>>,
    tagCount: nat)

  /** The default file_info: zero length, rate, channels, bitrate and tag count, null pointers. */
  function NewFileInfo(): (f: FileInfo)
    ensures f.length == 0.0 && f.sampleRate == 0 && f.channels == 0 && f.bitrate == 0
    ensures f.codec.None? && f.tags.None? && f.tagCount == 0
  {
    FileInfo(0.0, 0, 0, 0, None, None, 0)
  }
}
