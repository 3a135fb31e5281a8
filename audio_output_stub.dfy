/**
 * The stub audio output (src/audio/audio_output_stub.cpp): an always-available device that
 * accepts any format, discards what is written and reports fixed latency and buffer figures.
 */
module OutputStub {
  import opened Ints

  /** AudioFormat; the default is 44100 Hz, 2 channels, 16 bits. */
  datatype AudioFormat = AudioFormat(sampleRate: u32, channels: u16, bitsPerSample: u16)

  const DefaultFormat := AudioFormat(44100, 2, 16)

  /** The latency in milliseconds an open stub reports. */
  const OpenLatency := 100
  /** The buffer size a stub reports before it is first opened. */
  const InitialBufferSize := 1024

  datatype StubState = StubState(format: AudioFormat, isOpen: bool, latency: int, bufferSize: int)

  datatype StubCall = Open(format: AudioFormat) | Close | Write(frames: int)

  /** The state of a fresh stub. */
  const Fresh := StubState(DefaultFormat, false, 0, InitialBufferSize)

  /** The effect of one call: open stores the format and sets 100 ms figures; close only clears isOpen. */
  function Step(s: StubState, c: StubCall): (t: StubState)
    ensures c.Open? ==> (t.isOpen && t.format == c.format && t.latency == OpenLatency
                         && t.bufferSize * 10 <= c.format.sampleRate < (t.bufferSize + 1) * 10)
    ensures c.Close? ==> t == s.(isOpen := false)
    ensures c.Write? ==> t == s
  {
    match c
    case Open(f) => StubState(f, true, OpenLatency, f.sampleRate as int / 10)
    case Close => s.(isOpen := false)
    case Write(_) => s
  }

  /** The state after a series of calls on a fresh stub. */
  function Run(calls: seq<StubCall>): StubState {
    if calls == [] then Fresh else Step(Run(calls[..|calls| - 1]), calls[|calls| - 1])
  }

  /**
   * is_ready after any series of calls holds exactly when some open came after the last close;
   * the latency is 0 until the first open and 100 from then on.
   */
  lemma {:induction false} ReadyIffOpenedSinceClose(calls: seq<StubCall>)
    ensures Run(calls).isOpen <==>
      exists i :: 0 <= i < |calls| && calls[i].Open? && forall j :: i < j < |calls| ==> !calls[j].Close?
    ensures Run(calls).latency == if exists i :: 0 <= i < |calls| && calls[i].Open? then OpenLatency else 0
  {
    if calls != [] {
      var init := calls[..|calls| - 1];
      var last := calls[|calls| - 1];
      ReadyIffOpenedSinceClose(init);
      assert forall i :: 0 <= i < |init| ==> calls[i] == init[i];
      if Run(init).isOpen && !last.Close? {
        var i :| 0 <= i < |init| && init[i].Open? && forall j :: i < j < |init| ==> !init[j].Close?;
        assert calls[i].Open? && forall j :: i < j < |calls| ==> !calls[j].Close?;
      }
      if last.Open? {
        assert calls[|calls| - 1].Open?;
      }
      if (exists i :: 0 <= i < |calls| && calls[i].Open? && forall j :: i < j < |calls| ==> !calls[j].Close?)
        && !last.Open? {
        var i :| 0 <= i < |calls| && calls[i].Open? && forall j :: i < j < |calls| ==> !calls[j].Close?;
        assert i < |init| && init[i].Open?;
      }
      if exists i :: 0 <= i < |calls| && calls[i].Open? {
        var i :| 0 <= i < |calls| && calls[i].Open?;
        if i < |init| {
          assert init[i].Open?;
        }
      }
    }
  }

  class AudioOutputStub {
    var format: AudioFormat
    var isOpen: bool
    var latency: int
    var bufferSize: int

    function State(): StubState
      reads this
    {
      StubState(format, isOpen, latency, bufferSize)
    }

    /** A fresh stub: not ready, latency 0, buffer size 1024, the default format. */
    constructor ()
      ensures State() == Fresh
    {
      format, isOpen, latency, bufferSize := DefaultFormat, false, 0, InitialBufferSize;
    }

    /** open: always succeeds, storing the format and the 100 ms latency and buffer size. */
    method Open(f: AudioFormat) returns (ok: bool)
      modifies this
      ensures ok
      ensures State() == Step(old(State()), StubCall.Open(f))
    {
      format := f;
      isOpen := true;
      latency := OpenLatency;
      bufferSize := f.sampleRate as int / 10;
      ok := true;
    }

    /** close: the stub is no longer ready; nothing else changes. */
    method Close()
      modifies this
      ensures State() == Step(old(State()), StubCall.Close)
    {
      isOpen := false;
    }

    /** The destructor closes the stub. */
    method Dispose()
      modifies this
      ensures State() == Step(old(State()), StubCall.Close)
    {
      Close();
    }

    /** write: all frames are taken (and discarded) when open, none when closed; no state changes. */
    method Write(frames: int) returns (n: int)
      ensures n == if isOpen then frames else 0
    {
      if !isOpen {
        return 0;
      }
      return frames;
    }

    function GetLatency(): (r: int)
      reads this
    {
      latency
    }

    function GetBufferSize(): (r: int)
      reads this
    {
      bufferSize
    }

    predicate IsReady()
      reads this
    {
      isOpen
    }
  }
}
