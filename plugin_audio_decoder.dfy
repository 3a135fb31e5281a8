/**
 * The plugin-backed audio decoder front end (src/audio/plugin_audio_decoder.cpp): choosing a
 * decoder service for a file by its extension, naming the decoder, looking up metadata, and the
 * guards around opening, closing and decoding. The service registry is a parameter: a map from
 * decoder kind to the pointer service_query would hand back (0 for a null pointer); a kind
 * that is not a key is one whose query fails.
 */
module Decoding {
  import opened Wrappers

  // ---------------------------------------------------------------------------------
  // File name extension, as std::filesystem::path::extension on a POSIX path
  // ---------------------------------------------------------------------------------

  /** The position of the last c in s, if any. */
  function LastIndex(s: string, c: char): (r: Option<nat>)
    ensures r.None? <==> c !in s
    ensures r.Some? ==> r.value < |s| && s[r.value] == c
    ensures r.Some? ==> forall j :: r.value < j < |s| ==> s[j] != c
  {
    if s == [] then None
    else if s[|s| - 1] == c then Some(|s| - 1)
    else
      var r := LastIndex(s[..|s| - 1], c);
      assert s == s[..|s| - 1] + [s[|s| - 1]];
      r
  }

  /** The last component of a path: everything after the last '/'. */
  function FileName(p: string): string {
    match LastIndex(p, '/')
    case None => p
    case Some(i) => p[i + 1..]
  }

  /** The file name is the slash-free tail of the path; a path without '/' is its own file name. */
  lemma FileNameShape(p: string)
    ensures '/' !in FileName(p)
    ensures |FileName(p)| <= |p| && FileName(p) == p[|p| - |FileName(p)|..]
    ensures '/' !in p ==> FileName(p) == p
  {
    var r := LastIndex(p, '/');
    if r.Some? {
      var f := p[r.value + 1..];
      assert forall j :: 0 <= j < |f| ==> f[j] == p[r.value + 1 + j];
    }
  }

  /**
   * The extension of a path: from the last '.' of its file name to the end, dot included; empty
   * when the file name has no '.', has it only in front (a hidden file), or is "." or "..".
   */
  function Extension(p: string): string {
    var f := FileName(p);
    if f == "." || f == ".." then ""
    else
      match LastIndex(f, '.')
      case None => ""
      case Some(i) => if i == 0 then "" else f[i..]
  }

  /**
   * A non-empty extension is a dot followed by no other dot, at the end of the file name, and
   * shorter than it (the dot is never the file name's first character).
   */
  lemma ExtensionShape(p: string)
    ensures var e := Extension(p);
      e != "" ==> && e[0] == '.' && (forall j :: 0 < j < |e| ==> e[j] != '.')
                  && |e| < |FileName(p)| && e == FileName(p)[|FileName(p)| - |e|..]
  {
    var f := FileName(p);
    var r := LastIndex(f, '.');
    if Extension(p) != "" {
      var e := f[r.value..];
      assert forall j :: 0 < j < |e| ==> e[j] == f[r.value + j];
    }
  }

  /**
   * A path has an extension exactly when its file name has a '.' after its first character and
   * is not "..".
   */
  lemma ExtensionExists(p: string)
    ensures Extension(p) != "" <==>
      FileName(p) != ".." && exists i :: 0 < i < |FileName(p)| && FileName(p)[i] == '.'
  {
    var f := FileName(p);
    var last := LastIndex(f, '.');
    if Extension(p) != "" {
      assert last.Some? && last.value > 0;
    }
    if f != ".." && exists i :: 0 < i < |f| && f[i] == '.' {
      var i :| 0 < i < |f| && f[i] == '.';
      assert last.Some? && last.value >= i;
      assert f != ".";
    }
  }

  /** ASCII lower-casing, as ::tolower in the C locale. */
  function LowerChar(c: char): char {
    if 'A' <= c <= 'Z' then (c as int + 32) as char else c
  }

  function Lower(s: string): (r: string)
    ensures |r| == |s|
  {
    if s == [] then [] else [LowerChar(s[0])] + Lower(s[1..])
  }

  /** Lower-casing maps each character on its own. */
  lemma {:induction false} LowerPointwise(s: string)
    ensures forall i :: 0 <= i < |s| ==> Lower(s)[i] == LowerChar(s[i])
  {
    if s != [] {
      LowerPointwise(s[1..]);
      assert forall i :: 0 < i < |s| ==> Lower(s)[i] == Lower(s[1..])[i - 1];
    }
  }

  /** Lower-casing commutes with dropping a prefix. */
  lemma LowerSuffix(s: string, k: nat)
    requires k <= |s|
    ensures Lower(s)[k..] == Lower(s[k..])
  {
    var l := Lower(s);
    var t := Lower(s[k..]);
    LowerPointwise(s);
    LowerPointwise(s[k..]);
    forall i | 0 <= i < |s| - k
      ensures l[k..][i] == t[i]
    {
      assert l[k..][i] == l[k + i] == LowerChar(s[k + i]);
    }
  }

  // ---------------------------------------------------------------------------------
  // Choosing a decoder
  // ---------------------------------------------------------------------------------

  /** The decoder services the front end knows, by the GUIDs of input_decoders. */
  datatype DecoderKind = Wav | Flac | Mpg | Pcm

  /** The answers of service_query: a kind that is a key succeeds, with that pointer (0 is null). */
  type Registry = map<DecoderKind, nat>

  /** The extension as find_decoder_for_file compares it: without its dot, lower-cased. */
  function NormalExtension(p: string): string {
    var e := Extension(p);
    if e == "" then "" else Lower(e[1..])
  }

  /** The service that serves an extension before the pcm fallback, if any. */
  function Preferred(ext: string): Option<DecoderKind> {
    if ext == "wav" || ext == "wave" then Some(Wav)
    else if ext == "flac" then Some(Flac)
    else if ext == "mp3" || ext == "mpg" || ext == "mpeg" then Some(Mpg)
    else None
  }

  /** The services queried for an extension, in order: the specific one, if any, then pcm. */
  function QueryOrder(ext: string): (ks: seq<DecoderKind>)
    ensures |ks| > 0 && ks[|ks| - 1] == Pcm
  {
    match Preferred(ext)
    case Some(k) => [k, Pcm]
    case None => [Pcm]
  }

  /** The first service in order whose query succeeds. */
  function FirstAnswering(ks: seq<DecoderKind>, reg: Registry): (r: Option<nat>)
    ensures r.None? <==> forall i :: 0 <= i < |ks| ==> ks[i] !in reg
    ensures r.Some? ==> exists i :: (0 <= i < |ks| && ks[i] in reg && reg[ks[i]] == r.value
                                     && forall j :: 0 <= j < i ==> ks[j] !in reg)
  {
    if ks == [] then None
    else if ks[0] in reg then Some(reg[ks[0]])
    else
      var r := FirstAnswering(ks[1..], reg);
      if r.Some? then
        var i :| 0 <= i < |ks[1..]| && ks[1..][i] in reg && reg[ks[1..][i]] == r.value
          && forall j :: 0 <= j < i ==> ks[1..][j] !in reg;
        assert ks[i + 1] == ks[1..][i];
        r
      else r
  }

  /**
   * find_decoder_for_file: the null pointer (0) for a null path or a path without extension;
   * otherwise the pointer of the first service that answers, or null when none does.
   */
  function FindDecoder(path: Option<string>, reg: Registry): (r: nat)
    ensures path.None? ==> r == 0
    ensures path.Some? && Extension(path.value) == "" ==> r == 0
  {
    if path.None? || Extension(path.value) == "" then 0
    else
      match FirstAnswering(QueryOrder(NormalExtension(path.value)), reg)
      case None => 0
      case Some(ptr) => ptr
  }

  /**
   * The lookup order: the service for the extension wins when it answers; otherwise pcm does;
   * otherwise there is no decoder.
   */
  lemma FindDecoderOrder(p: string, reg: Registry)
    requires Extension(p) != ""
    ensures var pref := Preferred(NormalExtension(p));
      && (pref.Some? && pref.value in reg ==> FindDecoder(Some(p), reg) == reg[pref.value])
      && (pref.None? || pref.value !in reg ==>
            FindDecoder(Some(p), reg) == if Pcm in reg then reg[Pcm] else 0)
  {
    var ks := QueryOrder(NormalExtension(p));
    if |ks| == 2 {
      assert ks[1..] == [Pcm];
    }
  }

  /**
   * can_decode: whether find_decoder_for_file yields a valid pointer; never for a null path or a
   * path without extension, and only when some registered service hands back a real pointer.
   */
  function CanDecode(path: Option<string>, reg: Registry): (r: bool)
    ensures r ==> path.Some? && Extension(path.value) != ""
    ensures r ==> exists k :: k in reg && reg[k] != 0
  {
    path.Some? && FindDecoder(path, reg) != 0
  }

  /**
   * When every registered service hands back a real pointer and pcm is registered, every file
   * with an extension can be decoded, and no other.
   */
  lemma PcmFallback(path: Option<string>, reg: Registry)
    requires Pcm in reg
    requires forall k :: k in reg ==> reg[k] != 0
    ensures CanDecode(path, reg) <==> path.Some? && Extension(path.value) != ""
  {
    if path.Some? && Extension(path.value) != "" {
      var ks := QueryOrder(NormalExtension(path.value));
      var r := FirstAnswering(ks, reg);
      assert ks[|ks| - 1] in reg;
      assert r.Some?;
      var i :| 0 <= i < |ks| && ks[i] in reg && reg[ks[i]] == r.value;
      assert FindDecoder(path, reg) == r.value != 0;
    }
  }

  // ---------------------------------------------------------------------------------
  // Decoder names and metadata
  // ---------------------------------------------------------------------------------

  /**
   * get_decoder_name: "" without a decoder, "Unknown" without a path, a fixed name for the
   * lower-cased extensions .mp3, .flac, .wav, .ogg, .m4a and .aac, "Generic Decoder" otherwise.
   */
  function DecoderName(hasDecoder: bool, path: string): (r: string)
    ensures r == "" <==> !hasDecoder
  {
    if !hasDecoder then ""
    else if path == "" then "Unknown"
    else
      var e := Lower(Extension(path));
      if e == ".mp3" then "MP3 Decoder"
      else if e == ".flac" then "FLAC Decoder"
      else if e == ".wav" then "WAV Decoder"
      else if e == ".ogg" then "OGG Vorbis Decoder"
      else if e == ".m4a" || e == ".aac" then "AAC Decoder"
      else "Generic Decoder"
  }

  /**
   * The fixed names agree with the lookup: a file named for the MP3, FLAC or WAV decoder is one
   * whose extension sends find_decoder_for_file to that service first.
   */
  lemma NameMatchesLookup(path: string)
    ensures DecoderName(true, path) == "MP3 Decoder" ==> Preferred(NormalExtension(path)) == Some(Mpg)
    ensures DecoderName(true, path) == "FLAC Decoder" ==> Preferred(NormalExtension(path)) == Some(Flac)
    ensures DecoderName(true, path) == "WAV Decoder" ==> Preferred(NormalExtension(path)) == Some(Wav)
  {
    var e := Extension(path);
    if path != "" && e != "" {
      var l := Lower(e);
      LowerSuffix(e, 1);
      assert l[1..] == NormalExtension(path);
      if l == ".mp3" {
        assert l[1..] == "mp3";
      } else if l == ".flac" {
        assert l[1..] == "flac";
      } else if l == ".wav" {
        assert l[1..] == "wav";
      }
    }
  }

  datatype Metadata = Metadata(key: string, value: string)

  /** std::find_if over the metadata list: the value of the first entry with the key. */
  function FindValue(meta: seq<Metadata>, key: string): (r: Option<string>)
    ensures r.None? <==> forall i :: 0 <= i < |meta| ==> meta[i].key != key
    ensures r.Some? ==> exists i :: (0 <= i < |meta| && meta[i].key == key && meta[i].value == r.value
                                     && forall j :: 0 <= j < i ==> meta[j].key != key)
  {
    if meta == [] then None
    else if meta[0].key == key then Some(meta[0].value)
    else
      var r := FindValue(meta[1..], key);
      if r.Some? then
        var i :| 0 <= i < |meta[1..]| && meta[1..][i].key == key && meta[1..][i].value == r.value
          && forall j :: 0 <= j < i ==> meta[1..][j].key != key;
        assert meta[i + 1] == meta[1..][i];
        r
      else r
  }

  // ---------------------------------------------------------------------------------
  // The target sample rate and the resampler
  // ---------------------------------------------------------------------------------

  /** The fields set_target_sample_rate reads and writes. */
  datatype RateState = RateState(open: bool, sourceRate: nat, target: int, resampler: bool)

  /** What decode_frames needs of a resampler: an open file and a positive target to divide by. */
  predicate RateInv(s: RateState) {
    s.resampler ==> s.open && s.target > 0
  }

  /**
   * set_target_sample_rate as written: a new rate is stored; a resampler is created (kept when
   * its initialisation succeeds) only for an open file, a positive rate and a rate other than
   * the source's; otherwise any existing resampler is left in place.
   */
  function SetTargetRateAsWritten(s: RateState, rate: int, initOk: bool): RateState {
    if rate == s.target then s
    else if s.open && rate > 0 && rate != s.sourceRate then s.(target := rate, resampler := initOk)
    else s.(target := rate)
  }

  /** Setting the target rate to 0 while resampling leaves a resampler and a zero divisor. */
  lemma ZeroTargetKeepsResampler()
    ensures var s := RateState(true, 44100, 48000, true);
      RateInv(s) && !RateInv(SetTargetRateAsWritten(s, 0, true))
  {
  }

  /**
   * set_target_sample_rate as intended: as written, except that a rate needing no resampler
   * (not positive, equal to the source's, or no file open) drops the old one.
   */
  function SetTargetRate(s: RateState, rate: int, initOk: bool): (r: RateState)
    ensures r.open == s.open && r.sourceRate == s.sourceRate && r.target == rate
    ensures rate == s.target ==> r == s
    ensures rate != s.target ==> (r.resampler <==> s.open && rate > 0 && rate != s.sourceRate && initOk)
  {
    if rate == s.target then s
    else if s.open && rate > 0 && rate != s.sourceRate then s.(target := rate, resampler := initOk)
    else s.(target := rate, resampler := false)
  }

  /** The intended set_target_sample_rate keeps a resampler only while its target is positive. */
  lemma SetTargetRateKeepsInv(s: RateState, rate: int, initOk: bool)
    requires RateInv(s)
    ensures RateInv(SetTargetRate(s, rate, initOk))
  {
  }

  // ---------------------------------------------------------------------------------
  // The decoder object
  // ---------------------------------------------------------------------------------

  /** The audio format of the open file; duration_seconds is a double and is not modelled. */
  datatype AudioInfo = AudioInfo(sampleRate: nat, channels: nat, bitsPerSample: nat, totalSamples: nat, formatName: string)

  const NoInfo := AudioInfo(0, 0, 0, 0, "")

  /** What an opened decoder reports through its getters. */
  datatype StreamProps = StreamProps(sampleRate: nat, channels: nat, bitsPerSample: nat, length: nat)

  class PluginAudioDecoder {
    /** The decoder service pointer held by current_decoder_; 0 when it is empty. */
    var decoder: nat
    var path: string
    var info: AudioInfo
    var metadata: seq<Metadata>
    var resampler: bool
    /** The length of conversion_buffer_. */
    var conversionSize: nat
    var targetRate: int
    /** The decoder pointers released through current_decoder_, in order. */
    ghost var released: seq<nat>

    ghost predicate Closed()
      reads this
    {
      decoder == 0 && path == "" && info == NoInfo && metadata == [] && !resampler && conversionSize == 0
    }

    ghost function Rates(): RateState
      reads this
    {
      RateState(decoder != 0, info.sampleRate, targetRate, resampler)
    }

    /** Without a decoder everything is cleared; a resampler needs a positive target. */
    ghost predicate Valid()
      reads this
    {
      (decoder == 0 ==> Closed()) && RateInv(Rates())
    }

    constructor (targetRate: int)
      ensures Valid() && Closed() && this.targetRate == targetRate && released == []
    {
      decoder, path, info, metadata, resampler, conversionSize := 0, "", NoInfo, [], false, 0;
      this.targetRate := targetRate;
      released := [];
    }

    /** close_file: release the decoder if there is one and clear every per-file field. */
    method CloseFile()
      modifies this
      ensures Closed() && Valid()
      ensures targetRate == old(targetRate)
      ensures released == old(released) + if old(decoder) != 0 then [old(decoder)] else []
    {
      if decoder != 0 {
        released := released + [decoder];
        decoder := 0;
      }
      path := "";
      info := NoInfo;
      metadata := [];
      resampler := false;
      conversionSize := 0;
    }

    /**
     * open_file: false for a null path, with nothing changed; otherwise close the current file,
     * pick a decoder, and open it (openCode is what the decoder's open returns; props what its
     * getters report; resamplerOk whether a new resampler initialises).
     */
    method OpenFile(p: Option<string>, reg: Registry, openCode: int, props: StreamProps, resamplerOk: bool) returns (ok: bool)
      requires Valid()
      modifies this
      ensures Valid()
      ensures targetRate == old(targetRate)
      ensures p.None? ==> !ok && unchanged(this)
      ensures p.Some? ==> (ok <==> FindDecoder(p, reg) != 0 && openCode == 0)
      ensures p.Some? && !ok ==> Closed()
      ensures p.Some? && !ok ==>
        released == old(released) + (if old(decoder) != 0 then [old(decoder)] else [])
                    + (if FindDecoder(p, reg) != 0 then [FindDecoder(p, reg)] else [])
      ensures ok ==>
        && decoder == FindDecoder(p, reg) && path == p.value && metadata == [] && conversionSize == 0
        && info == AudioInfo(props.sampleRate, props.channels, props.bitsPerSample, props.length, DecoderName(true, p.value))
        && (resampler <==> targetRate > 0 && targetRate != props.sampleRate && resamplerOk)
        && released == old(released) + if old(decoder) != 0 then [old(decoder)] else []
    {
      if p.None? {
        return false;
      }
      CloseFile();
      var found := FindDecoder(p, reg);
      if found == 0 {
        return false;
      }
      ok := Attach(found, p.value, openCode, props, DecoderName(true, p.value), resamplerOk);
    }

    /**
     * The rest of open_file, once a decoder has been found for a closed object: open it, and on
     * success take the path, the format and the decoder's name, and set up a resampler when the
     * target rate differs from the file's; on failure release the decoder again.
     */
    method Attach(found: nat, p: string, openCode: int, props: StreamProps, name: string, resamplerOk: bool)
      returns (ok: bool)
      requires Valid() && Closed() && found != 0
      modifies this
      ensures Valid()
      ensures targetRate == old(targetRate)
      ensures ok <==> openCode == 0
      ensures !ok ==> Closed() && released == old(released) + [found]
      ensures ok ==>
        && decoder == found && path == p && metadata == [] && conversionSize == 0
        && info == AudioInfo(props.sampleRate, props.channels, props.bitsPerSample, props.length, name)
        && (resampler <==> targetRate > 0 && targetRate != props.sampleRate && resamplerOk)
        && released == old(released)
    {
      decoder := found;
      if openCode != 0 {
        released := released + [decoder];
        decoder := 0;
        return false;
      }
      path := p;
      info := AudioInfo(props.sampleRate, props.channels, props.bitsPerSample, props.length, name);
      if targetRate > 0 && targetRate != info.sampleRate {
        resampler := resamplerOk;
      }
      ok := true;
    }

    /**
     * decode_frames: 0 with nothing done when no decoder is open, the output is null or
     * maxFrames is not positive. Otherwise the decoder's answer (decodeReply), or, through the
     * resampler, the converter's answer (convertReply) when the decoder produced input.
     * zeroRate records that the resampler branch divides by the file's sample rate, 0 here
     * (the ratio computed first), which C++ leaves undefined.
     */
    method DecodeFrames(outputNull: bool, maxFrames: int, decodeReply: int, convertReply: int)
      returns (n: int, ghost zeroRate: bool)
      requires Valid()
      modifies `conversionSize
      ensures zeroRate <==> decoder != 0 && !outputNull && maxFrames > 0 && resampler && info.sampleRate == 0
      ensures decoder == 0 || outputNull || maxFrames <= 0 ==> n == 0 && conversionSize == old(conversionSize)
      ensures decoder != 0 && !outputNull && maxFrames > 0 && !resampler ==>
        n == decodeReply && conversionSize == old(conversionSize)
      ensures decoder != 0 && !outputNull && maxFrames > 0 && resampler ==>
        && conversionSize == (maxFrames * info.sampleRate / targetRate + 1) * info.channels
        && n == if decodeReply > 0 then convertReply else 0
    {
      if decoder == 0 || outputNull || maxFrames <= 0 {
        return 0, false;
      }
      n, zeroRate := 0, false;
      if resampler {
        zeroRate := info.sampleRate == 0;
        var needed := maxFrames * info.sampleRate / targetRate + 1;
        conversionSize := needed * info.channels;
        var inputFrames := decodeReply;
        if inputFrames > 0 {
          n := convertReply;
        }
      } else {
        n := decodeReply;
      }
    }

    /** seek: false without a decoder; otherwise the decoder is asked to seek and the answer is true. */
    method Seek(position: int) returns (ok: bool)
      ensures ok <==> decoder != 0
    {
      ok := decoder != 0;
    }

    /** set_target_sample_rate, with the resampler dropped when the new rate needs none. */
    method SetTargetSampleRate(rate: int, resamplerOk: bool)
      requires Valid()
      modifies this
      ensures Valid()
      ensures Rates() == SetTargetRate(old(Rates()), rate, resamplerOk)
      ensures decoder == old(decoder) && path == old(path) && info == old(info) && metadata == old(metadata)
        && conversionSize == old(conversionSize) && released == old(released)
    {
      SetTargetRateKeepsInv(Rates(), rate, resamplerOk);
      if rate != targetRate {
        targetRate := rate;
        if decoder != 0 && rate > 0 && rate != info.sampleRate {
          resampler := resamplerOk;
        } else {
          resampler := false;
        }
      }
    }

    /** get_decoder_name, on the current state. */
    function GetDecoderName(): (r: string)
      reads this
      ensures r == "" <==> decoder == 0
      ensures decoder != 0 && path == "" ==> r == "Unknown"
    {
      DecoderName(decoder != 0, path)
    }

    /** get_metadata: "" for a null or absent key, else the value of the first matching entry. */
    function GetMetadata(key: Option<string>): (r: string)
      reads this
      ensures key.None? ==> r == ""
      ensures key.Some? && (forall i :: 0 <= i < |metadata| ==> metadata[i].key != key.value) ==> r == ""
      ensures key.Some? && (exists i :: 0 <= i < |metadata| && metadata[i].key == key.value) ==>
        exists i :: 0 <= i < |metadata| && metadata[i].key == key.value && r == metadata[i].value
          && forall j :: 0 <= j < i ==> metadata[j].key != key.value
    {
      if key.None? then ""
      else match FindValue(metadata, key.value)
        case None => ""
        case Some(v) => v
    }
  }
}
