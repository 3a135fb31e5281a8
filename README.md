# Gapless playback engine and plugin host, modelled in Dafny

This project models the playback core of a cross-platform audio player (Qoder_foobar):

- **`Playback`** (`playback_engine.dfy`) — the gapless `PlaybackEngine`:
  - two decoder slots in a fixed array, a `current` and a `next` index, and the Stopped/Playing/Paused state machine;
  - the real-time `fill_buffer` routine, which splices the tail of the current track and the head of the next one into one output buffer.
  - `fill_buffer` is specified by a function, `FillBufferSpec`, of the slots, the indices, the buffer and the decoders' replies. The method is proved to compute exactly that function, and the lemmas beside it prove the frame accounting, the slot switch, the priming rule and the buffer layout.
- **`Plugins`** (`plugin_host.dfy`) — the `PluginHost` registry:
  - an ordered list of loaded modules and a dictionary from uuid to list position, kept by the invariant `Inv` (unique uuids, `uuidMap == Index(loaded)`);
  - each operation is specified by a step function on the registry state (`LoadStep`, `UnloadStep`, `ShutdownStep`, `LoadAll`).
  - A ghost log records every `dlopen`, `dlclose`, `destroy_plugin` and `shutdown` call, so "the library is released exactly once" is stated over the log.
- **`Decoding`** (`plugin_audio_decoder.dfy`) — `PluginAudioDecoder`:
  - the extension-based choice of a decoder service, the decoder names and the metadata lookup;
  - the guards of `open_file`, `close_file`, `decode_frames` and `set_target_sample_rate`.
- **`Services`** (`service_ptr.dfy`) — GUID equality and the reference-counting service pointers of the compatibility SDK. A service's reference count is a ghost field.
- **`Chunks`** (`audio_chunk.dfy`) — `audio_chunk`'s grow-only sample buffer, `abort_callback_dummy` and the `file_info` defaults.
- **`Locations`** (`location.dfy`) — the path value types `location_t` and `playable_location`.
- **`OutputStub`** (`audio_output_stub.dfy`) — the stub audio device.
- **`Codes`, `Ints`, `Wrappers`** (`common.dfy`) — the shared status codes, fixed-width unsigned integers with explicit 64-bit wrap-around, and `Option`.

The collaborators are never called; their answers are parameters. Each call into the decoder, the audio device, the dynamic loader, the directory listing or the service registry is represented by the reply it gives: a status code and the value written through its out-pointer. For example, `OpenReply(code, handle)` stands for `open_stream`, `DecodeReply(code, frames, samples)` for `decode_block`, and `Library(...)` for `dlopen`, `dlsym` and `create_plugin` on one file. The engine's device calls and `close_stream` calls are recorded in ghost logs.

Notable behaviour of the code, which the model keeps:
- `get_duration` returns the stream's `duration_ms` even when the sample rate is 0; it has no zero-rate guard.
- `seek` treats the decoder's reported position as milliseconds (`actual * sample_rate / 1000`), not as a sample position.
- The early rejections in `load_plugin` (a missing `create_plugin`, or a null instance) only `dlclose`; `destroy_plugin` is looked up only for the version and uuid rejections.
- `load_track` zeroes encoder delay and padding, while `prepare_next_track` leaves the slot's earlier values in place.

## Model

| member | source | states |
|---|---|---|
| `Playback.WriteSamples` | core/playback_engine.cpp:313-348 | writing samples from an offset changes exactly that window of the buffer and keeps the rest |
| `Playback.SamplesIsProduct` | core/playback_engine.cpp:313 | the interleaved sample count of a frame count is frames × channels |
| `Playback.OpenTrack` | core/playback_engine.cpp:63-92 | opening succeeds iff both open_stream and get_stream_info succeed, otherwise the first failure is returned as-is; a failed stream-info read leaves a null handle; on success the handle and stream info are stored, total samples are copied, position is 0, and the slot is inactive and not at end of stream |
| `Playback.DecodeStep` | core/playback_engine.cpp:353-381 | an inactive, ended or handle-less slot yields 0 and nothing changes; an error or 0 samples sets eos and yields 0; otherwise the position advances by the frames (64-bit wrap), eos holds iff position ≥ total − padding, and only position and eos change |
| `Playback.ApproachingEndIff` | core/playback_engine.cpp:392-403 | without wrap-around, the prebuffer trigger fires iff the remaining samples × 1000 < threshold × sample rate; `IsApproachingEnd` is false when the rate or the total is 0 |
| `Playback.SeekThenPosition` | core/playback_engine.cpp:253-267 | seek then get_position reads back the sought millisecond or one less (rates ≥ 1000 Hz, no wrap) |
| `Playback.Prime` | core/playback_engine.cpp:317-321 | without a next slot nothing changes; otherwise only the next slot's active flag may change, and it is set afterwards iff it was set before or gapless is on and the current track approaches its end |
| `Playback.FillExtent` | core/playback_engine.cpp:311-349 | the furthest buffer position fill_buffer touches: exactly frames × the current slot's channels when not playing; at least that while playing when the current slot gets past decode_samples' guard, or when it falls short with no next slot; a slot that fails the guard (353-358) contributes nothing |
| `Playback.SwitchOverrunsDeviceBuffer` | core/playback_engine.cpp:163-173 | as written: when play() opened the device at c channels and a gapless switch hands the rest of the buffer to a track with more than c channels, fill_buffer reaches past the frames × c samples of the device buffer |
| `Playback.ReloadOverrunsDeviceBuffer` | core/playback_engine.cpp:55-100 | as written: after load_track the device stays open at c channels; a current track with more than c channels makes fill_buffer reach past frames × c samples when it is not playing, when the track is decoded (resumed from Paused), or when there is no next slot and the silence is cleared at the new count |
| `Playback.FillStaysInBuffer` | core/playback_engine.cpp:308-351 | when the buffer holds frames frames of either slot's channel count, every region fill_buffer touches lies inside it |
| `Playback.FillWhenNotPlaying` | core/playback_engine.cpp:311-315 | when not playing, exactly frames × channels samples are zeroed and nothing else changes |
| `Playback.FillAccounting` | core/playback_engine.cpp:324-349 | frames from current + frames from next + silence frames = frames requested; the current slot contributes what its decoder yielded |
| `Playback.FillSwitch` | core/playback_engine.cpp:326-342 | the slot switch happens iff the next slot yielded samples; then the old current slot is closed, current := old next, next := −1, the new current is active and one close_stream is made; otherwise indices stay and nothing is closed |
| `Playback.FillPriming` | core/playback_engine.cpp:317-328 | next-slot samples require gapless and a slot that was active or primed; without a switch, the next slot is active afterwards iff it was already active or gapless is on and the end approaches |
| `Playback.FillLayout` | core/playback_engine.cpp:324-349 | with equal channel counts and exact decoders, the first frames × channels samples are the current track's samples, then the next track's at offset decoded × channels, then zeros, and the rest of the buffer is untouched |
| `Playback.PadLayout` | core/playback_engine.cpp:344-349 | the silence fill keeps the decoded prefix, zeroes the missing frames and touches nothing beyond |
| `Playback.PlaybackEngine.constructor` | core/playback_engine.cpp:10-18 | two empty slots, current 0, next −1, Stopped, gapless on, not initialized |
| `Playback.PlaybackEngine.Initialize` | core/playback_engine.cpp:24-41 | AlreadyInitialized when repeated, InvalidParameter without an output (no change in either case); otherwise current 0, next −1, initialized |
| `Playback.PlaybackEngine.CloseDecoder` | core/playback_engine.cpp:405-418 | the slot is emptied (no decoder, null handle, inactive, no eos, position 0, zeroed stream info); close_stream is called iff it had a handle and a decoder |
| `Playback.PlaybackEngine.LoadTrack` | core/playback_engine.cpp:55-100 | NotInitialized with no change; otherwise the current slot is closed and the track opened into it (OpenTrack), and the other slot and the indices are unchanged |
| `Playback.PlaybackEngine.PrepareNextTrack` | core/playback_engine.cpp:102-144 | always targets slot 1 − current; next becomes that slot only on success, so a failed prepare leaves next unchanged although the slot was closed |
| `Playback.PlaybackEngine.Play` | core/playback_engine.cpp:146-191 | Success with no change when playing; InvalidState without a handle; the device is opened only from Stopped, and an open failure leaves the state unchanged; a start failure gives Stopped with the slot inactive; otherwise Playing with the slot active |
| `Playback.PlaybackEngine.StartCurrent` | core/playback_engine.cpp:179-187 | the device is started; the result is its answer, and the state and slot activity follow from it |
| `Playback.PlaybackEngine.Pause` | core/playback_engine.cpp:193-209 | only from Playing: stop the device (without closing it) and move to Paused; otherwise Success with no change |
| `Playback.PlaybackEngine.Stop` | core/playback_engine.cpp:211-232 | a no-op from Stopped; otherwise the device is stopped and closed, the current slot is deactivated and rewound to 0, and the state is Stopped |
| `Playback.PlaybackEngine.Shutdown` | core/playback_engine.cpp:43-53 | stop (device stop and close, and Stopped, only when initialized and not already stopped; otherwise the state is kept), then both slots are closed with their close_stream calls, and the output is forgotten; gapless is kept |
| `Playback.PlaybackEngine.Seek` | core/playback_engine.cpp:234-257 | InvalidState without a handle; a decoder failure is propagated with no change; on success position = actual × rate / 1000 and eos is cleared |
| `Playback.PlaybackEngine.GetPosition` | core/playback_engine.cpp:259-268 | 0 when the sample rate is 0, else position × 1000 / rate |
| `Playback.PlaybackEngine.GetDuration` | core/playback_engine.cpp:270-273 | the current slot's reported duration |
| `Playback.PlaybackEngine.SwitchDecoder` | core/playback_engine.cpp:383-390 | the current slot is closed, current := next, next := −1 |
| `Playback.PlaybackEngine.TransitionToNext` | core/playback_engine.cpp:275-294 | InvalidState with no change when next < 0; otherwise the old slot is fully reset, current := old next, next := −1, and the new current slot is active |
| `Playback.PlaybackEngine.DecodeSamples` | core/playback_engine.cpp:353-381 | the slot and buffer change exactly as DecodeStep says |
| `Playback.PlaybackEngine.FillBuffer` | core/playback_engine.cpp:308-351 | the slots, indices, buffer and close_stream calls afterwards are those of FillBufferSpec; the index invariant is kept |
| `Playback.PlaybackEngine.FillPlayed` | core/playback_engine.cpp:323-350 | decode from the current slot, then the shortfall branch, as Played says |
| `Playback.PlaybackEngine.PrimeNext` | core/playback_engine.cpp:317-321 | the slots become Prime of the old slots |
| `Playback.PlaybackEngine.FillShortfall` | core/playback_engine.cpp:326-349 | the splice from the next slot, then silence, as Shortfall says |
| `Playback.PlaybackEngine.SpliceNext` | core/playback_engine.cpp:328-342 | next-slot samples are written at offset decoded × channels, and the switch is made iff it yielded |
| `Playback.PlaybackEngine.PadSilence` | core/playback_engine.cpp:344-349 | the missing frames are zeroed at the post-switch current slot's channel count |
| `Plugins.Compatible` | core/plugin_host.cpp:80-82 | a plugin is compatible iff min.major < host.major, or the majors are equal and min.minor ≤ host.minor |
| `Plugins.CompatibleIsOrder` | core/plugin_host.cpp:80-82 | compatibility is a total preorder on (major, minor) |
| `Plugins.CompatibleIgnoresPatch` | core/plugin_host.cpp:80-82 | the patch number never affects compatibility |
| `Plugins.IndexKeys` | core/plugin_host.cpp:161-165 | the rebuilt dictionary's keys are exactly the loaded uuids, and each key maps to a position holding it |
| `Plugins.IndexExact` | core/plugin_host.cpp:161-165 | with unique uuids, the rebuilt dictionary maps each module's uuid to its position |
| `Plugins.InvIndex` | core/plugin_host.cpp:112-126 | the invariant means uuidMap[loaded[i].uuid] = i for all i, with no other keys |
| `Plugins.LoadOutcome` | core/plugin_host.cpp:50-133 | Success iff every step succeeds and every check passes; NotSupported iff the version is incompatible; AlreadyInitialized iff the uuid is present; Error otherwise; on failure the list and map are unchanged; on success the module is appended and mapped to the old length |
| `Plugins.LoadReleases` | core/plugin_host.cpp:51-108 | a failed dlopen makes no call; otherwise the library is opened once, and it is closed exactly once, as the last call, iff the load is rejected; destroy_plugin comes before dlclose |
| `Plugins.LoadKeepsInv` | core/plugin_host.cpp:111-126 | load_plugin keeps the registry invariant |
| `Plugins.AppendKeepsInv` | core/plugin_host.cpp:112-126 | appending a module with a new uuid and a live handle keeps the invariant |
| `Plugins.Without` | core/plugin_host.cpp:158 | erasing position k keeps the other modules in their order |
| `Plugins.WithoutUnique` | core/plugin_host.cpp:158 | erasing a module keeps the uuids unique |
| `Plugins.UnloadStep` | core/plugin_host.cpp:135-168 | Success iff the uuid is registered; otherwise InvalidParameter with no change; on success the calls are shutdown, destroy_plugin if exported, then dlclose |
| `Plugins.UnloadReindexes` | core/plugin_host.cpp:157-165 | after unload, the list is the old one without that entry, the map loses exactly that uuid, earlier modules keep their index and later ones move down by one |
| `Plugins.UnloadKeepsInv` | core/plugin_host.cpp:157-165 | unload_plugin keeps the registry invariant |
| `Plugins.UnloadCalls` | core/plugin_host.cpp:144-155 | unloading calls shutdown once and dlclose once, last, and opens nothing |
| `Plugins.ShutdownStep` | core/plugin_host.cpp:184-204 | the list and the map are empty afterwards |
| `Plugins.TeardownLog` | core/plugin_host.cpp:187-199 | one teardown calls shutdown once and opens nothing; it closes the library once when nothing throws and the handle is non-null |
| `Plugins.ShutdownVisitsInReverse` | core/plugin_host.cpp:186-200 | every module's shutdown is called in reverse load order, whatever throws; when nothing throws, the libraries are closed in that order |
| `Plugins.ShutdownEmpties` | core/plugin_host.cpp:184-204 | shutdown leaves an empty registry that meets the invariant, with shutdown called for each module in reverse order |
| `Plugins.CandidatesExact` | core/plugin_host.cpp:27-38 | the scanned candidates are exactly the regular entries whose name has length ≥ 3 and ends in ".so" |
| `Plugins.LoadAllKeepsInv` | core/plugin_host.cpp:27-44 | a scan, as a sequence of loads, keeps the invariant |
| `Plugins.PluginHost.constructor` | core/plugin_host.cpp:12-14 | an empty registry |
| `Plugins.PluginHost.LoadPlugin` | core/plugin_host.cpp:50-133 | the new state and the result are those of LoadStep, and the invariant is kept |
| `Plugins.PluginHost.UnloadLibrary` | core/plugin_host.cpp:219-223 | dlclose is called iff the handle is non-null |
| `Plugins.PluginHost.UnloadPlugin` | core/plugin_host.cpp:135-168 | the new state and the result are those of UnloadStep, and the invariant is kept |
| `Plugins.PluginHost.RebuildIndex` | core/plugin_host.cpp:161-165 | the loop rebuilds the map as Index(loaded) |
| `Plugins.PluginHost.InitializePlugins` | core/plugin_host.cpp:170-182 | modules are initialized in load order and the first failure is returned; later modules are not called; Success iff all succeed, including when none are loaded |
| `Plugins.PluginHost.ShutdownPlugins` | core/plugin_host.cpp:184-204 | the new state is that of ShutdownStep: reverse-order teardown that tolerates exceptions, then empty list and map |
| `Plugins.PluginHost.Teardown` | core/plugin_host.cpp:187-199 | shutdown, then destroy_plugin if exported, then dlclose; an exception abandons the rest |
| `Plugins.PluginHost.GetPlugin` | core/plugin_host.cpp:206-213 | null iff no loaded module has the uuid; otherwise the instance of the module that has it |
| `Plugins.PluginHost.ScanDirectory` | core/plugin_host.cpp:20-48 | FileNotFound with no change if the directory cannot be opened; otherwise Success after loading each candidate in order, whatever the loads return |
| `Plugins.PluginHost.ScanEntry` | core/plugin_host.cpp:28-43 | a candidate is loaded, any other entry is skipped |
| `Decoding.LastIndex` | src/audio/plugin_audio_decoder.cpp:317-318 | the last position of a character, or None when it is absent |
| `Decoding.FileNameShape` | src/audio/plugin_audio_decoder.cpp:317-318 | the file name is the slash-free tail of the path |
| `Decoding.ExtensionShape` | src/audio/plugin_audio_decoder.cpp:317-318 | a non-empty extension is a dot with no other dot, ending the file name and not starting it |
| `Decoding.ExtensionExists` | src/audio/plugin_audio_decoder.cpp:317-319 | a path has an extension iff its file name has a dot after its first character and is not ".." |
| `Decoding.LowerPointwise` | src/audio/plugin_audio_decoder.cpp:323 | lower-casing maps each character on its own |
| `Decoding.LowerSuffix` | src/audio/plugin_audio_decoder.cpp:322-323 | stripping the dot and lower-casing commute |
| `Decoding.QueryOrder` | src/audio/plugin_audio_decoder.cpp:327-349 | the services queried end with the pcm fallback |
| `Decoding.FirstAnswering` | src/audio/plugin_audio_decoder.cpp:327-351 | the first service in order whose query succeeds, or None iff none succeeds |
| `Decoding.FindDecoder` | src/audio/plugin_audio_decoder.cpp:310-352 | null for a null path or an empty extension |
| `Decoding.FindDecoderOrder` | src/audio/plugin_audio_decoder.cpp:322-351 | wav/wave → wav, flac → flac, mp3/mpg/mpeg → mpg when that service answers; otherwise pcm; otherwise null |
| `Decoding.CanDecode` | src/audio/plugin_audio_decoder.cpp:213-217 | false for a null path or a path without extension; true only when some registered service gives a real pointer |
| `Decoding.PcmFallback` | src/audio/plugin_audio_decoder.cpp:346-349 | with pcm registered, can_decode holds iff the path has an extension |
| `Decoding.DecoderName` | src/audio/plugin_audio_decoder.cpp:252-274 | the name is "" iff there is no decoder |
| `Decoding.NameMatchesLookup` | src/audio/plugin_audio_decoder.cpp:263-269 | a file named for the MP3, FLAC or WAV decoder is one that find_decoder_for_file sends to that service first |
| `Decoding.FindValue` | src/audio/plugin_audio_decoder.cpp:207-210 | the value of the first entry with the key, or None iff no entry has it |
| `Decoding.ZeroTargetKeepsResampler` | src/audio/plugin_audio_decoder.cpp:238-249 | as written, setting the target to 0 while resampling keeps a resampler with a zero divisor for decode_frames |
| `Decoding.SetTargetRate` | src/audio/plugin_audio_decoder.cpp:238-249 | an unchanged rate is a no-op; otherwise the rate is stored, and a resampler exists iff a file is open, rate > 0, rate ≠ the source rate and initialisation succeeds |
| `Decoding.SetTargetRateKeepsInv` | src/audio/plugin_audio_decoder.cpp:238-249 | the corrected set_target_sample_rate keeps a resampler only with a positive target |
| `Decoding.PluginAudioDecoder.constructor` | src/audio/plugin_audio_decoder.cpp:22-27 | no file open, empty audio info, the given target rate |
| `Decoding.PluginAudioDecoder.CloseFile` | src/audio/plugin_audio_decoder.cpp:147-157 | releases the decoder once if there is one, and clears the path, audio info, metadata, resampler and conversion buffer; a second call releases nothing |
| `Decoding.PluginAudioDecoder.OpenFile` | src/audio/plugin_audio_decoder.cpp:99-145 | false with nothing changed for a null path; otherwise true iff a decoder is found and opens; on failure everything is cleared; on success the decoder, path, audio info and name are stored and a resampler is set up iff the target rate is positive and differs |
| `Decoding.PluginAudioDecoder.Attach` | src/audio/plugin_audio_decoder.cpp:112-138 | an open failure releases the decoder again; success stores the file's format |
| `Decoding.PluginAudioDecoder.DecodeFrames` | src/audio/plugin_audio_decoder.cpp:159-193 | 0 without decoding when no decoder is open, the output is null or max_frames ≤ 0; otherwise the decoder's count, or, through the resampler, the converter's count when input was decoded; it records when the resampler branch divides by a zero source rate |
| `Decoding.PluginAudioDecoder.Seek` | src/audio/plugin_audio_decoder.cpp:195-202 | true iff a decoder is open |
| `Decoding.PluginAudioDecoder.SetTargetSampleRate` | src/audio/plugin_audio_decoder.cpp:238-250 | the corrected rate update (SetTargetRate); nothing else changes |
| `Decoding.PluginAudioDecoder.GetDecoderName` | src/audio/plugin_audio_decoder.cpp:252-261 | "" iff no decoder; "Unknown" for an empty path |
| `Decoding.PluginAudioDecoder.GetMetadata` | src/audio/plugin_audio_decoder.cpp:204-211 | "" for a null or absent key, else the value of the first matching entry |
| `Services.Memcmp` | compat/foobar_sdk/foobar2000.h:42 | 0 iff the first n bytes agree, else the difference at the first differing byte |
| `Services.GuidEqualsMemcmp` | compat/foobar_sdk/foobar2000.h:39-43 | == holds iff Data1–3 and all 8 bytes of Data4 are equal |
| `Services.GuidEquals` | compat/sdk_implementations/service_base.h:27-34 | the field-wise == holds iff the GUIDs are equal |
| `Services.GuidNotEquals` | compat/sdk_implementations/service_base.h:36-38 | != is the exact negation of ==, and agrees with the memcmp version |
| `Services.ServiceFactory.ServiceAddRef` | compat/sdk_implementations/service_base.h:72-75 | always returns 1 and changes nothing |
| `Services.ServiceFactory.ServiceRelease` | compat/sdk_implementations/service_base.h:77-80 | always returns 1 and changes nothing |
| `Services.ServicePtr.Empty` | compat/foobar_sdk/foobar2000.h:73 | a default pointer is null, and is_valid is false |
| `Services.ServicePtr.FromRaw` | compat/foobar_sdk/foobar2000.h:74-76 | constructing from a non-null pointer adds exactly one reference, and from null adds none |
| `Services.ServicePtr.Copy` | compat/foobar_sdk/foobar2000.h:77-79 | the copy shares the pointee and adds exactly one reference |
| `Services.ServicePtr.Move` | compat/foobar_sdk/foobar2000_sdk.h:45-47 | the pointee is transferred with no refcount change, and the source is left empty |
| `Services.ServicePtr.Dispose` | compat/foobar_sdk/foobar2000.h:81-83 | destruction releases exactly once iff non-null |
| `Services.ServicePtr.Assign` | compat/foobar_sdk/foobar2000.h:85-92 | self-assignment changes nothing; otherwise the old pointee is released once and the new one gains one reference |
| `Services.ServicePtr.MoveAssign` | compat/foobar_sdk/foobar2000_sdk.h:62-69 | a no-op on self; otherwise the old pointee is released, the other's pointer is taken without add_ref, and the other is emptied |
| `Services.ServicePtr.Release` | compat/foobar_sdk/foobar2000.h:99-104 | releases once and nulls the pointer; a second call is a no-op |
| `Services.ServicePtr.IsEmpty` | compat/foobar_sdk/foobar2000_sdk.h:75-76 | is_empty and is_valid are complementary |
| `Services.ConstructorsBalanced` | compat/sdk_implementations/service_base.h:91-101 | the raw, copy and move constructors change every count by exactly the change in its holders |
| `Services.DestroyBalanced` | compat/sdk_implementations/service_base.h:103-105 | destruction releases once per holder lost |
| `Services.ReleaseBalanced` | compat/sdk_implementations/service_base.h:132-137 | release() keeps counts equal to holders |
| `Services.CopyAssignBalanced` | compat/sdk_implementations/service_base.h:107-114 | copy assignment keeps counts equal to holders, including on self |
| `Services.MoveAssignBalanced` | compat/sdk_implementations/service_base.h:116-123 | move assignment keeps counts equal to holders without add_ref |
| `Chunks.GrowTo` | compat/foobar_sdk/foobar2000_sdk.h:153-157 | the capacity never decreases, covers the request, and is either the old capacity or the request |
| `Chunks.CapacityIsHighWater` | compat/foobar_sdk/foobar2000_sdk.h:149-158 | after any series of set_data_size calls, the capacity is the maximum of the initial capacity and every request |
| `Chunks.DataSizeCovers` | compat/foobar_sdk/foobar2000_sdk.h:149-158 | the capacity is ≥ n × channels when the product fits in size_t; a wrapped product can leave an empty buffer |
| `Chunks.AudioChunk.constructor` | compat/foobar_sdk/foobar2000_sdk.h:114-120 | all fields are 0 and the data is null |
| `Chunks.AudioChunk.SetSampleRate` | compat/foobar_sdk/foobar2000_sdk.h:129-130 | the getter returns what was set |
| `Chunks.AudioChunk.SetChannels` | compat/foobar_sdk/foobar2000_sdk.h:133-134 | the getter returns what was set |
| `Chunks.AudioChunk.SetChannelConfig` | compat/foobar_sdk/foobar2000_sdk.h:137-138 | the getter returns what was set |
| `Chunks.AudioChunk.SetSampleCount` | compat/foobar_sdk/foobar2000_sdk.h:141-142 | the getter returns what was set |
| `Chunks.AudioChunk.SetDataSize` | compat/foobar_sdk/foobar2000_sdk.h:149-158 | sample_count := n; the buffer is reallocated only when n × channels exceeds the capacity, and then the capacity becomes that product; the other fields are unchanged |
| `Chunks.AudioChunk.Reset` | compat/foobar_sdk/foobar2000_sdk.h:167-169 | sample_count := 0; the data and capacity are untouched |
| `Chunks.AbortCallbackDummy.IsAborting` | compat/foobar_sdk/foobar2000_sdk.h:104 | always false |
| `Chunks.NewFileInfo` | compat/foobar_sdk/foobar2000_sdk.h:199-206 | zero length, rate, channels, bitrate and tag count; null codec and tags |
| `Locations.PathOf` | compat/sdk_implementations/metadb_handle_interface.h:24 | a null char pointer denotes the empty path |
| `Locations.LessIrreflexive` | compat/sdk_implementations/metadb_handle_interface.h:42 | no path is < itself |
| `Locations.PrefixFirst` | compat/sdk_implementations/metadb_handle_interface.h:42 | a proper prefix is < the longer path |
| `Locations.LessTransitive` | compat/sdk_implementations/metadb_handle_interface.h:42 | < is transitive |
| `Locations.LessTotal` | compat/sdk_implementations/metadb_handle_interface.h:40-42 | of two different paths exactly one is <, so < is a strict total (lexicographic) order |
| `Locations.Location.FromChars` | compat/sdk_implementations/metadb_handle_interface.h:24 | null gives the empty path |
| `Locations.Location.FromString` | compat/sdk_implementations/metadb_handle_interface.h:23-25 | the path is the given string |
| `Locations.Location.IsEmpty` | compat/sdk_implementations/metadb_handle_interface.h:30 | holds iff the path is empty |
| `Locations.Location.IsValid` | compat/sdk_implementations/metadb_handle_interface.h:31 | holds iff the path is non-empty and shorter than 4096 |
| `Locations.Location.SetPath` | compat/sdk_implementations/metadb_handle_interface.h:33-34 | get_path_ref returns what was set; null clears the path |
| `Locations.Location.Substring` | compat/sdk_implementations/metadb_handle_interface.h:36-38 | the suffix from start, for start ≤ length; None (std::out_of_range) beyond |
| `Locations.Location.Equals` | compat/sdk_implementations/metadb_handle_interface.h:40 | == holds iff neither location is < the other |
| `Locations.Location.NotEquals` | compat/sdk_implementations/metadb_handle_interface.h:41 | != is the negation of == |
| `Locations.PlayableLocation.FromChars` | compat/sdk_implementations/metadb_handle_interface.h:51-52 | the path from the pointer (null → empty), and the given subsong |
| `Locations.PlayableLocation.FromLocation` | compat/sdk_implementations/metadb_handle_interface.h:53-54 | a copy of the location's path, and the given subsong |
| `Locations.PlayableLocation.constructor` | compat/sdk_implementations/metadb_handle_interface.h:50-60 | empty path, subsong 0 |
| `Locations.PlayableLocation.SetSubsong` | compat/sdk_implementations/metadb_handle_interface.h:56-57 | get_subsong returns what was set |
| `OutputStub.Step` | src/audio/audio_output_stub.cpp:36-59 | open stores the format, sets ready, latency 100 and buffer size = rate / 10; close changes only readiness; write changes nothing |
| `OutputStub.ReadyIffOpenedSinceClose` | src/audio/audio_output_stub.cpp:36-71 | after any series of calls, the stub is ready iff some open came after the last close; the latency is 0 until the first open and 100 afterwards |
| `OutputStub.AudioOutputStub.constructor` | src/audio/audio_output_stub.cpp:26-30 | not ready, latency 0, buffer size 1024 |
| `OutputStub.AudioOutputStub.Open` | src/audio/audio_output_stub.cpp:36-45 | always true; the new state is Step with open |
| `OutputStub.AudioOutputStub.Close` | src/audio/audio_output_stub.cpp:47-49 | not ready, and nothing else changes |
| `OutputStub.AudioOutputStub.Dispose` | src/audio/audio_output_stub.cpp:32-34 | the destructor closes the stub |
| `OutputStub.AudioOutputStub.Write` | src/audio/audio_output_stub.cpp:51-59 | 0 when closed, frames when open; no state change |

## Left out

- Concurrency: the engine's mutex, the unlocked read of `state_` by the audio thread, and the lock taken around the in-callback switch are not modelled. `fill_buffer` is one more sequential method.
- Console logging (`std::cout`, `std::cerr`, `dlerror`) has no semantic effect and is left out.
- Floating point is left out. This covers `set_volume`'s clamp, `duration_seconds`, `audio_chunk::get_duration`, and the arithmetic of the resampler and of `abort_callback::sleep`. Samples are `real`s whose values are only copied.
- The decoder, the audio device, `dlopen`/`dlsym`/`dlclose`, `opendir`/`readdir`, `service_query`, the decoder plugin's `open`/`decode`/`seek` and the sample-rate converter are foreign calls. Their answers are parameters; they are never computed.
- `PREBUFFER_THRESHOLD_MS` and `API_VERSION` come from headers that are not part of this model, so each is a constant given to the constructor.
- The `PluginAudioDecoder` plumbing is not part of this model. This covers the loader ownership in its constructor and destructor, `initialize`, `register_known_decoders`, `load_plugins_from_directory`, `get_plugin_stats`, `get_supported_extensions` and the `PluginAudioDecoderFactory` singleton. They only delegate to the external loader and registry.
- The three smart-pointer classes share one model, `Services.ServicePtr`: `service_ptr_t` in foobar2000.h, `service_ptr_t` in foobar2000_sdk.h, and `service_ptr` in service_base.h. The operations they have in common have identical bodies. service_base.h's private `add_ref` is declared but not defined, so its effect is taken to be one reference. The template parameter and `get`/`operator->` are not modelled.
- `audio_chunk`'s sample contents and `get_data` are not modelled. The buffer stands only for its identity and its length.
- `Playback.FillLayout`: proves the contiguous current/next/silence layout only when both slots have the same channel count. With different counts the code writes the next track's samples at the current slot's stride and the silence at the new slot's stride. `FillBufferSpec` models that layout too, but only for a buffer that holds frames × channels of both slots (`FillFits`). The device buffer the program passes does not always hold that, and then the code writes past it (see Findings).
- `Playback.PlaybackEngine.FillBuffer`: requires `FillFits`, a buffer of frames × channels for both slots. The caller does not guarantee this (see Findings), so the method models only the calls that stay inside the buffer; `FillExtent` measures the calls that do not.
- `Playback.ApproachingEndIff`: states the trigger condition only where `total - position` does not underflow and `× 1000` does not wrap. `IsApproachingEnd` models the wrap-around itself.
- `Playback.SeekThenPosition`: is stated only for sample rates ≥ 1000 Hz and products that fit in 64 bits. Below 1000 Hz, the rounding loses more than one millisecond.
- `Playback.PlaybackEngine.GetPosition`: states the exact quotient only where `position * 1000` fits in 64 bits. The body wraps as uint64 does.
- `Plugins.ShutdownVisitsInReverse`: states the dlclose order only when no module throws. When a module throws, its remaining calls are skipped, as `TeardownEvents` models.
- `Decoding.PluginAudioDecoder.DecodeFrames`: the decoded samples and the converter's arithmetic are not modelled, only the guards, the conversion buffer size and which count is returned.
- `Decoding.PluginAudioDecoder.DecodeFrames`: computes `max_frames * sample_rate` (line 170) as an unbounded integer. The widths of `audio_info_.sample_rate` and `target_sample_rate_` are declared in plugin_audio_decoder.h, which is not part of this model. A product above 2^31 overflows in the code, and the model does not capture that.
- `Decoding.PluginAudioDecoder.DecodeFrames`: the integer `ratio` at line 169 is otherwise unused, so its value is not modelled. Its division by a zero source rate is recorded in the ghost result `zeroRate`. A resampler with a zero source rate exists only if the converter's `initialize` accepts rate 0, and that converter is a foreign call.
- `Decoding.PluginAudioDecoder.SetTargetSampleRate`: carries the corrected update (`SetTargetRate`), which drops the resampler when the new rate needs none. The code as written keeps it (`SetTargetRateAsWritten`, see Findings). The class invariant `RateInv`, and so the positive divisor in `DecodeFrames`, rest on that correction.
- `Locations.Location.IsValid`: compares the length of the path in characters with 4096, while `std::string::length` counts bytes. For non-ASCII UTF-8 paths the two differ: a path of 2048 'é' characters is 4096 bytes, so the code rejects it and the model accepts it.
- `Locations.Location.Substring`: indexes by character, while `std::string::substr` indexes by byte. The two agree only on ASCII paths.
- `Plugins.UnloadStep`: assumes `shutdown` and `destroy_plugin` return normally. unload_plugin (core/plugin_host.cpp:145-151) has no try block, so an exception from either leaves the module registered and its library open. The model does not capture that path.
- `Plugins.LoadOutcome`: assumes `create_plugin` and `get_plugin_info` (core/plugin_host.cpp:69, 77) return normally. An exception from either abandons load_plugin with the library still open. `LoadReleases` likewise covers only the calls that return.
- `Plugins.PluginHost.InitializePlugins`: assumes each module's `initialize` returns a result. An exception (core/plugin_host.cpp:172) leaves initialize_plugins without one, and the model does not capture that.
- `Decoding.FileName`: splits a path on '/' only, as `std::filesystem::path` does on POSIX. On Windows, a platform the program also builds for, it splits on `\` as well and treats a drive prefix such as `C:` as the root name. `FileNameShape`, `Extension` and `ExtensionExists` inherit this.

## Findings

| source | as written | input that shows it | evidently intended | confidence | as-written member | corrected member |
|---|---|---|---|---|---|---|
| core/playback_engine.cpp:163-173 | play() opens the device once, from Stopped, with the current track's channel count c, so each callback buffer holds frames × c samples. fill_buffer then hands the next track's decoder the rest of the buffer, and clears silence, at the new track's channel count (331-333, 346-348). load_track (55-100) also keeps the device at the old count unless play() starts from Stopped. A new track with more channels is then cleared at its count when not playing (313) and decoded at its count after a resume from Paused (361). While Playing the reloaded slot is inactive (86), so with no next slot the silence memset clears the frames at its count (346-348) | a stereo track playing with a 6-channel track prepared and primed; the current track yields 0 frames of a 2048-frame callback and the next yields 2048: fill_buffer offers the next decoder 12288 samples of a 4096-sample buffer | the device is reopened, or the buffer sized, for the channel count of whatever slot fill_buffer writes for, so every write stays inside the buffer | not executed | `Playback.SwitchOverrunsDeviceBuffer` | `Playback.FillStaysInBuffer` |
| src/audio/plugin_audio_decoder.cpp:238-249 | a change of target rate that needs no resampler (rate 0, rate equal to the source rate, or no file open) leaves the old resampler in place | a file open at 44100 Hz with target 48000 and a resampler; `set_target_sample_rate(0)`; then `decode_frames(out, 512)` computes `512 * 44100 / 0` at line 170 | the old resampler is dropped when the new rate needs none, so a resampler always has a positive target | not executed | `Decoding.ZeroTargetKeepsResampler` | `Decoding.SetTargetRateKeepsInv` |
