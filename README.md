# Charlie — a Dafny model of its core

Charlie is a home-automation hub. It reads presence radars (LD2450, LD2410,
LD2460), buttons and vibration sensors. It tracks people, drives a state
machine (IDLE / ARMING / ACTIVE / COOLDOWN), records and replays bus
traffic, and controls an RGB status LED. The LED sits on a small
reset-button microcontroller that talks to the hub over USB serial.

This project models that core in Dafny, one module per source file, and
proves properties of the model. Three modules are shared:

- `Common` holds option and result types, bytes, clamping, trimming, splitting and decimal digits.
- `Js` holds JavaScript's dynamic values and the coercions the sources apply to them: `Number(x)`, `String(x)`, truthiness, `??` and property access.
- `Measurement` holds the tracker's position observation, which the pipeline builds and the observation stage, the snapshot buffer and the fusion clusterer pass on.

Where the source changes state in place, the model is a class. Each of
its methods states the complete new state. Where the source computes
values, the model uses datatypes, functions and lemmas.

## Model

| member | source | states |
|---|---|---|
| PicoResetPixel.TicksDiff | firmware/pico-reset-pixel/v1/code.py:92 | the tick difference lies in [-2^28, 2^28) and agrees with t1 - t2 modulo the 2^29 tick period |
| PicoResetPixel.TicksDiffElapsed | firmware/pico-reset-pixel/v1/code.py:88-92 | a reading taken e ms after t0 differs from it by exactly e, across a counter wrap-around, for any e within half a period |
| PicoResetPixel.ResetExpiry | firmware/pico-reset-pixel/v1/code.py:91-99 | the reset pulse ends at a reading taken e ms after the press exactly when e > 2000 |
| PicoResetPixel.PyIntOfIntString | firmware/pico-reset-pixel/v1/code.py:109 | int() reads back every decimal integer rendering, negative ones included |
| PicoResetPixel.ParseLineOutcomes | firmware/pico-reset-pixel/v1/code.py:105-119 | a line without a comma is dropped; a wrong field count or a field int() refuses is rejected; otherwise the colour is the three clamped fields |
| PicoResetPixel.ParseLineOfIntegers | firmware/pico-reset-pixel/v1/code.py:106-111 | a line of three integers separated by commas sets the colour to each integer clamped into [0, 255] |
| PicoResetPixel.SerialStep | firmware/pico-reset-pixel/v1/code.py:102-120 | the pending text never keeps a line terminator; a colour comes only from a terminated chunk, which empties the buffer |
| PicoResetPixel.SerialStepConsumes | firmware/pico-reset-pixel/v1/code.py:103-120 | text without a terminator accumulates; a terminated chunk empties the buffer whether or not it parses, and sets the colour exactly when it parses |
| PicoResetPixel.InitialInv | firmware/pico-reset-pixel/v1/code.py:33-54 | after start-up the reset line is high, no pulse runs and the onboard pixel shows (30,0,0) |
| PicoResetPixel.PassInv | firmware/pico-reset-pixel/v1/code.py:56-120 | every loop pass keeps the invariant: the reset line is low, and the onboard pixel green, exactly while a reset pulse runs; no line terminator stays pending |
| PicoResetPixel.ApplySerialInv | firmware/pico-reset-pixel/v1/code.py:102-120 | the serial phase touches neither the reset line nor the onboard pixel |
| PicoResetPixel.PassPixel | firmware/pico-reset-pixel/v1/code.py:59-120 | after a pass the external pixel shows the persistent colour while released, black after a long press while pressed, red otherwise |
| PicoResetPixel.PassColor | firmware/pico-reset-pixel/v1/code.py:76-114 | a colour received in a pass wins over a long press of the same pass, which wins over the previous colour |
| PicoResetPixel.LongPressStartsPulse | firmware/pico-reset-pixel/v1/code.py:76-99 | a long press at t0 pulls the line low and starts the timer, unless the pass's second reading is already more than 2000 ms later |
| PicoResetPixel.PulseEnds | firmware/pico-reset-pixel/v1/code.py:91-99 | while a pulse started at t0 runs, a pass e ms later raises the line and shows (30,0,0) exactly when e > 2000 |
| PicoResetPixel.Controller.constructor | firmware/pico-reset-pixel/v1/code.py:26-54 | start-up: external pixel (10,10,10), onboard pixel (30,0,0), colour (0,10,0), reset line high, no timer, empty buffer, and the invariant holds |
| PicoResetPixel.Controller.Iterate | firmware/pico-reset-pixel/v1/code.py:56-120 | one loop pass changes the state as Pass does, keeps each buffer equal to its last write and keeps the invariant |
| PicoResetPixel.Controller.StartReset | firmware/pico-reset-pixel/v1/code.py:76-88 | a long press zeroes the colour and the external pixel, drives the reset line low, shows (0,200,0) and overwrites the timer with the press tick |
| PicoResetPixel.Controller.CheckResetTimer | firmware/pico-reset-pixel/v1/code.py:91-99 | the line returns high, the onboard pixel shows (30,0,0) and the timer clears only when more than 2000 ms have elapsed |
| PicoResetPixel.Controller.ReadSerial | firmware/pico-reset-pixel/v1/code.py:102-120 | the buffer and colour follow SerialStep; the external pixel is rewritten only for a colour received while released |
| PicoResetPixel.Controller.Apply | firmware/pico-reset-pixel/v1/code.py:110-120 | stores the pending text and a received colour, and shows that colour at once while released |
| Ws2812Led.ParseRgbPayload | src/devices/kinds/ws2812Led/ws2812LedDevice.js:268-292 | a colour exists exactly for an rgb array or an object with r, g or b; each channel is Number, rounded and clamped into [0, 255], with non-finite values giving 0 |
| Ws2812Led.ParseArrayPayload | src/devices/kinds/ws2812Led/ws2812LedDevice.js:268-276 | the payload { rgb: [r, g, b] } of a colour parses back to that colour |
| Ws2812Led.ParseFieldsPayload | src/devices/kinds/ws2812Led/ws2812LedDevice.js:278-286 | the payload { r, g, b } of a colour parses back to that colour |
| Ws2812Led.ParseRejectsColourless | src/devices/kinds/ws2812Led/ws2812LedDevice.js:278-285 | an object without rgb, r, g and b gives no colour |
| Ws2812Led.EncodeRgbCommand | src/devices/kinds/ws2812Led/ws2812LedDevice.js:262-266 | the command is a line ending in a newline whose comma-separated fields are the three channels in decimal |
| Ws2812Led.EncodeThenParse | src/devices/kinds/ws2812Led/ws2812LedDevice.js:262-266 | the microcontroller's parser maps every encoded command back to the same colour |
| Ws2812Led.AsOptId | src/devices/kinds/ws2812Led/ws2812LedDevice.js:294-297 | the trimmed string of a truthy value, or nothing when that is blank |
| Ws2812Led.IsTargetMatch | src/devices/kinds/ws2812Led/ws2812LedDevice.js:211-224 | a ledId decides by id equality, else a publishAs decides by publishAs equality, else the command matches |
| Ws2812Led.TargetByOwnId | src/devices/kinds/ws2812Led/ws2812LedDevice.js:211-217 | a command carrying the device's own id matches whatever publishAs it also carries |
| Ws2812Led.InjectOutcome | src/devices/kinds/ws2812Led/ws2812LedDevice.js:113-129 | null, undefined, non-objects and payloads without a colour give invalidInjectPayload; otherwise the parsed colour |
| Ws2812Led.Device.Inject | src/devices/kinds/ws2812Led/ws2812LedDevice.js:113-129 | corrected (the publish of ws2812LedDevice.js:352, see Findings): ok exactly when InjectOutcome is ok, and then the colour is applied; an error changes nothing |
| Ws2812Led.Device.constructor | src/devices/kinds/ws2812Led/ws2812LedDevice.js:27-54 | the device keeps its configuration and starts unblocked, undisposed, without error, in state unknown, black, unlinked, with nothing written, published or warned |
| Ws2812Led.Device.ApplyRgb | src/devices/kinds/ws2812Led/ws2812LedDevice.js:226-260 | corrected (the publish of ws2812LedDevice.js:352, see Findings): lastRgb is always stored. A blocked, disposed or inactive device only reports a simulated write. Without a link the device degrades with serial_not_ready. Otherwise it writes the encoded line and reports it applied, or degrades on a write error with lastError set to the error text, or serial_write_failed when there is none. |
| Ws2812Led.Device.OnLedCommand | src/devices/kinds/ws2812Led/ws2812LedDevice.js:192-209 | corrected (the publish of ws2812LedDevice.js:352, see Findings): a live device applies a matching command with a colour, warns about a matching one without, and ignores the rest |
| Ws2812Led.Device.SetRuntimeState | src/devices/kinds/ws2812Led/ws2812LedDevice.js:322-326 | corrected (the publish of ws2812LedDevice.js:352, see Findings): sets the state and the error and publishes both |
| Ws2812Led.Device.SetRuntimeStateAsWritten | src/devices/kinds/ws2812Led/ws2812LedDevice.js:322-326 | as written: the state and the error are stored, and the report that would follow throws |
| Ws2812Led.Device.ApplyRgbAsWritten | src/devices/kinds/ws2812Led/ws2812LedDevice.js:226-260 | as written: the same colour, line, state and error as ApplyRgb, but nothing is reported, not even an applied colour |
| BaseDevice.PublishAs | src/devices/base/baseDevice.js:63-65 | publishAs when configured, else the id |
| BaseDevice.ConfiguredState | src/devices/base/baseDevice.js:75-77 | the configured state, else 'active' |
| BaseDevice.LastErrorOf | src/devices/base/baseDevice.js:99-101 | no error exactly for a falsy message, otherwise its string |
| BaseDevice.Step | src/devices/base/baseDevice.js:111-158 | start and unblock run _startImpl only from a live unblocked (start) or blocked (unblock) device; block runs _stopImpl only from a live unblocked device; dispose is terminal and runs _stopImpl('dispose') once; disposed implies blocked |
| BaseDevice.DisposedStaysDisposed | src/devices/base/baseDevice.js:124-158 | after dispose no call changes a flag or runs a hook |
| BaseDevice.StopOncePerBlock | src/devices/base/baseDevice.js:124-135 | over any sequence of calls, _stopImpl(reason) runs exactly once per unblocked-to-blocked transition |
| BaseDevice.BlockUnblockRestarts | src/devices/base/baseDevice.js:124-148 | block then unblock of a running device runs _stopImpl then _startImpl and ends unblocked |
| BaseDevice.Device.Create | src/devices/base/baseDevice.js:48-57 | a device needs a non-empty id; it starts unblocked, undisposed, without error |
| BaseDevice.Device.constructor | src/devices/base/baseDevice.js:48-57 | given a non-empty id, the device keeps its configuration and starts unblocked, undisposed, without error or hooks |
| BaseDevice.Device.Start | src/devices/base/baseDevice.js:111-117 | the flags and hooks follow Step for start |
| BaseDevice.Device.Block | src/devices/base/baseDevice.js:124-135 | the flags and hooks follow Step for block |
| BaseDevice.Device.Unblock | src/devices/base/baseDevice.js:137-148 | the flags and hooks follow Step for unblock |
| BaseDevice.Device.Dispose | src/devices/base/baseDevice.js:150-158 | the flags and hooks follow Step for dispose |
| BaseDevice.Device.SetLastError | src/devices/base/baseDevice.js:99-101 | lastError becomes LastErrorOf(msg) |
| ByteSearch.IndexOfFromFinds | src/devices/kinds/ld2450Radar/ld2450Decode.js:41 | buf.indexOf(header, i) gives the first occurrence at or after i; no result means there is none there |
| ByteSearch.LastIndexOf | src/devices/kinds/ld2450Radar/ld2450Decode.js:149 | buf.lastIndexOf(header) gives an occurrence with none after it; no result means none anywhere |
| Ld2450Decode.DecodeSigned15PosBit | src/devices/kinds/ld2450Radar/ld2450Decode.js:10-16 | bit 15 set gives u - 0x8000 (non-negative), clear gives -u (non-positive); the value lies in (-32768, 32768) |
| Ld2450Decode.DecodeEncode | src/devices/kinds/ld2450Radar/ld2450Decode.js:10-16 | decoding inverts the radar's sign-bit encoding of every value in (-32768, 32768) |
| Ld2450Decode.EncodeDecode | src/devices/kinds/ld2450Radar/ld2450Decode.js:10-16 | every raw word but 0 (a negative zero) is the encoding of its decoded value |
| Ld2450Decode.ValidityRules | src/devices/kinds/ld2450Radar/ld2450Decode.js:18-23 | resolution needs resolutionMm != 0, nonzeroXY needs x or y != 0, either is their union, and an unknown rule acts as resolution |
| Ld2450Decode.FrameAtShape | src/devices/kinds/ld2450Radar/ld2450Decode.js:71-92 | each frame has three targets with ids 1..3, the t-th read at header + 4 + 8t, and is present exactly when a target is valid |
| Ld2450Decode.DecodeFrame | src/devices/kinds/ld2450Radar/ld2450Decode.js:68-92 | the target loop and the present flag build exactly the frame at the header |
| Ld2450Decode.StepKeeps | src/devices/kinds/ld2450Radar/ld2450Decode.js:40-106 | one pass keeps every recorded frame complete, headed, tailed with 55 CC and clear of the previous one, counts it in decodedFrames, and adds none once maxFrames are reached |
| Ld2450Decode.ScanKeeps | src/devices/kinds/ld2450Radar/ld2450Decode.js:40-110 | the whole scan returns such frames only |
| Ld2450Decode.DecodeFacts | src/devices/kinds/ld2450Radar/ld2450Decode.js:25-110 | every decoded frame is well formed, decodedFrames equals the frame count, scannedBytes the buffer length, and the count stays within maxFrames |
| Ld2450Decode.NoHeader | src/devices/kinds/ld2450Radar/ld2450Decode.js:43-50 | without any header, no frame is decoded, the last min(len, 3) bytes remain and the rest is dropped |
| Ld2450Decode.NoHeaderStops | src/devices/kinds/ld2450Radar/ld2450Decode.js:43-50 | when no further header follows, the scan returns the last min(len, 3) bytes as remainder |
| Ld2450Decode.IncompleteTail | src/devices/kinds/ld2450Radar/ld2450Decode.js:54-60 | a header too close to the end is counted, ends the scan and starts the remainder; droppedBytes is that header's offset only if no frame came before |
| Ld2450Decode.BadFooterSkips | src/devices/kinds/ld2450Radar/ld2450Decode.js:62-66 | a header without the 55 CC tail is counted in badFooters and the scan resumes one byte after it |
| Ld2450Decode.GoodFrameAdvances | src/devices/kinds/ld2450Radar/ld2450Decode.js:68-105 | a complete frame is recorded and counted, droppedBytes becomes its offset if it is the first, and the scan resumes after its 30 bytes |
| Ld2450Decode.LoopExitStops | src/devices/kinds/ld2450Radar/ld2450Decode.js:40 | once fewer than 4 bytes remain or maxFrames frames are decoded, the rest of the buffer is the remainder |
| Ld2450Decode.SingleFrame | src/devices/kinds/ld2450Radar/ld2450Decode.js:25-110 | a buffer holding exactly one report decodes to that frame with nothing left over or dropped |
| Ld2450Decode.DroppedBeforeFirstFrame | src/devices/kinds/ld2450Radar/ld2450Decode.js:54-99 | once a frame is decoded, droppedBytes is the offset of the first frame, where a header starts |
| Ld2450Decode.FrameThenNoise | src/devices/kinds/ld2450Radar/ld2450Decode.js:43-50 | one frame followed by five header-free bytes: as written droppedBytes is 32, corrected it is 0 |
| Ld2450Decode.DecodeTrackingFrames | src/devices/kinds/ld2450Radar/ld2450Decode.js:25-110 | corrected: the scanning loop returns the corrected scan's remainder, droppedBytes and stats (see Findings, ld2450Decode.js:43-50), and the frames decoded at the offsets the scan records |
| Ld2450Decode.Decode | src/devices/kinds/ld2450Radar/ld2450Decode.js:25-110 | corrected (see Findings): decodedFrames counts the decoded frames, scannedBytes is the buffer's length, and no frame is decoded once maxFrames are reached |
| Ld2450Decode.DecodeAsWritten | src/devices/kinds/ld2450Radar/ld2450Decode.js:25-110 | as written: decodedFrames counts the decoded frames, scannedBytes is the buffer's length, and no frame is decoded once maxFrames are reached |
| Ld2450Decode.ConsumeHeader | src/devices/kinds/ld2450Radar/ld2450Decode.js:62-105 | one pass over a header with room for a frame moves the cursor forward, keeps the frames decoded at the recorded offsets, and leaves the rest of the scan unchanged |
| Ld2450Decode.OptionsOf | src/devices/kinds/ld2450Radar/ld2450Decode.js:121-124 | without an options object, rule 'resolution', no frame limit, 4096 buffer bytes, noise threshold 32 and no stats |
| Ld2450Decode.Overflow | src/devices/kinds/ld2450Radar/ld2450Decode.js:148-163 | a carry within maxBufferBytes is untouched; a longer one is cut at its last header, or dropped whole without one, and the cut bytes are added to totalDropped |
| Ld2450Decode.Absorb | src/devices/kinds/ld2450Radar/ld2450Decode.js:172-205 | the carry becomes the remainder, and totalFrames, totalDropped and totalBadFooters grow by the frames, dropped bytes and bad footers of the result |
| Ld2450Decode.PushCarriesRemainder | src/devices/kinds/ld2450Radar/ld2450Decode.js:140-206 | after a push that reaches the decoder the carry is exactly the decoder's remainder, and the totals grow by its frames, dropped bytes and bad footers |
| Ld2450Decode.PushOverflowDropsAll | src/devices/kinds/ld2450Radar/ld2450Decode.js:148-156 | an overlong carry without any header is dropped whole, counted and reported, and nothing is decoded |
| Ld2450Decode.StreamDecoder.constructor | src/devices/kinds/ld2450Radar/ld2450Decode.js:113-125 | an empty carry, zero totals and the options read with their defaults |
| Ld2450Decode.StreamDecoder.Reset | src/devices/kinds/ld2450Radar/ld2450Decode.js:127-129 | the carry is emptied and the totals are kept |
| Ld2450Decode.StreamDecoder.GetState | src/devices/kinds/ld2450Radar/ld2450Decode.js:131-138 | carryBytes is the carry's length, with the three totals |
| Ld2450Decode.StreamDecoder.Push | src/devices/kinds/ld2450Radar/ld2450Decode.js:140-206 | corrected: a non-buffer is reported and changes nothing else; otherwise the state changes as PushStep says, which decodes with the corrected droppedBytes |
| Ld2450Decode.StreamDecoder.DropOverflow | src/devices/kinds/ld2450Radar/ld2450Decode.js:148-163 | the carry and totals change as Overflow says, and push stops exactly when an overlong carry has no header |
| Ld2450Decode.StreamDecoder.Emit | src/devices/kinds/ld2450Radar/ld2450Decode.js:172-205 | the totals, the events and the new carry are those of Absorb |
| Ld2450Decode.StreamDecoder.EmitFrames | src/devices/kinds/ld2450Radar/ld2450Decode.js:184-191 | one frame event per decoded frame, in order, each counted in totalFrames |
| Ld2460Decode.DecodePosMm | src/devices/kinds/ld2460Radar/ld2460Decode.js:12-17 | the word read as int16, times 100: a multiple of 100 in [-3276800, 3276700], negative exactly when bit 15 is set, zero only for the zero word |
| Ld2460Decode.DecodeEncodePos | src/devices/kinds/ld2460Radar/ld2460Decode.js:12-17 | decoding inverts the radar's encoding of every multiple of 100 mm in the int16 range |
| Ld2460Decode.EncodeDecodePos | src/devices/kinds/ld2460Radar/ld2460Decode.js:12-17 | every 16-bit word is the encoding of its decoded coordinate, so distinct words decode to distinct coordinates |
| Ld2460Decode.ValidityRules | src/devices/kinds/ld2460Radar/ld2460Decode.js:19-24 | resolution needs resolutionMm != 0, nonzeroXY needs x or y != 0, either is their union, and an unknown rule acts as nonzeroXY |
| Ld2460Decode.RuleOf | src/devices/kinds/ld2460Radar/ld2460Decode.js:28 | a validRule that is not a string means nonzeroXY |
| Ld2460Decode.DefaultRuleValid | src/devices/kinds/ld2460Radar/ld2460Decode.js:108-122 | under nonzeroXY or an unknown rule a target is valid exactly when one of its two raw words is nonzero |
| Ld2460Decode.TargetCount | src/devices/kinds/ld2460Radar/ld2460Decode.js:102 | a valid packet length is exactly 11 plus 4 bytes per target |
| Ld2460Decode.FrameAtShape | src/devices/kinds/ld2460Radar/ld2460Decode.js:102-127 | a frame has (packetLen - 11) / 4 targets with ids from 1, the t-th read at header + 7 + 4t, speed and resolution 0, present exactly when a target is valid |
| Ld2460Decode.DecodeFrame | src/devices/kinds/ld2460Radar/ld2460Decode.js:102-127 | the target loop and the present flag build exactly the frame at the header |
| Ld2460Decode.Classify | src/devices/kinds/ld2460Radar/ld2460Decode.js:57-100 | a header is accepted exactly when its packet has function code 0x04, a valid length, lies inside the buffer and ends with F8 F7 F6 F5 |
| Ld2460Decode.Verdicts | src/devices/kinds/ld2460Radar/ld2460Decode.js:57-100 | the function code is checked first, then the length, then that the packet fits, then the tail; a missing length word or an overlong packet is truncated |
| Ld2460Decode.Reject | src/devices/kinds/ld2460Radar/ld2460Decode.js:66-100 | a rejected header adds one to exactly one of badFunc, badLengths and badFooters and to nothing else |
| Ld2460Decode.CheckHeader | src/devices/kinds/ld2460Radar/ld2460Decode.js:57-100 | the checks in the source's order give the verdict of Classify |
| Ld2460Decode.AppendKeeps | src/devices/kinds/ld2460Radar/ld2460Decode.js:102-139 | recording an accepted frame keeps every recorded frame accepted and clear of the next, and decodedFrames equal to their number |
| Ld2460Decode.RejectKeeps | src/devices/kinds/ld2460Radar/ld2460Decode.js:66-100 | counting a rejected header keeps foundHeaders equal to the frames plus the three rejection counters |
| Ld2460Decode.ScanKeeps | src/devices/kinds/ld2460Radar/ld2460Decode.js:43-140 | the scan returns accepted, non-overlapping frames counted in decodedFrames, at most maxFrames of them, and every header found except the last is decoded or counted once as a rejection |
| Ld2460Decode.DecodeFacts | src/devices/kinds/ld2460Radar/ld2460Decode.js:26-144 | every decoded frame passed all checks and is well formed, decodedFrames equals the frame count, scannedBytes the buffer length, the count stays within maxFrames, and the counters add up |
| Ld2460Decode.DroppedBeforeFirstFrame | src/devices/kinds/ld2460Radar/ld2460Decode.js:58-131 | once a frame is decoded, droppedBytes is the offset of the first frame, an accepted header |
| Ld2460Decode.LoopExitStops | src/devices/kinds/ld2460Radar/ld2460Decode.js:142-144 | once fewer than 4 bytes remain or maxFrames frames are decoded, the rest of the buffer is the remainder |
| Ld2460Decode.NoHeaderStops | src/devices/kinds/ld2460Radar/ld2460Decode.js:46-53 | when no further header follows, the scan returns the last min(len, 3) bytes as remainder |
| Ld2460Decode.TruncatedStops | src/devices/kinds/ld2460Radar/ld2460Decode.js:58-88 | a header whose length word or packet runs past the end is counted, ends the scan and starts the remainder; droppedBytes is its offset only if no frame came before |
| Ld2460Decode.RejectSkips | src/devices/kinds/ld2460Radar/ld2460Decode.js:66-100 | a wrong function code, length or tail is counted in its counter and the scan resumes one byte after the header |
| Ld2460Decode.AcceptAdvances | src/devices/kinds/ld2460Radar/ld2460Decode.js:102-139 | an accepted frame is recorded and counted, droppedBytes becomes its offset if it is the first, and the scan resumes packetLen bytes on |
| Ld2460Decode.NoHeader | src/devices/kinds/ld2460Radar/ld2460Decode.js:46-53 | without any header, no frame is decoded, the last min(len, 3) bytes remain and the rest is dropped |
| Ld2460Decode.FrameThenNoise | src/devices/kinds/ld2460Radar/ld2460Decode.js:46-53 | one frame followed by header-free bytes: as written droppedBytes is all but the last three bytes, corrected it is 0 |
| Ld2460Decode.SingleFrame | src/devices/kinds/ld2460Radar/ld2460Decode.js:26-144 | a buffer holding exactly one accepted packet decodes to that frame with nothing left over or dropped |
| Ld2460Decode.ScanOnce | src/devices/kinds/ld2460Radar/ld2460Decode.js:44-139 | one pass of the loop body returns what the scan returns, or moves to loop variables from which the scan has the same result |
| Ld2460Decode.DecodeTrackingFrames | src/devices/kinds/ld2460Radar/ld2460Decode.js:26-145 | corrected: the scanning loop returns the corrected scan's (see Findings, ld2460Decode.js:46-53) remainder, droppedBytes and stats, and the frames decoded at the offsets the scan records |
| Ld2460Decode.Decode | src/devices/kinds/ld2460Radar/ld2460Decode.js:26-145 | corrected (see Findings): decodedFrames counts the decoded frames, scannedBytes is the buffer's length, and no frame is decoded once maxFrames are reached |
| Ld2460Decode.DecodeAsWritten | src/devices/kinds/ld2460Radar/ld2460Decode.js:26-145 | as written: decodedFrames counts the decoded frames, scannedBytes is the buffer's length, and no frame is decoded once maxFrames are reached |
| Ld2460Decode.OptionsOf | src/devices/kinds/ld2460Radar/ld2460Decode.js:157-161 | without an options object, rule nonzeroXY, no frame limit, 4096 buffer bytes, noise threshold 32 and no stats |
| Ld2460Decode.Overflow | src/devices/kinds/ld2460Radar/ld2460Decode.js:186-201 | a carry within maxBufferBytes is untouched; a longer one is cut at its last header, or dropped whole without one, and the cut bytes are added to totalDropped |
| Ld2460Decode.NoteRejects | src/devices/kinds/ld2460Radar/ld2460Decode.js:218-231 | each rejection counter of the result is added to its total, with one report per nonzero counter |
| Ld2460Decode.Absorb | src/devices/kinds/ld2460Radar/ld2460Decode.js:212-257 | the carry becomes the remainder; totalDropped grows by droppedBytes unconditionally, totalFrames by the frames and each rejection total by its counter |
| Ld2460Decode.PushCarriesRemainder | src/devices/kinds/ld2460Radar/ld2460Decode.js:178-258 | after a push that reaches the decoder the carry is exactly the decoder's remainder, and the totals grow by its frames, dropped bytes and rejections |
| Ld2460Decode.PushShortCarryWaits | src/devices/kinds/ld2460Radar/ld2460Decode.js:203-205 | a carry shorter than seven bytes is kept whole and not decoded |
| Ld2460Decode.PushOverflowDropsAll | src/devices/kinds/ld2460Radar/ld2460Decode.js:186-194 | an overlong carry without any header is dropped whole, counted and reported, and nothing is decoded |
| Ld2460Decode.StreamDecoder.constructor | src/devices/kinds/ld2460Radar/ld2460Decode.js:147-161 | an empty carry, zero totals and the options read with their defaults |
| Ld2460Decode.StreamDecoder.Reset | src/devices/kinds/ld2460Radar/ld2460Decode.js:163-165 | the carry is emptied and the totals are kept |
| Ld2460Decode.StreamDecoder.GetState | src/devices/kinds/ld2460Radar/ld2460Decode.js:167-176 | carryBytes is the carry's length, with the five totals |
| Ld2460Decode.StreamDecoder.Push | src/devices/kinds/ld2460Radar/ld2460Decode.js:178-258 | corrected: a non-buffer is reported and changes nothing else; otherwise the state changes as PushStep says, which decodes with the corrected droppedBytes |
| Ld2460Decode.StreamDecoder.DropOverflow | src/devices/kinds/ld2460Radar/ld2460Decode.js:186-201 | the carry and totals change as Overflow says, and push stops exactly when an overlong carry has no header |
| Ld2460Decode.StreamDecoder.Emit | src/devices/kinds/ld2460Radar/ld2460Decode.js:212-257 | the totals, the events and the new carry are those of Absorb |
| Ld2460Decode.StreamDecoder.CountRejects | src/devices/kinds/ld2460Radar/ld2460Decode.js:218-231 | the rejection totals and reports change as NoteRejects says |
| Ld2460Decode.StreamDecoder.EmitFrames | src/devices/kinds/ld2460Radar/ld2460Decode.js:233-241 | one frame event per decoded frame, in order, each counted in totalFrames |
| Ld2410Decode.TargetStates | src/devices/kinds/ld2410/ld2410Decode.js:17-27 | a target is present exactly when its state is not 'none'; bytes above 3 are 'unknown', and the four defined states have distinct names |
| Ld2410Decode.EngineeringLayout | src/devices/kinds/ld2410/ld2410Decode.js:138-176 | the gate energies are read exactly when maxMovingGate + maxStaticGate < 17, with maxMovingGate + 1 moving and maxStaticGate + 1 static energies from payload offset 13 on, then light and outPin, all before the inner tail; otherwise the block carries engineering_layout_out_of_bounds |
| Ld2410Decode.DecodeEngineering | src/devices/kinds/ld2410/ld2410Decode.js:138-176 | the two gate loops collect exactly the energies EngineeringOf reads |
| Ld2410Decode.FrameAtShape | src/devices/kinds/ld2410/ld2410Decode.js:114-136 | each field sits at its fixed offset from the header, present holds exactly when the state byte is not 0, the engineering block exists exactly for a 35-byte engineering report, and raw is the whole frame exactly when includeRaw |
| Ld2410Decode.DecodeFrame | src/devices/kinds/ld2410/ld2410Decode.js:114-176 | the field reads and the engineering loops build exactly the frame at the header |
| Ld2410Decode.Verdicts | src/devices/kinds/ld2410/ld2410Decode.js:59-112 | a header is truncated exactly when its frame does not fit, and accepted exactly when the frame fits, the outer tail follows the payload and the payload has AA, a report length and 55 00 |
| Ld2410Decode.Reject | src/devices/kinds/ld2410/ld2410Decode.js:81-111 | each rejected header adds exactly one to badFooters, badLengths or badInner and leaves the other counters alone |
| Ld2410Decode.FramesApartAppend | src/devices/kinds/ld2410/ld2410Decode.js:178-181 | a frame starting at or after the end of the last one keeps the frames non-overlapping |
| Ld2410Decode.AppendKeeps | src/devices/kinds/ld2410/ld2410Decode.js:178-181 | recording an accepted frame keeps every recorded frame accepted, decoded at its own offset, non-overlapping and counted |
| Ld2410Decode.RejectKeeps | src/devices/kinds/ld2410/ld2410Decode.js:81-111 | counting a rejected header keeps the found headers equal to the decoded and rejected ones |
| Ld2410Decode.ScanKeeps | src/devices/kinds/ld2410/ld2410Decode.js:49-185 | the whole scan, as written or corrected, returns only accepted non-overlapping frames, counted in decodedFrames, and every header found but the last is decoded or rejected once |
| Ld2410Decode.DecodeFacts | src/devices/kinds/ld2410/ld2410Decode.js:29-186 | every decoded frame is accepted at its offset and decoded from it, frames do not overlap, decodedFrames is their count, scannedBytes the buffer length, at most one header found is uncounted, and no frame is added once maxFrames are reached |
| Ld2410Decode.DroppedBeforeFirstFrame | src/devices/kinds/ld2410/ld2410Decode.js:59-185 | once a frame is decoded, droppedBytes is the first frame's offset, whichever way the scan ends |
| Ld2410Decode.ScanOnce | src/devices/kinds/ld2410/ld2410Decode.js:50-181 | one pass of the loop body returns what the scan returns, or moves the cursor forward to where the scan continues |
| Ld2410Decode.DecodeReportFrames | src/devices/kinds/ld2410/ld2410Decode.js:29-186 | corrected: the scanning loop returns exactly the corrected Decode's frames, remainder, droppedBytes and stats (see Findings, ld2410Decode.js:52-54, 59-71 and 184-185) |
| Ld2410Decode.Decode | src/devices/kinds/ld2410/ld2410Decode.js:29-186 | corrected (see Findings): decodedFrames counts the decoded frames, scannedBytes is the buffer's length, and no frame is decoded once maxFrames are reached |
| Ld2410Decode.DecodeAsWritten | src/devices/kinds/ld2410/ld2410Decode.js:29-186 | as written: decodedFrames counts the decoded frames, scannedBytes is the buffer's length, and no frame is decoded once maxFrames are reached |
| Ld2410Decode.LoopExitStops | src/devices/kinds/ld2410/ld2410Decode.js:49-185 | once fewer than 12 bytes remain or maxFrames are reached, the scan returns: as written with an empty remainder, corrected with the unscanned bytes; droppedBytes is the first frame's offset or 0 |
| Ld2410Decode.NoHeaderStops | src/devices/kinds/ld2410/ld2410Decode.js:50-55 | without a further header, as written the remainder is empty and droppedBytes is the buffer length; corrected the last min(len, 3) bytes remain |
| Ld2410Decode.TruncatedStops | src/devices/kinds/ld2410/ld2410Decode.js:57-72 | a header whose frame does not fit is counted and ends the scan, with the remainder from that header on |
| Ld2410Decode.RejectSkips | src/devices/kinds/ld2410/ld2410Decode.js:74-112 | a header rejected by the tail, inner-framing or length check is counted once and the scan resumes one byte after it |
| Ld2410Decode.AcceptAdvances | src/devices/kinds/ld2410/ld2410Decode.js:114-181 | an accepted frame is decoded, appended and counted, and the scan resumes right after its outer length |
| Ld2410Decode.FirstFrameThenRest | src/devices/kinds/ld2410/ld2410Decode.js:178-185 | a frame followed by fewer than 12 bytes, or by more than maxFrames allow: as written those bytes are lost, corrected they are the remainder |
| Ld2410Decode.HeaderPrefixKept | src/devices/kinds/ld2410/ld2410Decode.js:50-55 | a header-free buffer ending in F4 F3 F2: as written all of it is dropped, corrected those three bytes are kept for the next chunk |
| Ld2410Decode.FrameThenTruncated | src/devices/kinds/ld2410/ld2410Decode.js:59-72 | a frame followed by a truncated header: as written droppedBytes counts the frame, corrected it is 0 |
| Ld2410Decode.OptionsOf | src/devices/kinds/ld2410/ld2410Decode.js:198-202 | without an options object: no raw bytes, no frame limit, 4096 buffer bytes, noise threshold 32 and no stats; includeRaw only for true |
| Ld2410Decode.Overflow | src/devices/kinds/ld2410/ld2410Decode.js:227-242 | a carry within maxBufferBytes is untouched; a longer one is cut at its last header, or dropped whole without one, and the cut bytes are added to totalDropped |
| Ld2410Decode.NoteDropped | src/devices/kinds/ld2410/ld2410Decode.js:251-257 | droppedBytes is added to totalDropped only when a frame was decoded, and nothing else changes but the events |
| Ld2410Decode.NoteRejects | src/devices/kinds/ld2410/ld2410Decode.js:259-272 | badFooters, badLengths and badInner are added to their totals, and nothing else changes but the events |
| Ld2410Decode.Absorb | src/devices/kinds/ld2410/ld2410Decode.js:251-296 | the carry becomes the remainder, and the frame, dropped and rejection totals grow by the result's counts |
| Ld2410Decode.PushCarriesRemainder | src/devices/kinds/ld2410/ld2410Decode.js:219-297 | after a push that reaches the decoder the carry is exactly the decoder's remainder, and the totals grow by its counts |
| Ld2410Decode.PushOverflowDropsAll | src/devices/kinds/ld2410/ld2410Decode.js:227-235 | an overlong carry without any header is dropped whole, counted and reported, and nothing is decoded |
| Ld2410Decode.PushShortCarryWaits | src/devices/kinds/ld2410/ld2410Decode.js:244 | a carry of fewer than ten bytes within maxBufferBytes is kept whole and nothing else changes |
| Ld2410Decode.StreamDecoder.constructor | src/devices/kinds/ld2410/ld2410Decode.js:188-202 | an empty carry, zero totals and the options read with their defaults |
| Ld2410Decode.StreamDecoder.Reset | src/devices/kinds/ld2410/ld2410Decode.js:204-206 | the carry is emptied and the totals are kept |
| Ld2410Decode.StreamDecoder.GetState | src/devices/kinds/ld2410/ld2410Decode.js:208-217 | carryBytes is the carry's length, with the five totals |
| Ld2410Decode.StreamDecoder.Push | src/devices/kinds/ld2410/ld2410Decode.js:219-297 | corrected: a non-buffer is reported and changes nothing else; otherwise the state changes as PushStep says, which decodes with the corrected scan |
| Ld2410Decode.StreamDecoder.DropOverflow | src/devices/kinds/ld2410/ld2410Decode.js:227-242 | the carry and totals change as Overflow says, and push stops exactly when an overlong carry has no header |
| Ld2410Decode.StreamDecoder.Emit | src/devices/kinds/ld2410/ld2410Decode.js:251-296 | the totals, the events and the new carry are those of Absorb |
| Ld2410Decode.StreamDecoder.CountDropped | src/devices/kinds/ld2410/ld2410Decode.js:251-257 | the state changes as NoteDropped says |
| Ld2410Decode.StreamDecoder.CountRejects | src/devices/kinds/ld2410/ld2410Decode.js:259-272 | the state changes as NoteRejects says |
| Ld2410Decode.StreamDecoder.EmitFrames | src/devices/kinds/ld2410/ld2410Decode.js:274-280 | one frame event per decoded frame, in order, each counted in totalFrames |
| Js.ClampByte | src/devices/kinds/ws2812Led/ws2812LedDevice.js:288-292 | non-finite numbers give 0; finite ones are rounded half up and clamped into [0, 255] |
| Js.ClampByteOfByte | src/domains/led/ledValidate.js:37-41 | a byte given as a number comes back unchanged |
| Coalesce.FirstSuch | src/utils/coalesce.js:17-22 | the scan returns one of its arguments or undefined |
| Coalesce.FirstSuchFirst | src/utils/coalesce.js:17-22 | the scan returns the value at the first accepted position, and undefined when no argument is accepted |
| Coalesce.CoalesceFirst | src/utils/coalesce.js:17-22 | coalesce returns the first argument that is neither null nor undefined, falsy values such as 0, false and '' included, and undefined when every argument is nullish |
| Coalesce.CoalesceNonEmptyFirst | src/utils/coalesce.js:39-44 | coalesceNonEmpty also passes over arguments whose string form trims to '', and returns the first other one, or undefined |
| Coalesce.CoalesceNonEmptyProvided | src/utils/coalesce.js:39-44 | whatever coalesceNonEmpty returns is undefined or an argument that is provided and not blank |
| Geometry.Rem360 | public/dev/radar-planner/geometry.js:6 | a % 360 has the sign of a, is smaller than a turn, and differs from a by whole turns |
| Geometry.NormalizeReal | public/dev/radar-planner/geometry.js:6-8 | the result lies in [0, 360) and is the Euclidean remainder of the angle by 360 |
| Geometry.Normalize | public/dev/radar-planner/geometry.js:3-9 | normalize returns a value in [0, 360), and 0 for a value that is not a finite number |
| Geometry.SameTurn | public/dev/radar-planner/geometry.js:3-9 | two normalised angles that differ by whole turns are equal |
| Geometry.NormalizeTurns | public/dev/radar-planner/geometry.js:3-9 | adding whole turns does not change normalize, and angles already in [0, 360) are left as they are |
| Geometry.WorldToSvgY | public/dev/radar-planner/geometry.js:13-15 | worldToSvgY(y) is -Number(y), infinities flipped and NaN kept |
| Geometry.WorldToSvgYTwice | public/dev/radar-planner/geometry.js:13-15 | flipping twice gives Number(y) back |
| Geometry.DisplayInternal | public/dev/radar-planner/geometry.js:19-25 | toDisplay(toInternal(x)) == normalize(x) |
| Geometry.InternalDisplay | public/dev/radar-planner/geometry.js:19-25 | toInternal(toDisplay(x)) == normalize(x) |
| Geometry.AngleDiffSigned | public/dev/radar-planner/geometry.js:38-42 | the result lies in (-180, 180] and points the same way as b - a |
| Geometry.AngleDiffUnique | public/dev/radar-planner/geometry.js:38-42 | it is the only angle in (-180, 180] pointing the same way as b - a |
| Geometry.AngleDiffSwap | public/dev/radar-planner/geometry.js:38-42 | swapping the angles negates the difference, except at the half turn |
| ShortId.Pow62 | src/utils/shortId.js:33 | 62 ** chars is at least 1, and at least 62 from one character on |
| ShortId.Pow62Monotone | src/utils/shortId.js:33 | more characters give a value space at least as large |
| ShortId.Zeros | src/utils/shortId.js:59 | the '0' padding has the requested length and only '0' characters |
| ShortId.PadStart | src/utils/shortId.js:59 | padStart gives max(width, length) characters and ends with the digits |
| ShortId.AlphabetDistinct | src/utils/shortId.js:2 | reading back the alphabet's d-th character gives d, so its characters are distinct |
| ShortId.Digits62Length | src/utils/shortId.js:51-57 | a number below 62^n has at most n base62 digits |
| ShortId.Digits62Long | src/utils/shortId.js:51-57 | a number of 62^n or more has more than n base62 digits |
| ShortId.FromZeros | src/utils/shortId.js:59 | leading '0' padding adds nothing to the value spelled |
| ShortId.FromDigits62 | src/utils/shortId.js:51-57 | reading the base62 digits back gives the number |
| ShortId.FromToBase62 | src/utils/shortId.js:51-60 | toBase62 is inverted at every width, padding included |
| ShortId.ToBase62Length | src/utils/shortId.js:51-60 | toBase62 fills exactly width characters exactly when the number is below 62^width |
| ShortId.ToBase62Injective | src/utils/shortId.js:51-60 | different numbers give different strings at the same width |
| ShortId.ToBase62Loop | src/utils/shortId.js:51-60 | the while loop and padStart compute toBase62 |
| ShortId.SlotsPerMs | src/utils/shortId.js:34 | every millisecond has at least one slot |
| ShortId.CharsOf | src/utils/shortId.js:28-31 | an omitted chars is 4; an accepted one is an integer of at least 2 |
| ShortId.Tick | src/utils/shortId.js:39-44 | after a call the last time is this millisecond and the counter lies below slotsPerMs |
| ShortId.SlotInjective | src/utils/shortId.js:46 | distinct (millisecond, counter) pairs give distinct values |
| ShortId.IterateCounts | src/utils/shortId.js:39-44 | within one millisecond the counter counts up from 0 |
| ShortId.SameMillisecondDistinct | src/utils/shortId.js:10-15 | within one millisecond the j-th and k-th calls (any j < k < slotsPerMs) take counters j and k and get distinct identifiers |
| ShortId.Id | src/utils/shortId.js:46-47 | the corrected identifier has exactly chars characters |
| ShortId.IdAsWritten | src/utils/shortId.js:46-47 | as written, the identifier reads back as the whole slot value, unwrapped, so it can be longer than chars |
| ShortId.SlotBelow | src/utils/shortId.js:37-46 | every value of the minute is below 60000 * slotsPerMs |
| ShortId.SlotFits | src/utils/shortId.js:33-46 | from three characters on, every value of the minute is below 62^chars |
| ShortId.IdOfSmall | src/utils/shortId.js:46-47 | a value inside the value space gives an id of exactly chars characters, the same as written and corrected |
| ShortId.IdFitsFromThreeChars | src/utils/shortId.js:33-47 | from three characters on the identifier is exactly chars long |
| ShortId.TwoCharIdTooLong | src/utils/shortId.js:33-47 | with two characters the value 3844 already spells a three-character id as written, two characters corrected |
| ShortId.Generator.constructor | src/utils/shortId.js:4-5 | lastTime starts at -1 and the counter at 0 |
| ShortId.Generator.Next | src/utils/shortId.js:28-48 | corrected: a refused chars raises the error and changes nothing; otherwise the state advances by Tick and the id is the corrected one (exactly chars characters, see Findings, shortId.js:33-47) for time * slotsPerMs + counter |
| RealSort.Insert | public/dev/presence/utils/statsWindow.js:32 | insertion adds exactly one value |
| RealSort.InsertSorted | public/dev/presence/utils/statsWindow.js:32 | insertion keeps a sorted sequence sorted |
| RealSort.SortAsc | public/dev/presence/utils/statsWindow.js:32 | the sorted copy is a permutation of the values |
| RealSort.SortAscSorted | public/dev/presence/utils/statsWindow.js:32 | the sorted copy is in ascending order |
| RealSort.SortedHeadLeast | public/dev/presence/utils/statsWindow.js:32 | a sorted sequence starts with its least value |
| RealSort.SortedUnique | public/dev/presence/utils/statsWindow.js:32 | two sorted sequences holding the same values are equal |
| RealSort.SortAscOrderFree | public/dev/presence/utils/statsWindow.js:32 | the sorted copy depends only on which values there are |
| StatsWindow.MaxNOf | public/dev/presence/utils/statsWindow.js:7 | a finite Number(maxN) is kept; anything else gives 200 |
| StatsWindow.Capacity | public/dev/presence/utils/statsWindow.js:16-18 | the window keeps ceil(maxN) values for a positive maxN and none otherwise |
| StatsWindow.SpliceKeeps | public/dev/presence/utils/statsWindow.js:16-18 | the truncated, clamped splice keeps exactly the last Capacity(maxN) values |
| StatsWindow.KeepAppend | public/dev/presence/utils/statsWindow.js:10-19 | trimming after every push is the same as keeping the tail of everything pushed, oldest dropped first |
| StatsWindow.Median | public/dev/presence/utils/statsWindow.js:30-36 | median is null exactly when the window is empty |
| StatsWindow.MedianOrderFree | public/dev/presence/utils/statsWindow.js:30-36 | the median depends only on which values the window holds |
| StatsWindow.MedianBetween | public/dev/presence/utils/statsWindow.js:30-36 | the median lies between two values of the window, and is one of them for an odd count |
| StatsWindow.Window.constructor | public/dev/presence/utils/statsWindow.js:6-8 | the window starts empty with maxN from MaxNOf |
| StatsWindow.Window.Push | public/dev/presence/utils/statsWindow.js:10-19 | a non-finite value changes nothing; a finite one is appended and the window holds the last Capacity(maxN) values pushed |
| StatsWindow.Window.Max | public/dev/presence/utils/statsWindow.js:21-28 | null exactly when empty, else a value of the window no smaller than any other |
| VirtualBinaryInput.Add | src/devices/protocols/virt/virtualBinaryInput.js:25 | adding keeps the handlers free of duplicates and holds the old ones and the new one |
| VirtualBinaryInput.Remove | src/devices/protocols/virt/virtualBinaryInput.js:27-29 | deleting removes exactly that handler, keeping the others |
| VirtualBinaryInput.RemoveAppended | src/devices/protocols/virt/virtualBinaryInput.js:24-30 | removing a handler added last is removing it from what came before |
| VirtualBinaryInput.RemoveAdd | src/devices/protocols/virt/virtualBinaryInput.js:24-30 | subscribing and then calling the returned function leaves the other handlers as they were |
| VirtualBinaryInput.AddTwice | src/devices/protocols/virt/virtualBinaryInput.js:25 | subscribing the same handler twice is subscribing once |
| VirtualBinaryInput.Notify | src/devices/protocols/virt/virtualBinaryInput.js:40-42 | each handler is called once, in subscription order, with the new level |
| VirtualBinaryInput.Input.constructor | src/devices/protocols/virt/virtualBinaryInput.js:19-22 | the level is Boolean(initial), false when omitted, with no handlers |
| VirtualBinaryInput.Input.Subscribe | src/devices/protocols/virt/virtualBinaryInput.js:24-25 | the handler is added once; the level is unchanged |
| VirtualBinaryInput.Input.Unsubscribe | src/devices/protocols/virt/virtualBinaryInput.js:27-29 | exactly that handler is removed |
| VirtualBinaryInput.Input.Set | src/devices/protocols/virt/virtualBinaryInput.js:32-43 | the level becomes Boolean(value); handlers are called only when it changed |
| VirtualBinaryInput.Input.Dispose | src/devices/protocols/virt/virtualBinaryInput.js:45-47 | every handler is dropped; the level is kept |
| AssociationEngine.GateOf | src/domains/presence/tracking/associationEngine.js:6 | a gate of 0 or NaN becomes 9.21 |
| AssociationEngine.Divisor | src/domains/presence/tracking/associationEngine.js:24-29 | a missing, 0 or NaN variance counts as 1, and the divisor is at least 1 |
| AssociationEngine.D2 | src/domains/presence/tracking/associationEngine.js:26-29 | the normalised squared distance is never negative |
| AssociationEngine.BestFromKeeps | src/domains/presence/tracking/associationEngine.js:20-35 | the rest of the scan keeps the best so far the gated minimum, first on ties |
| AssociationEngine.BestIsGatedMinimum | src/domains/presence/tracking/associationEngine.js:16-35 | a track takes the strictly smallest gated d2 among unused measurements, the first index on ties, and none exactly when no unused measurement is in the gate |
| AssociationEngine.Picks | src/domains/presence/tracking/associationEngine.js:16-41 | one decision per track, in track order |
| AssociationEngine.MapSet | src/domains/presence/tracking/associationEngine.js:39 | Map.set stores the new entry, keeps the entries of other keys and keeps keys unique |
| AssociationEngine.UnassignedExact | src/domains/presence/tracking/associationEngine.js:43-47 | unassignedMeas holds exactly the unused indices, strictly ascending |
| AssociationEngine.PicksSound | src/domains/presence/tracking/associationEngine.js:21-40 | every assignment is inside the gate for its track, and no measurement goes to two tracks |
| AssociationEngine.EntriesIds | src/domains/presence/tracking/associationEngine.js:37-40 | every Map entry belongs to one of the tracks |
| AssociationEngine.MapSetNew | src/domains/presence/tracking/associationEngine.js:39 | setting a new key appends it |
| AssociationEngine.AssignsDistinct | src/domains/presence/tracking/associationEngine.js:37-40 | with distinct track ids the Map holds each assigned track's measurement, in track order |
| AssociationEngine.Partition | src/domains/presence/tracking/associationEngine.js:37-47 | a measurement is listed as unassigned exactly when no track took it |
| AssociationEngine.Engine.constructor | src/domains/presence/tracking/associationEngine.js:5-7 | the gate is GateOf(gateD2Max) |
| AssociationEngine.Engine.BestFor | src/domains/presence/tracking/associationEngine.js:17-35 | the inner loop computes the track's best index |
| AssociationEngine.Engine.Associate | src/domains/presence/tracking/associationEngine.js:9-50 | the two loops compute the Map and the unassigned list of the picks |
| LogicalClock.FreezeAt | src/clock/clock.js:34-40 | freezing stops logical time at its current reading for every later real instant; freezing a frozen clock changes nothing |
| LogicalClock.ResumeAt | src/clock/clock.js:42-49 | resuming continues from the frozen instant with no jump; resuming a running clock changes nothing |
| LogicalClock.SetNowAt | src/clock/clock.js:51-61 | the clock reads the given instant at once, then stands still when frozen or runs on from it |
| LogicalClock.AdvanceBy | src/clock/clock.js:63-72 | every later reading is ms further on, frozen or not, and nothing else changes |
| LogicalClock.FreezeThenResume | src/clock/clock.js:34-49 | a freeze followed by a resume drops exactly the real time spent frozen |
| LogicalClock.Parts | src/clock/clock.js:79-91 | the parts exist exactly for instants a Date can hold; the weekday is 1..7, the hour 0..23, the minute 0..59 |
| LogicalClock.WeekdayOfDay | src/clock/clock.js:83-84 | the weekday of a day number lies in 1..7 |
| LogicalClock.WeekdayOfNextDay | src/clock/clock.js:83-84 | the day after moves the weekday on by one, 7 wrapping to 1 |
| LogicalClock.WeekdayNextDay | src/clock/clock.js:84 | one day later the weekday moves on by one, Sunday (7) wrapping to Monday (1) |
| LogicalClock.MondayIsOne | src/clock/clock.js:84 | weekday 1 falls exactly on the days 4, 11, 18, ... after the epoch, the Mondays |
| LogicalClock.MinuteOfDay | src/clock/clock.js:79-91 | hour * 60 + minute is the number of whole minutes since local midnight, within 0..1439 |
| LogicalClock.Clock.constructor | src/clock/clock.js:9-16 | the clock runs with no offset, and its time-zone offset is the given minutes, 480 by default, in ms |
| LogicalClock.Clock.Freeze | src/clock/clock.js:34-40 | the clock state becomes FreezeAt of the old one; a change is notified only when the clock was running |
| LogicalClock.Clock.Resume | src/clock/clock.js:42-49 | the clock state becomes ResumeAt of the old one; a change is notified only when the clock was frozen |
| LogicalClock.Clock.SetNowMs | src/clock/clock.js:51-61 | the clock state becomes SetNowAt of the old one, and the change notified reads the new instant |
| LogicalClock.Clock.Advance | src/clock/clock.js:63-72 | the clock state becomes AdvanceBy of the old one, and the change notified carries deltaMs and the old reading plus ms |
| LogicalClock.Clock.SetTzOffsetMinutes | src/clock/clock.js:74-77 | only the time-zone offset changes, to minutes in ms, and a tzChanged change is notified |
| TimeScheduler.Arm | src/core/timeScheduler.js:131-151 | only the handle changes; an armed timer waits max(0, atMs - now), and a timer is left unarmed exactly when the clock is frozen and it is not yet due |
| TimeScheduler.SetProp | src/core/timeScheduler.js:170-174 | the spread payload maps the key to the new value and every other key to its old value |
| TimeScheduler.FirePayload | src/core/timeScheduler.js:161-175 | the fired payload carries the timer's token and atMs, over any such key of its own, and every other key of its own payload unchanged |
| TimeScheduler.FrozenScheduleArmsRealTimeout | src/core/timeScheduler.js:39-53 | with the clock frozen, scheduling 1200 ms ahead as written arms a real 1200 ms timeout; passing the frozen flag leaves it unarmed |
| TimeScheduler.ArmKeepsQuiet | src/core/timeScheduler.js:131-151 | arming with the frozen flag keeps a frozen scheduler free of real-time delays |
| TimeScheduler.Scheduler.constructor | src/core/timeScheduler.js:15-23 | no timers, and listening to the clock |
| TimeScheduler.Scheduler.ScheduleAt | src/core/timeScheduler.js:39-53 | the new timer is filed under the returned token and armed for the clock's reading and frozen flag; other timers are kept; a quiet frozen scheduler stays quiet |
| TimeScheduler.ArmOnScheduleAsWritten | src/core/timeScheduler.js:39-53 | as written, scheduleAt always arms a real timeout for the time left, frozen clock or not |
| TimeScheduler.Scheduler.ScheduleIn | src/core/timeScheduler.js:67-70 | the timer is scheduled at now + delayMs |
| TimeScheduler.Scheduler.Cancel | src/core/timeScheduler.js:80-95 | a null or empty token changes nothing; a known token's timer is removed and no other timer changes |
| TimeScheduler.Scheduler.Dispose | src/core/timeScheduler.js:103-116 | the scheduler stops listening and holds no timer |
| TimeScheduler.Scheduler.RescheduleAll | src/core/timeScheduler.js:118-129 | the same timers remain, each re-armed for the clock as it reads now; afterwards a frozen scheduler is quiet |
| TimeScheduler.Scheduler.Fire | src/core/timeScheduler.js:153-176 | an unknown token publishes nothing; a filed timer is removed before its event is published, so it fires at most once |
| RuleEngine.InsertByPriority | src/core/ruleEngine.js:5 | inserting adds exactly the one rule |
| RuleEngine.SortByPriority | src/core/ruleEngine.js:5 | the sorted rules are a permutation of the configured ones |
| RuleEngine.InsertByPriorityOrdered | src/core/ruleEngine.js:5 | inserting into rules in ascending priority keeps them ascending |
| RuleEngine.SortByPriorityOrdered | src/core/ruleEngine.js:5 | the sorted rules are in ascending priority, a missing priority counting as 100 |
| RuleEngine.WithPriority | src/core/ruleEngine.js:5 | the rules of one priority are taken from the input |
| RuleEngine.InsertWithPriority | src/core/ruleEngine.js:5 | inserting a rule adds it in front of the rules of its own priority and leaves the other priorities' rules as they were |
| RuleEngine.SortByPriorityStable | src/core/ruleEngine.js:5 | the sort is stable: the rules of each priority keep their configured order |
| RuleEngine.NewEngine | src/core/ruleEngine.js:4-6 | the engine holds the configured rules in ascending priority, equal priorities in configured order |
| RuleEngine.ParseHHMMAsWritten | src/core/ruleEngine.js:83-105 | as written, a parsed time of day lies in 0..1439, so "24:00" is refused |
| RuleEngine.ParseHHMMAsWrittenExact | src/core/ruleEngine.js:83-105 | as written, a string parses to m exactly when it is the two-digit "HH:MM" rendering of m |
| RuleEngine.ParseHHMM | src/core/ruleEngine.js:83-105 | corrected (see Findings): a parsed time lies in 0..1440, and it is 1440 exactly for "24:00" |
| RuleEngine.ParseHHMMExact | src/core/ruleEngine.js:83-105 | corrected (see Findings): a string parses to m exactly when it is the two-digit "HH:MM" rendering of m, or "24:00" and m is 1440 |
| RuleEngine.OvernightIsComplement | src/core/ruleEngine.js:75-80 | an overnight range admits exactly the minutes the day range with its ends swapped does not |
| RuleEngine.RangeMatchesBy | src/core/ruleEngine.js:62-81 | for a given reading of times, a null or undefined range throws; otherwise the range matches exactly when both ends parse and the minute lies in the range |
| RuleEngine.RangeMatches | src/core/ruleEngine.js:62-81 | with the corrected time parse, a null or undefined range throws; otherwise the range matches exactly when both ends parse and the minute lies in the range, equal ends admitting every minute |
| RuleEngine.EndOfDayRangeNeverMatches | src/core/ruleEngine.js:100-102 | as written, the range 00:00-24:00 never matches, since 24 is not an hour of the day |
| RuleEngine.EndOfDayRangeMatchesAll | src/core/ruleEngine.js:62-81 | corrected, the range 00:00-24:00 matches every minute of the day |
| RuleEngine.AnyRangeMatchesSpec | src/core/ruleEngine.js:53 | corrected (the 24:00 parse of ruleEngine.js:100-102, see Findings): some() is true exactly when a range matches after every earlier range was refused, and false exactly when every range is refused; a range that throws before a match makes the call throw |
| RuleEngine.NoConditionsMatch | src/core/ruleEngine.js:38-60 | a rule without conditions, or with no zone and empty weekday and time-range lists, matches in every context |
| RuleEngine.ZoneMustAgree | src/core/ruleEngine.js:41-43 | a rule for one zone never matches in another |
| RuleEngine.SelectFirstMatch | src/core/ruleEngine.js:22-36 | corrected (the 24:00 parse of ruleEngine.js:100-102, see Findings): the first enabled matching rule wins with its id and actions; when every rule is passed over the selection is null, null |
| RuleEngine.PriorityChosen | src/core/ruleEngine.js:4-36 | corrected (the 24:00 parse of ruleEngine.js:100-102, see Findings): no enabled matching rule has a smaller priority than the one chosen |
| CharlieCore.Classify | src/core/charlieCore.js:93-120 | a presence event without a payload throws; each time type goes to its handler; any other type is ignored |
| CharlieCore.PresenceOf | src/core/charlieCore.js:133-147 | BOTH, FRONT_ONLY, BACK_ONLY and NONE each hold exactly for their combination of the two zone flags |
| CharlieCore.WithPresence | src/core/charlieCore.js:122-131 | only the named zone's flag changes, and a zone other than front or back changes nothing |
| CharlieCore.WithToken | src/core/charlieCore.js:371-388 | the token of one kind is set and the other two are kept |
| CharlieCore.CancelOne | src/core/charlieCore.js:371-388 | a live token of the kind is cancelled in the scheduler and forgotten; without one nothing changes |
| CharlieCore.CancelUnowned | src/core/charlieCore.js:342-362 | each case of the transition cancels the live timer of a kind the new state does not own, and nothing else |
| CharlieCore.Transition | src/core/charlieCore.js:334-363 | the new state is set, and the version moves on by one exactly on a real change; a transition to the current state changes nothing |
| CharlieCore.TransitionTimers | src/core/charlieCore.js:334-363 | a real transition removes exactly the live timers the new state does not own |
| CharlieCore.TransitionTokens | src/core/charlieCore.js:334-363 | a real transition forgets exactly those timers' tokens and changes nothing else of the core but its state and version |
| CharlieCore.TransitionClears | src/core/charlieCore.js:334-363 | after a real transition the core holds no timer token |
| CharlieCore.TransitionInv | src/core/charlieCore.js:334-363 | entering a new state keeps the invariant when the session fields already suit it |
| CharlieCore.Schedule | src/core/charlieCore.js:215-220 | the kind's token is the new one, naming a timer due after its configured delay |
| CharlieCore.ScheduleInv | src/core/charlieCore.js:215-220 | scheduling the current state's own timer keeps the invariant |
| CharlieCore.CancelInv | src/core/charlieCore.js:371-388 | cancelling or forgetting a token keeps the invariant |
| CharlieCore.ContextAt | src/core/charlieCore.js:395-404 | the rule context has weekday 1..7 and a minute of the day 0..1439, and the front zone wins when both are present |
| CharlieCore.Forget | src/core/charlieCore.js:231 | the kind's token is dropped and the scheduler's timers are untouched |
| CharlieCore.PresenceChangedInv | src/core/charlieCore.js:149-191 | reacting to a presence change keeps the invariant |
| CharlieCore.TimeExpiredInv | src/core/charlieCore.js:223-332 | a time event keeps the invariant, whether current or stale |
| CharlieCore.StepInvBefore | src/core/charlieCore.js:93-120 | every step keeps the invariant from what it needs beforehand |
| CharlieCore.StepInv | src/core/charlieCore.js:93-120 | every event the core handles keeps the invariant, whether it acts, ignores the event or throws |
| CharlieCore.RemoveForeignInv | src/core/timeScheduler.js:159 | removing a timer the core holds no token for keeps the invariant |
| CharlieCore.FiredTimerKeepsInv | src/core/timeScheduler.js:153-176 | a fired timer's event is handled without throwing, and the core's invariant holds afterwards |
| CharlieCore.FiredInvBefore | src/core/timeScheduler.js:153-176 | a fired event meets what its step needs once the scheduler has removed the timer |
| CharlieCore.FiredTimeEvent | src/core/charlieCore.js:390-393 | a fired timer the core holds a token for carries the current version |
| CharlieCore.FiredOtherEvent | src/core/timeScheduler.js:159 | a fired timer of another type is not one the core holds |
| CharlieCore.ForgetFiredInv | src/core/charlieCore.js:231 | removing the timer a token names and forgetting the token keeps the invariant |
| CharlieCore.StaleTimeEventIgnored | src/core/charlieCore.js:390-393 | a time event of another version changes nothing and makes no call |
| CharlieCore.StepVersion | src/core/charlieCore.js:334-341 | in each step the version moves on exactly when the state changes |
| CharlieCore.PresenceVersion | src/core/charlieCore.js:149-191 | a presence change moves the version on exactly when the state changes |
| CharlieCore.TimeVersion | src/core/charlieCore.js:223-332 | a timer handler moves the version on exactly when the state changes |
| CharlieCore.EnterArmingIff | src/core/charlieCore.js:193-221 | corrected (the 24:00 parse of ruleEngine.js:100-102, see Findings): in IDLE, an entry leads to ARMING exactly when a rule selects a mode, with the arming timer then due after its delay; otherwise only the presence changes |
| CharlieCore.ExitConfirmScheduledOnce | src/core/charlieCore.js:165-179 | in ACTIVE with nobody present, the exit-confirm timer is scheduled once, and a further exit changes nothing |
| CharlieCore.ReturnCancelsExitConfirm | src/core/charlieCore.js:181-183 | someone coming back while ACTIVE cancels a pending exit confirmation |
| CharlieCore.ExitConfirmStops | src/core/charlieCore.js:283-318 | the current exit-confirm timer with nobody present stops the conversation with reason no_presence and enters COOLDOWN, its timer due after the cooldown |
| CharlieCore.ExitConfirmStopsAt | src/core/charlieCore.js:299-317 | the stopping branch clears the session, enters COOLDOWN, schedules the cooldown, and calls stop only when a session was active |
| CharlieCore.ArmingStarts | src/core/charlieCore.js:223-281 | corrected (the 24:00 parse of ruleEngine.js:100-102, see Findings): the current arming timer with someone present and a mode selected starts the conversation in that mode and enters ACTIVE |
| CharlieCore.CallsBracketActive | src/core/charlieCore.js:223-318 | a start is made exactly on entering ACTIVE, from ARMING, and a stop only on leaving ACTIVE for COOLDOWN |
| CharlieCore.InvReady | src/core/charlieCore.js:93-120 | the invariant gives every bus event what its step needs |
| CharlieCore.Core.constructor | src/core/charlieCore.js:30-58 | IDLE at version 0, nobody present, no tokens, no session, the rules sorted once, and subscribed |
| CharlieCore.Core.GetSnapshot | src/core/charlieCore.js:66-78 | a valid core reports a session, with a mode, exactly in ACTIVE, and presence NONE exactly when neither zone is present |
| CharlieCore.Core.Dispose | src/core/charlieCore.js:84-91 | unsubscribes and cancels every timer held, keeping the invariant |
| CharlieCore.Core.HandleEvent | src/core/charlieCore.js:93-120 | corrected (the 24:00 parse of ruleEngine.js:100-102, see Findings): a presence event without a payload throws before anything changes; every other event is the pure step, and the invariant holds afterwards |
| CharlieCore.Core.SetPresence | src/core/charlieCore.js:122-131 | the core becomes WithPresence of the old one |
| CharlieCore.Core.OnPresenceChanged | src/core/charlieCore.js:149-191 | the core and the timers become PresenceChanged of the old ones |
| CharlieCore.Core.MaybeEnterArming | src/core/charlieCore.js:193-221 | corrected (the 24:00 parse of ruleEngine.js:100-102, see Findings): the core and the timers become EnterArmingIfSelected of the old ones |
| CharlieCore.Core.OnArmingExpired | src/core/charlieCore.js:223-281 | corrected (the 24:00 parse of ruleEngine.js:100-102, see Findings): a stale event changes nothing; a current one forgets the arming token and then starts or goes back to IDLE as ArmingExpired says |
| CharlieCore.Core.StartIfSelected | src/core/charlieCore.js:242-280 | corrected (the 24:00 parse of ruleEngine.js:100-102, see Findings): the selection starts the conversation and enters ACTIVE, or returns to IDLE without a mode, as ArmingExpired says |
| CharlieCore.Core.OnExitConfirmExpired | src/core/charlieCore.js:283-318 | a stale event changes nothing; a current one forgets the exit-confirm token and then acts as ExitConfirmExpired says |
| CharlieCore.Core.StopForNoPresence | src/core/charlieCore.js:299-317 | the stop branch has the effect ExitConfirmExpired gives it |
| CharlieCore.Core.OnCooldownExpired | src/core/charlieCore.js:320-332 | a stale event changes nothing; a current one forgets the cooldown token and returns from COOLDOWN to IDLE |
| CharlieCore.Core.TransitionTo | src/core/charlieCore.js:334-363 | the core and the timers become Transition of the old ones |
| CharlieCore.Core.CancelAllTimers | src/core/charlieCore.js:365-369 | each of the three tokens is cancelled in turn |
| CharlieCore.Core.CancelTimer | src/core/charlieCore.js:371-388 | the core and the timers become CancelOne of the old ones |
| CharlieCore.Core.ScheduleTimer | src/core/charlieCore.js:215-220 | the scheduler files the kind's timer with the current version and the core holds its token |
| CharlieCore.DeliverTimer | src/core/timeScheduler.js:153-176 | whichever timer fires, the core's invariant holds after it handles the event; an unknown token changes nothing |
| Gpio.PullOf | src/gpio/gpio.js:536-540 | down, pulldown, pull-down and pud_down give pull-down; the up and off aliases likewise; every other string gives 'as-is' |
| Gpio.EdgeOf | src/gpio/gpio.js:549-553 | the rising and falling aliases give rising and falling; every other string gives 'either' |
| Gpio.MapPullName | src/gpio/gpio.js:530-541 | each pull value the backend understands maps to itself |
| Gpio.MapEdgeName | src/gpio/gpio.js:543-554 | each edge value maps to itself |
| Gpio.NormalInsensitive | src/gpio/gpio.js:530-554 | both mappings give the same result for a string and its trimmed, lower-cased form |
| Gpio.LineOf | src/gpio/gpio.js:169-172 | the line is refused exactly when Number(line) is NaN |
| Gpio.Line.Create | src/gpio/gpio.js:166-193 | a NaN line throws; otherwise the pull comes from opts.pullUpDown ?? opts.pull and the edge from opts.edge |
| Gpio.Line.constructor | src/gpio/gpio.js:166-193 | the line, pull and edge are the given ones |
| Gpio.Line.SetPull | src/gpio/gpio.js:290-294 | pullUpDown(pull) stores the mapped pull and keeps the edge |
| Gpio.Line.SetEdge | src/gpio/gpio.js:315-319 | edge(edge) stores the mapped edge and keeps the pull |
| UsbInventory.NormalizeHex | src/devices/usbInventory.js:7-12 | blank (after String, trim, lower case) gives null; otherwise the lowered text with a leading 0x removed, and unchanged without one |
| UsbInventory.NormalizeSerial | src/devices/usbInventory.js:14-17 | null exactly when the trimmed text is blank, else the trimmed text |
| UsbInventory.NormalizeIface | src/devices/usbInventory.js:19-25 | a value exactly when the lowered text is two hexadecimal digits, and then that text |
| UsbInventory.NormalizeUsbId | src/devices/usbInventory.js:307-330 | a non-object is INVALID_USB_ID; every error is INVALID_USB_ID; a normalised id has non-empty vid and pid, a non-empty serial when present and a two-character iface when present |
| UsbInventory.MakeKeyInjective | src/devices/usbInventory.js:43-49 | two well-formed identities with the same vid:pid:serial:iface key are equal |
| UsbInventory.KeyMatchesAnswers | src/devices/usbInventory.js:172-198 | the key tests of the lookup loop accept a stored key exactly when the stored identity agrees with the wanted vid, pid, and serial and iface where given |
| UsbInventory.VidPidPrefix | src/devices/usbInventory.js:172-176 | a key starts with vid:pid: exactly when the identity has that vid and pid |
| UsbInventory.SerialPrefix | src/devices/usbInventory.js:178-181 | a key starts with vid:pid:serial: exactly when the identity has that vid, pid and serial |
| UsbInventory.EndsWithIface | src/devices/usbInventory.js:193-196 | a key ends with :iface exactly when the identity has that iface |
| UsbInventory.Signature | src/devices/usbInventory.js:51-73 | the endpoint signature is a permutation of the endpoints |
| UsbInventory.SignatureSorted | src/devices/usbInventory.js:66-70 | the signature is ordered by the serialPath/ttyPath/platform sort key |
| UsbInventory.SignatureOrderFree | src/devices/usbInventory.js:51-73 | two endpoint lists that are permutations of each other give the same signature, provided endpoints sharing a sort key are identical |
| UsbInventory.SortedUniqueByKey | src/devices/usbInventory.js:66-70 | two sorted permutations of each other are equal when the sort key determines the endpoint |
| UsbInventory.FirstPath | src/devices/usbInventory.js:209-212 | the chosen path is the first non-empty serialPath: every earlier endpoint has none, and null only when no endpoint has one |
| UsbInventory.ResolveAnswers | src/devices/usbInventory.js:167-213 | USB_NOT_FOUND exactly when no stored device answers the wanted identity; a found path comes from a device that answers it |
| UsbInventory.Inventory.ResolveSerialPath | src/devices/usbInventory.js:167-213 | the lookup returns the normalisation error, or the not-found / ambiguous / path result of the specification over the stored devices |
| UsbInventory.Inventory.constructor | src/devices/usbInventory.js:114-128 | a new inventory stores no device |
| UsbInventory.Inventory.CollectMatches | src/devices/usbInventory.js:174-199 | the loop collects exactly the stored devices whose key passes the tests, in map order |
| UsbInventory.Inventory.KeyTest | src/devices/usbInventory.js:176-198 | the chain of continue tests accepts exactly the keys that match the wanted identity |
| UsbInventory.RemoveGone | src/devices/usbInventory.js:274-279 | the kept devices are exactly the stored ones whose key is in the new scan |
| UsbInventory.RemoveGoneDetaches | src/devices/usbInventory.js:274-279 | every stored device missing from the new scan emits a detached event |
| UsbInventory.DiffMirrorsNext | src/devices/usbInventory.js:273-305 | after the diff the stored keys are exactly the new scan's keys, unique, and each stored signature is the new scan's |
| UsbInventory.Diff | src/devices/usbInventory.js:273-305 | with unique stored keys, the stored keys after the diff are unique and exactly the new scan's keys |
| UsbInventory.KeptKeys | src/devices/usbInventory.js:274-279 | the first loop keeps only keys the new scan has |
| UsbInventory.DiffQuietWhenUnchanged | src/devices/usbInventory.js:281-303 | with every key made from its device's identity, a device in both scans with an equal signature emits no event under its key |
| UsbInventory.AddAllChangedAdjacent | src/devices/usbInventory.js:295-303 | in the second loop a changed device's detached event is immediately followed by its attached event |
| UsbInventory.AddAllEventKinds | src/devices/usbInventory.js:280-304 | the second loop emits only events of devices that are new or whose signature changed |
| UsbInventory.RemoveGoneEventKinds | src/devices/usbInventory.js:274-279 | the first loop emits only the detached events of devices missing from the new scan |
| UsbInventory.DiffEvents | src/devices/usbInventory.js:273-305 | a vanished device emits detached, a new device emits attached, a device whose signature changed emits detached for the old identity immediately followed by attached for the new, and every event is one of these three kinds |
| UsbInventory.AddAllUntouched | src/devices/usbInventory.js:281-304 | the second loop leaves a stored device alone when the new scan does not name its key |
| UsbInventory.Inventory.DiffAndApply | src/devices/usbInventory.js:273-305 | keeps the keys unique and sets the stored devices and the emitted events to those of the diff specification |
| UsbInventory.Inventory.DeleteGone | src/devices/usbInventory.js:274-279 | the first loop computes the kept devices and detached events of the specification |
| UsbInventory.Inventory.AddNext | src/devices/usbInventory.js:281-304 | the second loop computes the stored devices and events of the specification |
| UsbInventory.Inventory.Dispose | src/devices/usbInventory.js:144-152 | forgets every stored device |
| CliParser.Parse | src/cli/cliParser.js:22-29 | a line that is blank after String and trim parses to the empty command, and only such a line does |
| CliParser.ParseTokens | src/cli/cliParser.js:31-37 | never empty; help exactly for a first token help, exit exactly for exit or quit; any first token outside the known commands gives the unknown-command error |
| CliParser.KnownFirstToken | src/cli/cliParser.js:39-213 | a known first token never yields the unknown-command error, whatever follows it |
| CliParser.ParseInject | src/cli/cliParser.js:39-53 | injectOn, injectOff and injectStatus exactly for on, off and status; anything else is the inject usage error |
| CliParser.ParseTap | src/cli/cliParser.js:55-84 | tapOn/tapOff/tapStatus exactly for a known bus followed by on/off/status, carrying that bus; otherwise an error |
| CliParser.ParsePresence | src/cli/cliParser.js:86-103 | a presence command exactly for front or back followed by on or off, present being whether it is on; otherwise the presence usage error |
| CliParser.ParseVibration | src/cli/cliParser.js:105-113 | a vibration command exactly for low or high, with that level; otherwise the usage error |
| CliParser.ParseButton | src/cli/cliParser.js:115-123 | a button command exactly for short or long, with that press type; otherwise the usage error |
| CliParser.AdvanceMs | src/cli/cliParser.js:141-147 | an advance is only ever a non-negative number (NaN and negative values are refused) |
| CliParser.AdvanceOfNat | src/cli/cliParser.js:141-148 | `+N` for a natural number N is read back as exactly N milliseconds |
| CliParser.ParseClock | src/cli/cliParser.js:125-163 | clockAdvance exactly for a token starting with + whose number is non-negative, else the +MS usage error; clockSet exactly for set with a date and a time token, carrying both |
| CliParser.ParseConfig | src/cli/cliParser.js:165-180 | configLoad exactly for load with a filename, carrying it; configPrint exactly for print; otherwise an error |
| CliParser.ParseCore | src/cli/cliParser.js:182-188 | coreState exactly for core state, otherwise the usage error |
| CliParser.ParseVirt | src/cli/cliParser.js:190-211 | virtList exactly for list; virtSet exactly for set with a sensor id and on or off, the value being whether it is on |
| CliParser.RenderWords | src/cli/cliParser.js:28 | every token of a typeable command is a word the /\s+/ split keeps whole |
| CliParser.ParseTokensRender | src/cli/cliParser.js:31-213 | the tokens that type any typeable command parse back to that command |
| CliParser.ParseRender | src/cli/cliParser.js:22-213 | parsing the line that types a command, tokens joined by one space, gives the command back |
| AppCliParser.Parse | src/app/cliParser.js:12-17 | a line that is blank after String and trim parses to the empty command, and only such a line does |
| AppCliParser.ParseTokens | src/app/cliParser.js:21-95 | help, exit/quit and state exactly for their first tokens; presence exactly for front or back followed by on or off; configLoad exactly for config load with a filename; an unknown first token is the unknown-command error |
| AppCliParser.ParseClock | src/app/cliParser.js:46-84 | clockAdvance exactly for +MS with a non-negative number; clockSet exactly for set with both a date and a time token, carrying them |
| AppCliParser.TimeIsClock | src/app/cliParser.js:45-46 | time is an alias of clock: any line starting with time parses as the same line starting with clock |
| AppCliParser.RenderWords | src/app/cliParser.js:18 | every token of a typeable command is a word |
| AppCliParser.ParseTokensRender | src/app/cliParser.js:21-95 | the tokens that type any typeable command parse back to that command |
| AppCliParser.ParseRender | src/app/cliParser.js:12-95 | parsing the line that types a command gives the command back |
| CliRecording.Comment | src/cli/recording/cliRecording.js:113-114 | the comment is absent exactly when the joined rest is blank after trimming, otherwise it is that trimmed text |
| CliRecording.Speed | src/cli/recording/cliRecording.js:158-166 | a missing or empty speed is no speed; a given speed is accepted exactly when its number is positive (NaN, zero and negatives are errors) |
| CliRecording.ParseRecording | src/cli/recording/cliRecording.js:99-186 | null exactly when the first token is not recording; status, record stop, play pause and play stop exactly for their tokens; a start carries a non-empty trimmed file and the trimmed comment; a load carries a non-empty file; any accepted speed is positive; an unknown operation is the usage error |
| CliRecording.ParseStart | src/cli/recording/cliRecording.js:107-142 | a start exactly when the trimmed file is non-empty, with the file and comment; otherwise the usage message given |
| CliRecording.ParsePlay | src/cli/recording/cliRecording.js:153-183 | pause and stop exactly for their tokens; resume exactly when the speed is absent or positive; a play start exactly for another non-empty file with an acceptable speed, carrying both |
| CliRecording.RecordIsStart | src/cli/recording/cliRecording.js:107-142 | record FILE (other than record stop) reads the file and comment exactly as start does, with its own usage message |
| CliRecording.SpeedOfToken | src/cli/recording/cliRecording.js:161-166 | a whole positive speed written as digits is read back as that speed |
| CliRecording.ParseRender | src/cli/recording/cliRecording.js:99-186 | the tokens that type any typeable recording operation parse back to it |
| CliCompleter.FilterPrefix | src/cli/cliCompleter.js:26-29 | the result holds exactly the options starting with the prefix, and no more of them than there are options |
| CliCompleter.FilterPrefixAppend | src/cli/cliCompleter.js:26-29 | filtering keeps the options' order: it distributes over concatenation |
| CliCompleter.Uniq | src/cli/cliCompleter.js:22-24 | the same members as the list, each once, and never longer |
| CliCompleter.UniqOfDistinct | src/cli/cliCompleter.js:22-24 | a list without repeats is returned unchanged |
| CliCompleter.Lookup | src/cli/cliCompleter.js:231-233 | absent exactly when no child has the key; a found node belongs to a child with that key |
| CliCompleter.LookupIndex | src/cli/cliCompleter.js:231 | the node found for a key is that of the first child with the key |
| CliCompleter.ChildrenNode | src/cli/cliCompleter.js:98-106 | the options given when non-empty, otherwise the children's keys in order |
| CliCompleter.TopKeys | src/cli/cliCompleter.js:108-191 | the command tree's options are the command names in their order |
| CliCompleter.DynamicOptions | src/cli/cliCompleter.js:31-77 | every dynamic option starts with the prefix; buses are the context's buses plus all; zones default to front and back; device ids are the non-empty configured ids |
| CliCompleter.NodeSuggestions | src/cli/cliCompleter.js:193-207 | every suggestion starts with the prefix |
| CliCompleter.Traverse | src/cli/cliCompleter.js:209-268 | every suggestion starts with the token being typed |
| CliCompleter.ChildSuggestions | src/cli/cliCompleter.js:237-264 | every suggestion below a known command starts with the token being typed |
| CliCompleter.ChildrenFallback | src/cli/cliCompleter.js:225-235 | with no earlier token, or an unknown first token, a children node offers its own options filtered by the current token |
| CliCompleter.TopLevelFallback | src/cli/cliCompleter.js:225-235 | at the top, no command yet or an unknown command offers the command names that start with the current token |
| CliCompleter.SequenceChild | src/cli/cliCompleter.js:237-241 | below a sequence command the offered node is the one at the number of tokens typed after the command |
| CliCompleter.SequenceGrandchild | src/cli/cliCompleter.js:248-259 | below a sub-command whose node is a sequence the position counts the tokens after the sub-command |
| CliCompleter.PresenceState | src/cli/cliCompleter.js:108-191 | `presence ZONE` then the current token offers on and off that start with it, whatever the zone |
| CliCompleter.DeviceInjectPayload | src/cli/cliCompleter.js:108-191 | `device inject ID` then the current token offers the sample payloads that start with it |
| CliCompleter.SplitTokens | src/cli/cliCompleter.js:11-20 | a trailing empty token exactly when the line ends in white space; every other token is a word; a blank line gives no token or only the empty one |
| CliCompleter.CurrentIsSuffix | src/cli/cliCompleter.js:278-282 | the token being typed is a suffix of the line, so head plus current is the line |
| CliCompleter.FullLinesExtend | src/cli/cliCompleter.js:284-287 | when head plus the current token is the typed line, a suggestion starting with the current token gives a full line starting with the typed line |
| CliCompleter.Complete | src/cli/cliCompleter.js:276-290 | returns the line itself as second part, one full line per suggestion, and every full line extends the typed line |
| ButtonEdge.OnLevel | src/devices/kinds/buttonEdge/buttonEdgeDevice.js:81-89 | the callback stores Boolean(value) as the last level and publishes exactly when enabled, the level is true and the last level was not true |
| ButtonEdge.PressesAreRisingEdges | src/devices/kinds/buttonEdge/buttonEdgeDevice.js:81-89 | over any run of levels a press is published at a position exactly when the device is enabled and the level rises there from a level that was not high |
| ButtonEdge.ReleaseBetweenPresses | src/devices/kinds/buttonEdge/buttonEdgeDevice.js:84-88 | between any two published presses the input was seen low at least once |
| ButtonEdge.PressOf | src/devices/kinds/buttonEdge/buttonEdgeDevice.js:133-146 | a press carries the clock's time, the device id and publishAs falling back to the id |
| ButtonEdge.Initial | src/devices/kinds/buttonEdge/buttonEdgeDevice.js:60-72 | a new device is enabled exactly when its configured state (active by default) is active, with no last level and no subscription |
| ButtonEdge.StartEdge | src/devices/kinds/buttonEdge/buttonEdgeDevice.js:74-80 | start subscribes and forgets the last level; a second start changes nothing |
| ButtonEdge.DisposeEdge | src/devices/kinds/buttonEdge/buttonEdgeDevice.js:92-101 | dispose drops the subscription and leaves the rest of the state alone |
| ButtonEdge.Deliver | src/devices/kinds/buttonEdge/buttonEdgeDevice.js:81-89 | while subscribed a level adds one press exactly on an enabled rising edge and is remembered; without a subscription nothing changes |
| ButtonEdge.SetInput | src/devices/kinds/buttonEdge/buttonEdgeDevice.js:126-129 | driving the virtual input to the level it has changes nothing; a new level reaches the callback |
| ButtonEdge.InjectCommand | src/devices/kinds/buttonEdge/buttonEdgeDevice.js:111-124 | a command whose type is not press is unsupported_command; a press on an input without set is inject_requires_settable_input; the hold time is Number(ms) when positive and 30 otherwise |
| ButtonEdge.InjectEdge | src/devices/kinds/buttonEdge/buttonEdgeDevice.js:111-131 | a refused command changes nothing; an accepted one drives the input high now |
| ButtonEdge.ReleaseEdge | src/devices/kinds/buttonEdge/buttonEdgeDevice.js:128-130 | the hold timer drives the input low and never publishes |
| ButtonEdge.InjectThenRelease | src/devices/kinds/buttonEdge/buttonEdgeDevice.js:111-131 | an injected press on a started, enabled device whose input is low publishes exactly one press, and its release publishes none |
| ButtonEdge.ButtonEdgeDevice.constructor | src/devices/kinds/buttonEdge/buttonEdgeDevice.js:60-72 | the fields start as Initial gives them |
| ButtonEdge.ButtonEdgeDevice.Start | src/devices/kinds/buttonEdge/buttonEdgeDevice.js:74-90 | the new state is StartEdge of the old |
| ButtonEdge.ButtonEdgeDevice.Dispose | src/devices/kinds/buttonEdge/buttonEdgeDevice.js:92-101 | the new state is DisposeEdge of the old |
| ButtonEdge.ButtonEdgeDevice.Block | src/devices/kinds/buttonEdge/buttonEdgeDevice.js:103-105 | only the enabled flag changes, to false |
| ButtonEdge.ButtonEdgeDevice.Unblock | src/devices/kinds/buttonEdge/buttonEdgeDevice.js:107-109 | only the enabled flag changes, to true |
| ButtonEdge.ButtonEdgeDevice.OnValue | src/devices/kinds/buttonEdge/buttonEdgeDevice.js:81-89 | the new state is Deliver of the old |
| ButtonEdge.ButtonEdgeDevice.SetLevel | src/devices/kinds/buttonEdge/buttonEdgeDevice.js:126-129 | the new state is SetInput of the old |
| ButtonEdge.ButtonEdgeDevice.Inject | src/devices/kinds/buttonEdge/buttonEdgeDevice.js:111-131 | the new state and the answer are InjectEdge of the old state |
| ButtonEdge.ButtonEdgeDevice.Release | src/devices/kinds/buttonEdge/buttonEdgeDevice.js:128-130 | the new state is ReleaseEdge of the old |
| DeviceManager.SetRuntime | src/devices/deviceManager.js:212-229 | corrected (the publish of deviceManager.js:219, see Findings): the id's runtime state is replaced and one hardware event with publishAs (or the id) is appended; nothing else changes |
| DeviceManager.MakeDevice | src/devices/deviceManager.js:231-274 | a blank domain is device_requires_domain; a domain without a bus is unknown_domain_bus; a device is made exactly for a buttonEdge on a virt or gpio input, settable exactly for virt, started and enabled exactly when its configured state is active |
| DeviceManager.Register | src/devices/deviceManager.js:44-50 | the configured ids are the earlier ones plus every entry with a truthy id; the registration order stays duplicate-free and matches the configured ids |
| DeviceManager.StartOutcome | src/devices/deviceManager.js:58-86 | corrected (the publish of deviceManager.js:219, see Findings): a manualBlocked entry is manualBlocked; an entry of another mode is skipped; otherwise it is active when its device can be made and degraded when not |
| DeviceManager.StartOne | src/devices/deviceManager.js:52-87 | corrected (the publish of deviceManager.js:219, see Findings): one entry changes only its own runtime state and started device, as StartOutcome says |
| DeviceManager.StartEach | src/devices/deviceManager.js:52-87 | corrected (the publish of deviceManager.js:219, see Findings): the second loop starts and records states only for ids of the entries, adding at most one device per entry |
| DeviceManager.StartSpec | src/devices/deviceManager.js:37-93 | corrected (the publish of deviceManager.js:219, see Findings): start after a device has been started changes nothing, and start keeps the manager's invariant |
| DeviceManager.StartEachOutcome | src/devices/deviceManager.js:52-87 | corrected (the publish of deviceManager.js:219, see Findings): with distinct ids each entry ends with the runtime state StartOutcome gives it and is started exactly when that is active |
| DeviceManager.StartOutcomes | src/devices/deviceManager.js:37-93 | corrected (the publish of deviceManager.js:219, see Findings): start on a fresh manager registers each entry with an id and leaves it in the state StartOutcome gives it |
| DeviceManager.DisposeSpec | src/devices/deviceManager.js:95-113 | dispose clears the devices and all three maps, keeping the published events |
| DeviceManager.RuntimeOf | src/devices/deviceManager.js:120 | the runtime state is the recorded one, or unknown when none is recorded |
| DeviceManager.ListedOf | src/devices/deviceManager.js:119-139 | an element is enabled exactly when its runtime state is not manualBlocked, started exactly when a device runs under its id, and publishes as publishAs or its id |
| DeviceManager.List | src/devices/deviceManager.js:115-143 | list has one element per configured id, in registration order, and every configured id appears |
| DeviceManager.SetEnabled | src/devices/deviceManager.js:156-159 | only the started device under the id changes, and only its enabled flag |
| DeviceManager.BlockSpec | src/devices/deviceManager.js:145-163 | corrected (the publish of deviceManager.js:219, see Findings): a blank or unconfigured id is DEVICE_NOT_FOUND and changes nothing; otherwise the device stops publishing and the id is manualBlocked; the invariant is kept |
| DeviceManager.UnblockSpec | src/devices/deviceManager.js:165-191 | corrected (the publish of deviceManager.js:219, see Findings): DEVICE_NOT_FOUND changes nothing; an id not configured for the mode is marked manualBlocked and answered MODE_MISMATCH; otherwise the id is active, with the not_started_v1 note when no device runs |
| DeviceManager.InjectSpec | src/devices/deviceManager.js:193-210 | a blank id is DEVICE_NOT_FOUND, an id without a started device NOT_SUPPORTED, a refused command INJECT_FAILED with the device's message; only an accepted command changes the device |
| DeviceManager.BlockThenUnblock | src/devices/deviceManager.js:145-191 | corrected (the publish of deviceManager.js:219, see Findings): blocking then unblocking a device of the current mode leaves it active and its started device enabled, with the configuration unchanged |
| DeviceManager.SetEnabledTwice | src/devices/deviceManager.js:156-159 | of two block or unblock calls the later one decides |
| DeviceManager.BlockedIsListed | src/devices/deviceManager.js:115-163 | corrected (the publish of deviceManager.js:219, see Findings): after a successful block, list shows the device as not enabled and manualBlocked |
| DeviceManager.SetRuntimeAsWritten | src/devices/deviceManager.js:212-229 | as written: the state is stored and nothing is published, since reading eventTypes.system.hardware throws |
| DeviceManager.StartEachAsWritten | src/devices/deviceManager.js:52-87 | as written: the loop throws exactly when some entry with an id is not skipped, publishes nothing, and changes nothing when it does not throw |
| DeviceManager.StartAsWritten | src/devices/deviceManager.js:37-93 | as written: start after a device has been started changes nothing, and start never publishes |
| DeviceManager.StartEachAsWrittenStops | src/devices/deviceManager.js:52-87 | as written: the loop throws at the first entry it does not skip, storing manualBlocked, or degraded even for a device that started, and reaches no later entry |
| DeviceManager.StartAsWrittenStops | src/devices/deviceManager.js:37-93 | as written: start on a fresh manager leaves a runtime state only for its first non-skipped entry, at most that device started, and no event |
| DeviceManager.BlockAsWritten | src/devices/deviceManager.js:145-163 | as written: block of a configured id throws instead of answering ok, and never publishes |
| DeviceManager.UnblockAsWritten | src/devices/deviceManager.js:165-191 | as written: unblock of a configured id throws, on the mode-mismatch path too, and never publishes |
| DeviceManager.AsWrittenBlockUnblockThrow | src/devices/deviceManager.js:145-191 | as written, block and unblock throw exactly where the corrected ones answer ok or MODE_MISMATCH, after the same state change without its event |
| DeviceManager.Manager.constructor | src/devices/deviceManager.js:30-35 | a new manager is empty |
| DeviceManager.Manager.SetRuntimeState | src/devices/deviceManager.js:212-229 | corrected (the publish of deviceManager.js:219, see Findings): the new state is SetRuntime of the old |
| DeviceManager.Manager.RegisterEntries | src/devices/deviceManager.js:44-50 | the new state is Register of the old over the entries |
| DeviceManager.Manager.StartEntry | src/devices/deviceManager.js:52-87 | corrected (the publish of deviceManager.js:219, see Findings): the new state is StartOne of the old |
| DeviceManager.Manager.Start | src/devices/deviceManager.js:37-93 | corrected (the publish of deviceManager.js:219, see Findings): the new state is StartSpec of the old |
| DeviceManager.Manager.Dispose | src/devices/deviceManager.js:95-113 | the new state is DisposeSpec of the old |
| DeviceManager.Manager.ListDevices | src/devices/deviceManager.js:115-143 | the answer is List of the state |
| DeviceManager.Manager.Block | src/devices/deviceManager.js:145-163 | corrected (the publish of deviceManager.js:219, see Findings): the new state and the answer are BlockSpec of the old state for the trimmed id |
| DeviceManager.Manager.Unblock | src/devices/deviceManager.js:165-191 | corrected (the publish of deviceManager.js:219, see Findings): the new state and the answer are UnblockSpec of the old state for the trimmed id |
| DeviceManager.Manager.Inject | src/devices/deviceManager.js:193-210 | the new state and the answer are InjectSpec of the old state for the trimmed id |
| BusStream.AllowedOf | src/transport/ws/busStream.js:45-48 | the allowed buses are exactly the registry's names whose bus can subscribe, in registry order |
| BusStream.DefaultBus | src/transport/ws/busStream.js:50 | the default bus is main when allowed, else the first allowed name unless it is blank, and always an allowed bus |
| BusStream.KeepAllowed | src/transport/ws/busStream.js:231-232 | the kept entries of select.buses are exactly the strings that name allowed buses |
| BusStream.BusList | src/transport/ws/busStream.js:231 | select.buses is used only when it is an array, else the list is empty |
| BusStream.ResolveSelection | src/transport/ws/busStream.js:221-243 | the selection is empty exactly when no bus is allowed and holds only allowed buses; mode all gives every allowed bus; else the kept list, or main, or the first allowed bus |
| BusStream.QueryToken | src/transport/ws/busStream.js:83 | a query token never holds `=` |
| BusStream.QueryTokens | src/transport/ws/busStream.js:81-84 | the tokens are non-blank and hold no `=` |
| BusStream.QueryTokensKeep | src/transport/ws/busStream.js:81-84 | every non-blank token of a part is kept |
| BusStream.Wanted | src/transport/ws/busStream.js:90 | the wanted names are exactly the tokens that are allowed buses |
| BusStream.ParseQuery | src/transport/ws/busStream.js:80-92 | the query selects every bus exactly when one of its tokens is all; otherwise it lists exactly the tokens that are allowed bus names |
| BusStream.Strs | src/transport/ws/busStream.js:91 | the buses array holds the wanted names as strings, in order |
| BusStream.KeepAllowedStrs | src/transport/ws/busStream.js:90-91 | reading back a list of allowed names keeps all of it |
| BusStream.QuerySelection | src/transport/ws/busStream.js:80-92 | a parsed query used as a selection gives every allowed bus for all, its allowed names when there are some, and otherwise main or the first allowed bus |
| BusStream.Dedup | src/transport/ws/busStream.js:130 | the wanted set holds each selected bus once and nothing else |
| BusStream.AddClient | src/transport/ws/busStream.js:134-137 | the client id joins the registration of each wanted bus, a missing one being made, and no other registration changes |
| BusStream.RemoveClient | src/transport/ws/busStream.js:170-191 | the client id leaves the registration of each wanted bus, which is dropped exactly when it becomes empty; others are unchanged |
| BusStream.DetachSpec | src/transport/ws/busStream.js:157-194 | a blank or unknown id changes nothing; otherwise the client is removed |
| BusStream.DetachKeepsInv | src/transport/ws/busStream.js:157-194 | detaching keeps the registrations in step with what the clients want |
| BusStream.AttachSpec | src/transport/ws/busStream.js:112-147 | a blank id is missing_client_id, a missing onEvent missing_onEvent, and both change nothing; otherwise the client wants the deduplicated selection |
| BusStream.AttachKeepsInv | src/transport/ws/busStream.js:112-147 | attaching, including re-attaching an existing id, keeps the registrations in step with what the clients want |
| BusStream.AddKeepsInv | src/transport/ws/busStream.js:130-137 | adding a new client with allowed buses keeps the invariant |
| BusStream.Recipients | src/transport/ws/busStream.js:260-278 | an event on a bus without a registration reaches nobody; recipients are attached clients |
| BusStream.RecipientsWant | src/transport/ws/busStream.js:260-278 | an event on a bus reaches exactly the attached clients that want that bus |
| BusStream.SubscribedIffWanted | src/transport/ws/busStream.js:178-190 | a bus is subscribed exactly while some attached client wants it |
| BusStream.AttachedReceives | src/transport/ws/busStream.js:112-147 | after attaching, a client receives the events of a bus exactly when its selection resolves to include that bus |
| BusStream.AttachThenDetach | src/transport/ws/busStream.js:144-146 | attaching a new client and calling its detach function restores the stream |
| BusStream.RemoveAdd | src/transport/ws/busStream.js:134-137 | removing a client from the registrations it was just added to gives them back |
| BusStream.DisposeSpec | src/transport/ws/busStream.js:202-217 | dispose leaves no client and no registration |
| BusStream.AddToRegs | src/transport/ws/busStream.js:134-137 | the attach loop computes AddClient |
| BusStream.RemoveFromRegs | src/transport/ws/busStream.js:170-191 | the detach loop computes RemoveClient |
| BusStream.BusStream.constructor | src/transport/ws/busStream.js:39-51 | a new stream has the allowed buses, no client and no registration |
| BusStream.BusStream.GetAllowedBuses | src/transport/ws/busStream.js:61-63 | the answer is the allowed bus list |
| BusStream.BusStream.AttachClient | src/transport/ws/busStream.js:112-147 | the new state and the answer are AttachSpec of the old state for the trimmed id, and the invariant is kept |
| BusStream.BusStream.DetachClient | src/transport/ws/busStream.js:157-194 | the new state is DetachSpec of the old for the trimmed id, and the invariant is kept |
| BusStream.BusStream.DetachId | src/transport/ws/busStream.js:163-191 | the new state is DetachSpec of the old |
| BusStream.BusStream.Dispose | src/transport/ws/busStream.js:202-217 | the new state is DisposeSpec of the old |
| BusStream.BusStream.Publish | src/transport/ws/busStream.js:260-278 | the event is handed to exactly Recipients of the state |
| ButtonController.DeviceList | src/domains/button/buttonController.js:47 | an array configuration is the device list and anything else is none |
| ButtonController.Register | src/domains/button/buttonController.js:47-53 | exactly the truthy ids of the list are registered, each with an entry whose id it is and with no press yet |
| ButtonController.NoCooldownNoSuppression | src/domains/button/buttonController.js:98-105 | without an earlier press, or with a cooldown that is not positive, no press is suppressed |
| ButtonController.PayloadOf | src/domains/button/buttonController.js:80 | a truthy payload is used as it is and any other is an empty object |
| ButtonController.PressOf | src/domains/button/buttonController.js:113-131 | the press carries the clock's time, the device id, publishAs, sensorId = publishAs ?? deviceId and a null coreRole when the device has none |
| ButtonController.OnEdge | src/domains/button/buttonController.js:79-111 | an edge that is not a press, a press without a device id and a press from an unknown device change nothing; a press within the cooldown changes nothing; any other press records its time and publishes one press |
| ButtonController.Deliver | src/domains/button/buttonController.js:63-67 | corrected (the publish of buttonController.js:124, see Findings): only buttonRaw:edge events reach the controller, and only while it is subscribed |
| ButtonController.Run | src/domains/button/buttonController.js:63-67 | a run of events keeps the configuration and only appends presses |
| ButtonController.QuietDuringCooldown | src/domains/button/buttonController.js:98-107 | after a device's press at t0, no press of that device is published while the clock stays within its cooldown of t0 |
| ButtonController.QuietStep | src/domains/button/buttonController.js:98-107 | one event within the cooldown publishes no press of the device and keeps its press time |
| ButtonController.OnEdgeAsWritten | src/domains/button/buttonController.js:107-124 | as written, an accepted press records its time and then fails, so nothing is ever published |
| ButtonController.AsWrittenPressIsLost | src/domains/button/buttonController.js:98-124 | as written, a press that failed to publish still silences the device for its cooldown |
| ButtonController.SuppressedPress | src/domains/button/buttonController.js:98-105 | a press of a device recorded at t0 is suppressed at t1 within its cooldown |
| ButtonController.CorrectedPressIsPublished | src/domains/button/buttonController.js:79-137 | device b1 pressed at 1000 ms publishes one press, where the code as written publishes none |
| ButtonController.Controller.constructor | src/domains/button/buttonController.js:36-54 | the devices and press times are Register of the configured list, with no subscription and nothing published |
| ButtonController.Controller.Start | src/domains/button/buttonController.js:58-68 | start takes the subscription and changes nothing else, and a second start is a no-op |
| ButtonController.Controller.Dispose | src/domains/button/buttonController.js:70-77 | dispose drops the subscription and changes nothing else |
| ButtonController.Controller.OnEvent | src/domains/button/buttonController.js:63-111 | corrected (the publish of buttonController.js:124, see Findings): handling an event leaves the state Deliver of the old state |
| VibrationController.Register | src/domains/vibration/vibrationController.js:29-35 | exactly the truthy ids of the list are registered, each with an entry whose id it is and with no hit yet |
| VibrationController.DefaultNoCooldown | src/domains/vibration/vibrationController.js:74-80 | a sensor without a configured cooldown never drops a hit |
| VibrationController.LevelOf | src/domains/vibration/vibrationController.js:84 | the level is truthy: the sensor's level when truthy, and 'unknown' when neither level is truthy |
| VibrationController.OnHit | src/domains/vibration/vibrationController.js:61-86 | a hit from an unknown sensor, from a disabled sensor or within the cooldown changes nothing; any other hit records its time and publishes one hit with the sensor's level |
| VibrationController.Deliver | src/domains/vibration/vibrationController.js:45-49 | corrected (the publish of vibrationController.js:90, see Findings): only vibrationRaw:hit events reach the controller, and only while it is subscribed |
| VibrationController.Run | src/domains/vibration/vibrationController.js:45-49 | a run of events keeps the configuration and only appends hits |
| VibrationController.DisabledNeverPublishes | src/domains/vibration/vibrationController.js:71 | a sensor configured with enabled: false never publishes a hit and its hit time never changes, whatever the events |
| VibrationController.AcceptedHitsSpaced | src/domains/vibration/vibrationController.js:74-82 | with a positive cooldown, an accepted hit comes at least the cooldown after the sensor's last one |
| VibrationController.OnHitAsWritten | src/domains/vibration/vibrationController.js:82-90 | as written, an accepted hit records its time and then fails, so nothing is ever published |
| VibrationController.CorrectedHitIsPublished | src/domains/vibration/vibrationController.js:61-103 | sensor s1 hit at 1000 ms publishes one hit of level 'unknown', where the code as written publishes none |
| VibrationController.Controller.constructor | src/domains/vibration/vibrationController.js:18-36 | the sensors and hit times are Register of the configured list, with no subscription and nothing published |
| VibrationController.Controller.Start | src/domains/vibration/vibrationController.js:40-50 | start takes the subscription and changes nothing else |
| VibrationController.Controller.Dispose | src/domains/vibration/vibrationController.js:52-59 | dispose drops the subscription and changes nothing else |
| VibrationController.Controller.OnEvent | src/domains/vibration/vibrationController.js:45-86 | corrected (the publish of vibrationController.js:90, see Findings): handling an event leaves the state Deliver of the old state |
| Js.NumLessOrder | src/recording/recordingFormat.js:61-69 | < is irreflexive and transitive, and two distinct numbers other than NaN are ordered one way or the other |
| Js.Spread | src/recording/recorder.js:203-207 | an object spread keeps the base's value for every key the spread object lacks, and the result has every key of either side |
| Js.SpreadOverWins | src/recording/recorder.js:203-207 | a key the spread object names takes the spread object's value |
| RecordingFormat.SemverOfParts | src/recording/recordingFormat.js:11-14 | three non-empty digit runs joined by dots match the semver pattern |
| RecordingFormat.VersionCheck | src/recording/recordingFormat.js:20-22 | the version is refused exactly when it is not the string 1.0.0: the semver test never refuses more |
| RecordingFormat.HeaderError | src/recording/recordingFormat.js:16-44 | when no header check fails, the recording is an object with format charlie.recording and version 1.0.0, an events array, a streamsObserved object and a non-empty bus list without a blank name |
| RecordingFormat.EventError | src/recording/recordingFormat.js:50-80 | an event passes exactly when it is a plain object with a non-blank id, a numeric i that is not NaN, not negative and above the last i, a numeric tMs that is not NaN, not negative and not below the last tMs, and a raw object whose trimmed streamKey is non-blank and observed |
| RecordingFormat.ScanAccepts | src/recording/recordingFormat.js:46-81 | the event loop accepts exactly the event lists whose every event has a valid shape, whose i values strictly increase and whose tMs values never decrease, starting above the values it starts from |
| RecordingFormat.ValidIff | src/recording/recordingFormat.js:16-84 | a recording is valid exactly when its header passes and its event list is well-shaped and ordered |
| RecordingFormat.ValidEventsOrdered | src/recording/recordingFormat.js:61-69 | in a valid recording every earlier event has a smaller i and a tMs that is not larger |
| RecordingFormat.ScanEvents | src/recording/recordingFormat.js:46-81 | the loop over the events returns the first failing event's code, as the scan from (-1, -1) does |
| RecordingFormat.CheckBusNames | src/recording/recordingFormat.js:32-35 | the loop accepts the bus list exactly when no entry is blank once trimmed |
| RecordingFormat.ValidateRecording | src/recording/recordingFormat.js:16-84 | the checks in order give the validation result: ok, or the first failing check's code |
| Recorder.FirstNonBlank | src/recording/recorder.js:9-21 | the result is blank exactly when every candidate is blank, and is otherwise the first non-blank candidate |
| Recorder.DeriveStreamPriority | src/recording/recorder.js:6-22 | the stream is the first non-blank of the payload's publishAs, the payload's deviceId, the event's source and its type |
| Recorder.PublishAsFirst | src/recording/recorder.js:7-10 | a non-blank publishAs on a plain-object payload is the stream, whatever else the event carries |
| Recorder.NonEmpty | src/recording/recorder.js:27 | filter(Boolean) keeps exactly the non-empty strings, in order |
| Recorder.NameList | src/recording/recorder.js:27 | a list option becomes the non-blank trimmed strings of its entries; a value that is not an array gives no names |
| Recorder.SetOrNone | src/recording/recorder.js:35-38 | an empty list gives no set (null); any other list gives the set of its names |
| Recorder.NormalizeFilter | src/recording/recorder.js:24-40 | a filter that is not a plain object sets none of the four lists |
| Recorder.PassesFilter | src/recording/recorder.js:42-54 | no filter passes everything; otherwise an event passes exactly when its stream is in includeStreams (when given) and not in excludeStreams (when given), and its trimmed type is in includeTypes (when given) and not in excludeTypes (when given) |
| Recorder.NoFilterPassesAll | src/recording/recorder.js:24-54 | a recorder configured without a filter object records every event that has a stream |
| Recorder.Subscribable | src/recording/recorder.js:108-120 | start subscribes to exactly the configured bus names that name an available bus |
| Recorder.StartSpec | src/recording/recorder.js:98-106 | start on a started recorder changes nothing; otherwise it is started and not stopped, t0 is the clock, lastTMs is -1 and the events are kept |
| Recorder.StopSpec | src/recording/recorder.js:127-146 | stop keeps the events; a started recorder is stopped with its subscriptions dropped; a never-started recorder is unchanged |
| Recorder.OnEventSpec | src/recording/recorder.js:159-192 | a stopped recorder ignores events; an event is appended only when serializable and admitted by the filter, and conversely a running recorder appends every serializable admitted event, at time max(now - t0, 0) raised to the last time |
| Recorder.OnEventKeepsInv | src/recording/recorder.js:159-192 | after any event the recorded times lie in [0, lastTMs], never decrease, and every entry has a stream and passes the filter |
| Recorder.RunKeepsInv | src/recording/recorder.js:159-192 | over any run of events the invariant holds and the events already recorded never change |
| Recorder.NothingAfterStop | src/recording/recorder.js:127-132 | once stopped, no event changes the recorder |
| Recorder.StartOnce | src/recording/recorder.js:98-99 | a second start changes nothing, and a stopped recorder stays stopped when started again |
| Recorder.StopOnce | src/recording/recorder.js:127-130 | a second stop changes nothing, and stop never drops a recorded event |
| Recorder.Build | src/recording/recorder.js:194-211 | the recording names the format charlie.recording and version 1.0.0, carries the events in order, and keeps every configured meta key |
| Recorder.BuildMeta | src/recording/recorder.js:203-207 | the meta carries recordedAtMs (the clock) and the bus names unless the configured meta overrides them |
| Recorder.Recorder.constructor | src/recording/recorder.js:74-96 | the bus names are the non-blank trimmed names, the meta is copied from a plain object or empty, the filter is normalised, and the recorder is neither started nor stopped with no events |
| Recorder.Recorder.Start | src/recording/recorder.js:98-125 | start moves the state as StartSpec says and subscribes the available buses |
| Recorder.Recorder.SubscribeAll | src/recording/recorder.js:108-120 | the loop over the bus names subscribes exactly the available ones, in order |
| Recorder.Recorder.Stop | src/recording/recorder.js:127-146 | stop moves the state as StopSpec says and returns the recording built from the recorder's events |
| Recorder.Recorder.OnEvent | src/recording/recorder.js:159-192 | a bus event moves the state as OnEventSpec says, keeping the invariant |
| Player.SinkMap | src/recording/player.js:12-18 | every stream the routing maps, and every sink it maps to, is non-blank |
| Player.LastEntryWins | src/recording/player.js:13-18 | the last entry that routes a stream, with non-blank trimmed key and value, decides that stream's sink |
| Player.RoutedIsMapped | src/recording/player.js:13-18 | every entry with a non-blank trimmed stream and sink leaves that stream routed |
| Player.NormalizeRouting | src/recording/player.js:6-21 | the normalised routing has a non-blank default sink and only non-blank streams and sinks; without a truthy defaultSink the default is bus |
| Player.DefaultSinkOf | src/recording/player.js:9 | a falsy defaultSink gives bus |
| Player.DefaultSinkIsTrimmedOr | src/recording/player.js:9 | the default sink is String(defaultSink or 'bus') trimmed |
| Player.NullRouting | src/recording/player.js:81 | the routing of a player before start, normalizeRouting(null), sends everything to bus with no stream routed |
| Player.ResolveSink | src/recording/player.js:23-27 | a routed stream gets its own sink; any other stream gets the default sink, or bus when the default is blank |
| Player.ResolveSinkNonBlank | src/recording/player.js:6-27 | under any normalised routing every stream resolves to a non-blank sink |
| Player.UnroutedGoesToBus | src/recording/player.js:6-27 | with a routing option that is not a plain object, every stream goes to bus |
| Player.Dispatch | src/recording/player.js:268-333 | every event counts as dispatched and as exactly one of injected or failed; an injection needs the device sink and a non-blank device id; the bus sink always fails with BUS_SINK_NOT_IMPLEMENTED |
| Player.TimedAt | src/recording/player.js:244-248 | in the events of a validated recording every time is a number and no later event's time is below an earlier one's |
| Player.TimedOfChecks | src/recording/recordingFormat.js:46-81 | the time checks validation makes put the events in time order |
| Player.Initial | src/recording/player.js:54-84 | a new player is idle and keeps the invariant |
| Player.Logical | src/recording/player.js:225-233 | the logical time stands still at its base unless playing, and is never negative while playing |
| Player.LogicalNonNegative | src/recording/player.js:225-233 | the logical time is never negative |
| Player.AtBase | src/recording/player.js:225-233 | at the real time it was based at, the logical time is its base |
| Player.Ceil | src/recording/player.js:255 | Math.ceil: the least integer not below its argument |
| Player.Delay | src/recording/player.js:255-260 | for an event not yet due the timer waits at least 1 ms, and long enough that the event is due when it fires |
| Player.Drain | src/recording/player.js:241-266 | #scheduleNext only moves the position forward, dispatching exactly the events it passes, and changes nothing unless playing |
| Player.DrainDispatchesDue | src/recording/player.js:241-266 | #scheduleNext dispatches, in order, the events that are due; it stops at the first one not yet due with a timer armed for it, or at the end in the loaded state |
| Player.DrainOnlyDue | src/recording/player.js:244-252 | every event #scheduleNext dispatches is due at the logical time |
| Player.DrainStops | src/recording/player.js:244-265 | #scheduleNext stops at the first event not yet due with its timer armed, or past the last event in the loaded state |
| Player.DrainStep | src/recording/player.js:249-252 | a due event is dispatched and the loop goes on from the next one |
| Player.DrainWait | src/recording/player.js:255-262 | an event not yet due arms the timer and ends the loop |
| Player.DrainEnd | src/recording/player.js:265 | with no event left, playback ends in the loaded state |
| Player.NotDueOnward | src/recording/player.js:244-253 | in time order, every event after one not yet due is not yet due either |
| Player.PendingNotDue | src/recording/player.js:241-266 | after #scheduleNext no pending event is due |
| Player.DrainKeepsInv | src/recording/player.js:241-266 | #scheduleNext keeps the player's invariant |
| Player.LoadError | src/recording/player.js:87-92 | load fails exactly when validation fails, with validation's code |
| Player.StopSpec | src/recording/player.js:185-194 | stop disarms the timer, drops the block token when the device manager can unblock, and rewinds to the start in loaded (or idle without a recording), keeping the events and counters |
| Player.LoadSpec | src/recording/player.js:94-107 | load leaves the recording's events loaded, in time order, at the start with fresh counters |
| Player.ValidTimed | src/recording/player.js:86-97 | the events of a recording that load accepts are an array in time order |
| Player.SpeedOf | src/recording/player.js:119-120 | a speed is accepted exactly when Number(speed) is a positive number |
| Player.DevicesToBlock | src/recording/player.js:342-353 | the devices to block include the non-blank device id of every event routed to the device sink, and nothing blank |
| Player.BlockLabels | src/recording/player.js:339-340 | the owner is the trimmed isolation owner or recordingPlayer; the reason the trimmed reason or playback |
| Player.BlockedToken | src/recording/player.js:335-364 | the token changes only when isolation is set, blockDevices exists and some device is routed to the device sink, and then only to a truthy token of an ok answer |
| Player.StartError | src/recording/player.js:110-124 | start without a recording fails with BAD_REQUEST; a playing player succeeds; otherwise the speed must be a positive number |
| Player.ConfigureSpec | src/recording/player.js:128-131 | start stores the normalised routing and the isolation exactly when it is a plain object, changing no playback field |
| Player.PlaySpec | src/recording/player.js:133-137 | start plays from logical time 0 at the new speed, based at the clock, keeping the invariant, and ends playing or loaded |
| Player.PlayAtEndDispatchesNothing | src/recording/player.js:133-137 | start after playback reached the end, without stop, dispatches nothing and leaves the player loaded |
| Player.PauseSpec | src/recording/player.js:140-148 | pause from playing freezes the logical time and disarms the timer; from any other state it changes nothing |
| Player.ResumeError | src/recording/player.js:150-155 | resume fails exactly when paused with a given speed that is not a positive number |
| Player.ResumeSpec | src/recording/player.js:150-161 | resume from paused plays on from the frozen logical time, at the given speed if any; from any other state, or with a bad speed, it changes nothing |
| Player.SpeedChange | src/recording/player.js:169-182 | a speed change while playing rebases the logical time at the clock; otherwise only the speed changes |
| Player.FireSpec | src/recording/player.js:257-260 | the timer firing only moves the position forward, keeps the invariant, and changes nothing unless playing |
| Player.LoadResets | src/recording/player.js:86-108 | load of a valid recording keeps the invariant |
| Player.StopKeepsInv | src/recording/player.js:185-194 | stop keeps the invariant and leaves the player neither playing nor paused |
| Player.PauseKeepsInv | src/recording/player.js:140-148 | pause keeps the invariant |
| Player.PauseResumeContinues | src/recording/player.js:140-161 | pause followed by resume without a speed plays on from the logical time of the pause |
| Player.SetSpeedContinues | src/recording/player.js:169-176 | a speed change while playing does not move the logical time |
| Player.WrongStateNoOps | src/recording/player.js:140-151 | pause when not playing and resume when not paused change nothing |
| Player.Player.constructor | src/recording/player.js:54-84 | a new player is idle, at speed 1, with no events, no timer, fresh counters and everything routed to bus |
| Player.Player.ScheduleNext | src/recording/player.js:241-266 | the loop leaves the player as Drain says |
| Player.Player.Step | src/recording/player.js:244-262 | one turn of the loop either dispatches a due event and advances, leaving what is left of Drain unchanged, or arms the timer and ends as Drain does |
| Player.Player.DispatchEvent | src/recording/player.js:268-292 | an event's dispatch changes only the counters, as Dispatch says |
| Player.Player.Load | src/recording/player.js:86-108 | load fails with validation's code and no change, or loads the recording as LoadSpec says |
| Player.Player.Install | src/recording/player.js:94-107 | stop, then the new events from the start with fresh counters |
| Player.Player.Stop | src/recording/player.js:185-194 | stop moves the state as StopSpec says |
| Player.Player.Start | src/recording/player.js:110-138 | start fails exactly as StartError says, with no change; a playing player is unchanged; otherwise it configures and plays as ConfigureSpec and PlaySpec say |
| Player.Player.Configure | src/recording/player.js:128-131 | the routing, isolation and block token are set as ConfigureSpec says |
| Player.Player.MaybeBlockDevices | src/recording/player.js:335-364 | only the block token changes, as BlockedToken says |
| Player.Player.PlayFrom | src/recording/player.js:133-137 | playback starts as PlaySpec says |
| Player.Player.Pause | src/recording/player.js:140-148 | pause moves the state as PauseSpec says |
| Player.Player.SetSpeed | src/recording/player.js:163-183 | setSpeed fails with BAD_REQUEST and no change exactly when the speed is not a positive number, and otherwise changes the state as SpeedChange says |
| Player.Player.ChangeSpeed | src/recording/player.js:169-182 | the accepted speed change moves the state as SpeedChange says |
| Player.Player.Resume | src/recording/player.js:150-161 | resume fails exactly as ResumeError says and moves the state as ResumeSpec says |
| Player.Player.Fire | src/recording/player.js:257-260 | the timer callback moves the state as FireSpec says |
| RecordingService.NormalizeConfigRelPath | src/recording/recordingService.js:16-28 | none exactly for a blank path; UNC and drive-letter paths are kept whole; any other path loses exactly its leading run of slashes and backslashes and keeps the rest |
| RecordingService.NormalizeIdempotent | src/recording/recordingService.js:16-28 | normalising a normalised path that does not start with white space gives it back unchanged |
| RecordingService.NormalizeFixed | src/recording/recordingService.js:17-27 | a path without surrounding white space that is UNC, has a drive letter or does not start with a slash is returned as it is |
| RecordingService.ParseDurationMs | src/recording/recordingService.js:38-60 | null and undefined give none; a number gives a value exactly when it is finite and positive, and that value is the number rounded (within half a millisecond); every result is non-negative |
| RecordingService.Scaled | src/recording/recordingService.js:55-57 | Math.round of a positive amount times the unit's factor lies within half a millisecond of the product and is non-negative |
| RecordingService.DurationLiteralIff | src/recording/recordingService.js:48-49 | a trimmed lower-case text has a literal exactly when it matches the duration pattern: digits, optionally a point and more digits, then no unit, ms, s or m |
| RecordingService.DurationLiteralOfParts | src/recording/recordingService.js:48-57 | a text matching the pattern is read as its decimal number (integer digits plus the fraction digits over 10 to their count) and its unit's factor |
| RecordingService.DurationLiteralHasParts | src/recording/recordingService.js:48-49 | a text with a literal splits into integer digits, optional fraction digits and a unit that match the pattern |
| RecordingService.DecimalOfParts | src/recording/recordingService.js:51 | Number(m[1]) of digits with an optional fraction is the integer part plus the fraction digits over 10 to their count |
| RecordingService.ParseDurationOfParts | src/recording/recordingService.js:45-57 | a string whose trimmed lower-case form matches the pattern gives its number times the unit's factor rounded when that number is positive, and null when it is zero |
| RecordingService.ParseOfLiteral | src/recording/recordingService.js:45-57 | a string with a literal gives Math.round(n * factor) for a positive number and null otherwise |
| RecordingService.ParseDurationNotLiteral | src/recording/recordingService.js:48-49 | a string whose trimmed lower-case form does not match the pattern gives null |
| RecordingService.DurationWithFraction | src/recording/recordingService.js:48-56 | "1.5s" is 1500 ms |
| RecordingService.DurationOfDigits | src/recording/recordingService.js:46-57 | digits followed by no unit, "ms", "s" or "m" parse to the digits' value times 1, 1, 1000 or 60000 |
| RecordingService.DurationInSeconds | src/recording/recordingService.js:56 | "<n>s" is n * 1000 ms for every positive n |
| RecordingService.DurationInMinutes | src/recording/recordingService.js:57 | "<n>m" is n * 60000 ms for every positive n |
| RecordingService.DurationInMilliseconds | src/recording/recordingService.js:55 | "<n>ms" is n ms for every positive n |
| RecordingService.DurationOfPlainDigits | src/recording/recordingService.js:54-55 | a bare positive integer is read as milliseconds |
| RecordingService.ParseOfClean | src/recording/recordingService.js:46-60 | a string that trimming and lower-casing leave alone parses to its literal's value scaled and rounded |
| RecordingService.CleanText | src/recording/recordingService.js:46 | trimming and lower-casing leave digits followed by lower-case letters unchanged |
| RecordingService.LiteralOfDigits | src/recording/recordingService.js:49-50 | the regular expression splits digits followed by a unit into the digits' value and the unit's factor |
| RecordingService.TinyDurationIsZero | src/recording/recordingService.js:41-43 | a positive number below half a millisecond rounds to 0 |
| RecordingService.MergeKeys | src/recording/recordingService.js:82-99 | a key only in the base keeps the base's value; a key in the override holds the override's value, or the recursive merge when both values are plain objects |
| RecordingService.MergeEntriesUntouched | src/recording/recordingService.js:86-96 | a key the loop has not yet reached keeps the value it had in the copy of the base |
| RecordingService.MergeEntriesWritten | src/recording/recordingService.js:86-96 | once the loop has passed an override entry, its key holds the merge of the base's value with the entry's |
| RecordingService.UniqueAbsentBefore | src/recording/recordingService.js:86 | with distinct keys an entry's key appears at no earlier entry |
| RecordingService.UniqueAbsentBetween | src/recording/recordingService.js:86 | with distinct keys an entry's key appears at no later entry |
| RecordingService.MissingAbsentBefore | src/recording/recordingService.js:86 | a key no entry has is absent from every prefix of the entries |
| RecordingService.MergeDeep | src/recording/recordingService.js:82-99 | the loop over Object.entries(override) computes the merge: the override unchanged when either side is not a plain object, otherwise each entry written over the base in order |
| RecordingService.ParamsOf | src/recording/recordingService.js:109 | the params used are always a plain object |
| RecordingService.ResolveVariantParams | src/recording/recordingService.js:101-126 | a root that is not a plain object is refused; no variant gives the params; a variant key is refused exactly when it does not name a plain object; every success is a plain object |
| RecordingService.VariantOverridesParams | src/recording/recordingService.js:111-125 | in the resolved params a variant's own setting wins (merged when both are objects) and every param the variant does not mention is kept |
| RecordingService.VariantCandidates | src/recording/recordingService.js:132-134 | the filter keeps exactly the keys other than op and params that name plain objects, and adds none |
| RecordingService.InsertString | src/recording/recordingService.js:134 | inserting adds exactly the one string |
| RecordingService.InsertStringSorted | src/recording/recordingService.js:134 | inserting into a sorted list keeps it sorted |
| RecordingService.SortStrings | src/recording/recordingService.js:134 | sorting is a permutation |
| RecordingService.SortStringsSorted | src/recording/recordingService.js:134 | the sorted list is in code-unit order |
| RecordingService.ListVariantKeys | src/recording/recordingService.js:128-135 | a root that is not a plain object has no variants; otherwise the list holds exactly the plain-object keys other than op and params |
| RecordingService.ListVariantKeysSorted | src/recording/recordingService.js:128-135 | the variant keys come out sorted |
| RecordingService.DashSpaces | src/recording/recordingService.js:196 | no white space survives; every other character comes from the input; text without white space is unchanged |
| RecordingService.KeepTokenChars | src/recording/recordingService.js:197 | only token characters survive, and text made of them is unchanged |
| RecordingService.CollapseDashes | src/recording/recordingService.js:198 | no two dashes remain in a row, no new character appears, the first character is kept, and text without double dashes is unchanged |
| RecordingService.NoDoubleDashTail | src/recording/recordingService.js:198 | dropping the first character keeps a text free of double dashes |
| RecordingService.SingleDash | src/recording/recordingService.js:198 | in a text free of double dashes a leading dash is a run of one |
| RecordingService.SanitizeFileToken | src/recording/recordingService.js:192-201 | the token is at most maxLen long, made of token characters only, has no double dash, and is empty for a blank input |
| RecordingService.TokenFixed | src/recording/recordingService.js:192-201 | a short enough token of token characters without double dashes sanitises to itself |
| RecordingService.TokenTrimmed | src/recording/recordingService.js:193 | trimming keeps a token of token characters |
| RecordingService.TokenClean | src/recording/recordingService.js:196-198 | the three replacements keep a token without double dashes |
| RecordingService.SanitizeIdempotent | src/recording/recordingService.js:192-201 | sanitising is idempotent |
| RecordingService.DefaultBaseIsToken | src/recording/recordingService.js:411-412 | the fallback base "recording" is itself a valid token |
| RecordingService.BusNameCandidates | src/recording/recordingService.js:163-167 | every kept name is non-blank and names a bus that can be subscribed, and every such trimmed name in the input is kept |
| RecordingService.Distinct | src/recording/recordingService.js:175 | the same names, each once |
| RecordingService.DistinctOfDistinct | src/recording/recordingService.js:175 | a list without repeats is unchanged by the de-duplication |
| RecordingService.NormalizeBusNames | src/recording/recordingService.js:162-176 | a non-array or a list naming no available bus is a bad request; otherwise the result is non-empty, without repeats, lists only available buses and includes every available one the request named |
| RecordingService.OneAvailableBusSuffices | src/recording/recordingService.js:165-175 | one entry naming an available bus is enough for the list to be accepted |
| RecordingService.CheckProfile | src/recording/recordingService.js:262-303 | a profile is accepted exactly when the file holds a plain object with a non-blank profile name, plain-object record and play sections, and ops record.start and play.start; every refusal is a bad request |
| RecordingService.RecordStartError | src/recording/recordingService.js:383-403 | CONFLICT exactly when a recording runs; otherwise a bad request unless the bus names are accepted and the duration, when given, is positive and at most one day |
| RecordingService.StartGuards | src/recording/recordingService.js:384-403 | the checks, run in the handler's order, give the error the guard function predicts |
| RecordingService.OrDefault | src/recording/recordingService.js:408-412 | the string itself when non-empty, else the fallback |
| RecordingService.StartedSession | src/recording/recordingService.js:405-470 | the new session is recording the accepted buses; it stops automatically exactly when a duration was given, at the start time plus that duration; its base is non-empty and at most 64 characters, its comment suffix at most 48 |
| RecordingService.OutBase | src/recording/recordingService.js:411-412 | the file-name base is non-empty, at most 64 token characters and has no double dash |
| RecordingService.CommentSuffix | src/recording/recordingService.js:408-409 | the comment suffix is at most 48 token characters and empty without a comment |
| RecordingService.ZeroDurationRefused | src/recording/recordingService.js:391-396 | a duration that rounds to 0 ms is refused |
| RecordingService.LongDurationRefused | src/recording/recordingService.js:399-403 | more than 1440 minutes is refused |
| RecordingService.Service.constructor | src/recording/recordingService.js:137-160 | the service starts with no recording and no profile |
| RecordingService.Service.RecordStart | src/recording/recordingService.js:383-470 | fails exactly when the guards give an error, with that code and the session untouched; on success the session is the started session; the profile is untouched |
| RecordingService.Service.RecordStop | src/recording/recordingService.js:473-515 | fails with a bad request exactly when no recording runs; otherwise only the session's state becomes stopped |
| RecordingService.Service.LoadProfile | src/recording/recordingService.js:613-632 | fails exactly when the profile check fails, keeping the old profile; otherwise the checked profile replaces it; the session is untouched |
| RecordingService.Service.RecordRecord | src/recording/recordingService.js:634-663 | without a profile it is a bad request; while recording it is ignored; an unknown variant is a bad request; otherwise its answer and new session are exactly record.start's on the variant's busNames, duration, durationMs and comment with the sanitised base (the params' fileNameBase, else the profile name, else recording): the same guard errors, and the same started session |
| RecordingService.RecordBase | src/recording/recordingService.js:646-650 | record.record's base is non-empty, at most 64 token characters and has no double dash |
| RecordingService.BaseKept | src/recording/recordingService.js:411-412 | record.start keeps a base that record.record already sanitised |
| LedValidate.AsString | src/domains/led/ledValidate.js:14-16 | null and undefined read as blank; a string is trimmed |
| LedValidate.AsObject | src/domains/led/ledValidate.js:10-12 | the result is always an object, the input itself when it is one |
| LedValidate.ToNonNegIntOrNull | src/domains/led/ledValidate.js:23-28 | none exactly for null/undefined; a non-number gives 0; a number gives max(0, floor n); never negative |
| LedValidate.ToNonNegInt | src/domains/led/ledValidate.js:30-35 | undefined and non-numbers give the default; a number gives max(0, floor n) |
| LedValidate.Clamp01 | src/domains/led/ledValidate.js:43-47 | always in [0, 1]; non-numbers give 0; values inside are kept, values outside go to the nearer end |
| LedValidate.ValidateRgbArray | src/domains/led/ledValidate.js:49-59 | accepted exactly for arrays of length at least 3; the result is the three entries clamped to bytes |
| LedValidate.RgbArrayOfBytes | src/domains/led/ledValidate.js:49-59 | a triple of byte numbers is returned unchanged |
| LedValidate.ValidateRgbValue | src/domains/led/ledValidate.js:61-77 | a string is accepted iff its trimmed name is non-blank and names a truthy palette colour, giving that name; an array iff it has 3 entries, giving bytes; anything else is refused |
| LedValidate.PaletteNameAccepted | src/domains/led/ledValidate.js:61-70 | a clean palette name is accepted exactly when the palette holds a colour under it |
| LedValidate.CheckStop | src/domains/led/ledValidate.js:86-96 | an accepted stop has t in [0, 1] and byte channels |
| LedValidate.CheckStopOk | src/domains/led/ledValidate.js:86-96 | a stop is accepted iff it is an object with a numeric t and a valid rgb, and it becomes {clamp01(t), rgb} |
| LedValidate.Collect | src/domains/led/ledValidate.js:84-97 | the stops kept after n checks number n |
| LedValidate.CollectValues | src/domains/led/ledValidate.js:84-97 | the k-th stop kept is the k-th checked stop |
| LedValidate.CollectOk | src/domains/led/ledValidate.js:84-97 | the loop completes iff every stop passes its check |
| LedValidate.FirstBadStop | src/domains/led/ledValidate.js:84-97 | the first stop that fails decides the error, whatever follows it |
| LedValidate.CheckAll | src/domains/led/ledValidate.js:84-97 | one check per stop, each accepted check in range |
| LedValidate.CollectInRange | src/domains/led/ledValidate.js:84-97 | every stop kept has t in [0, 1] and byte channels |
| LedValidate.InsertStop | src/domains/led/ledValidate.js:99 | inserting adds exactly that stop (multiset) |
| LedValidate.InsertStopSorted | src/domains/led/ledValidate.js:99 | inserting into a list sorted by t keeps it sorted |
| LedValidate.SortStops | src/domains/led/ledValidate.js:99 | the sort is a permutation of its input |
| LedValidate.SortStopsSorted | src/domains/led/ledValidate.js:99 | the sort's result is ordered by t |
| LedValidate.GradientStopsSpec | src/domains/led/ledValidate.js:79-100 | fewer than 2 stops is an error; a result has one stop per input stop, each in range |
| LedValidate.GradientStopsSorted | src/domains/led/ledValidate.js:79-100 | the validated stops are sorted by t and a permutation of the checked stops |
| LedValidate.GradientStopsOk | src/domains/led/ledValidate.js:79-100 | gradients are accepted iff there are at least 2 stops and each one passes its check |
| LedValidate.ValidateGradientStops | src/domains/led/ledValidate.js:79-100 | the loop returns exactly the specified result, the first bad stop's error included |
| LedValidate.NormalizeLoop | src/domains/led/ledValidate.js:102-113 | undefined stays absent; true and 'inf' loop forever; otherwise accepted iff numeric, as max(1, floor n) |
| LedValidate.LoopCountKept | src/domains/led/ledValidate.js:102-113 | a whole count n >= 1 is kept as it is |
| LedValidate.BreathePeriod | src/domains/led/ledValidate.js:186 | absent iff undefined; at least 50; 2400 for non-numbers; floor n for numbers from 50 up |
| LedValidate.ValidateTargetSelector | src/domains/led/ledValidate.js:397-411 | a non-blank ledId wins; otherwise an alias is accepted iff it names an alias entry, giving that entry's ledId; the result is never blank |
| LedValidate.LedIdWinsOverAlias | src/domains/led/ledValidate.js:400-401 | with both a ledId and an alias the ledId decides |
| LedValidate.InterruptOf | src/domains/led/ledValidate.js:424-427 | blank gives ifLower; accepted iff blank or one of always/ifLower/never |
| LedValidate.ValidateDo | src/domains/led/ledValidate.js:413-434 | accepted iff the effect is named, exists and the interrupt is valid; priority is the number or 0; restore is truthiness; ttlMs absent iff null/undefined, else non-negative |
| LedValidate.DoDefaults | src/domains/led/ledValidate.js:413-434 | a do with only an effect gets priority 0, no restore, no ttl and interrupt ifLower |
| LedEffects.LoopCount | src/domains/led/ledEffects.js:91 | no loop setting gives one pass, 'inf' gives Infinity, a count gives that count |
| LedEffects.ResolveRgbValue | src/domains/led/ledEffects.js:49-62 | null exactly for values that are neither strings nor arrays of three; a string always gives an array of three (its palette entry or black); such an array is returned as is |
| LedEffects.UnknownNameIsBlack | src/domains/led/ledEffects.js:50-55 | a name without a palette rgb array resolves to [0,0,0] |
| LedEffects.ResolveSpec | src/domains/led/ledEffects.js:49-62 | on a validated colour: a triple is itself, a name missing from the palette is black |
| LedEffects.ResolveAgrees | src/domains/led/ledEffects.js:49-62 | resolving the configuration's colour value and resolving the validated colour give the same colour |
| LedEffects.EaseOf | src/domains/led/ledEffects.js:5-8 | only the name inOutSine selects the sine curve; every other name is linear |
| LedEffects.Progress | src/domains/led/ledEffects.js:74 | t is in [0, 1], reaches 1 exactly when the elapsed time reaches the duration, and is 0 before the start |
| LedEffects.FadeNext | src/domains/led/ledEffects.js:69-84 | always a colour; done iff the duration is 0 or the elapsed time reaches it; otherwise the next call is in 20 ms; a 0 ms fade shows its target |
| LedEffects.MixEnds | src/domains/led/ledEffects.js:77-81 | mixing at 0 gives the source colour, at 1 the target colour |
| LedEffects.LinearFadeEndsAtTarget | src/domains/led/ledEffects.js:74-83 | a linear fade that is done shows exactly its target |
| LedEffects.LinearFadeStartsAtSource | src/domains/led/ledEffects.js:74-83 | a linear fade of non-zero length shows its source colour until it starts, and is not done |
| LedEffects.ChannelBetween | src/domains/led/ledEffects.js:77-81 | a rounded interpolation at u in [0, 1] lies between its two ends |
| LedEffects.FadeStaysBetween | src/domains/led/ledEffects.js:74-83 | while the easing stays in [0, 1], every colour of a fade lies between its ends, channel by channel |
| LedEffects.FrameStep | src/domains/led/ledEffects.js:101-104 | a frame yields its resolved colour and its holdMs, not done |
| LedEffects.FramesNext | src/domains/led/ledEffects.js:94-105 | the index stays within the frames; done exactly when past the last frame with the loops used up |
| LedEffects.FramesAfter | src/domains/led/ledEffects.js:94-105 | the state after k calls keeps its index within the frames |
| LedEffects.FramesPosition | src/domains/led/ledEffects.js:91-105 | after p passes and q more frames, the runner points past frame q with n - p loops left |
| LedEffects.FramesInOrder | src/domains/led/ledEffects.js:89-107 | with loop N, call k yields frame k mod len with its hold, for every k below N times len |
| LedEffects.FramesThenDone | src/domains/led/ledEffects.js:91-98 | with loop N, the call after N times len frames is done |
| LedEffects.FramesPlayOnce | src/domains/led/ledEffects.js:91-98 | without a loop setting the frames play once, then the runner is done |
| LedEffects.EndlessStaysEndless | src/domains/led/ledEffects.js:91-98 | an 'inf' loop count stays Infinity whatever the number of calls |
| LedEffects.EndlessFramesNeverDone | src/domains/led/ledEffects.js:91-98 | an 'inf' frames runner is never done |
| LedEffects.FramesRunner.constructor | src/domains/led/ledEffects.js:89-91 | the runner starts at frame 0 with the loop count of its definition |
| LedEffects.FramesRunner.Next | src/domains/led/ledEffects.js:94-105 | the fields and the step are exactly those of the frames step |
| LedEffects.Advance | src/domains/led/ledEffects.js:177-185 | past the last step a loop is used up and the index goes back to 0, or it fails; the index then points at a step |
| LedEffects.SeqIter | src/domains/led/ledEffects.js:192-242 | one pass of the loop body keeps the index within the steps and a running fade on a step |
| LedEffects.SeqLoop | src/domains/led/ledEffects.js:189-245 | the loop, which stops after 16 passes, keeps the runner's state well-formed |
| LedEffects.SeqNext | src/domains/led/ledEffects.js:188-246 | next(now) keeps the runner's state well-formed |
| LedEffects.EmptySequenceDone | src/domains/led/ledEffects.js:198-200 | a sequence without steps is done |
| LedEffects.ZeroHoldSkipped | src/domains/led/ledEffects.js:218-222 | a 0 ms hold is skipped: the loop goes on with the next step |
| LedEffects.HoldWaits | src/domains/led/ledEffects.js:218-224 | a hold of ms > 0 moves past the step and asks to be called after ms, without a colour |
| LedEffects.FadeStepStarts | src/domains/led/ledEffects.js:226-240 | a linear fadeTo step of non-zero length starts from the current colour and asks for the next call in 20 ms |
| LedEffects.ZeroHoldsEndCall | src/domains/led/ledEffects.js:189-245 | even an endlessly looping sequence of 0 ms holds returns from next(), done, because of the 16-pass guard |
| LedEffects.SequenceRunner.constructor | src/domains/led/ledEffects.js:170-175 | the runner starts at step 0 with the loop count, the initial colour and no fade |
| LedEffects.SequenceRunner.AdvanceLoopIfNeeded | src/domains/led/ledEffects.js:177-185 | the fields and result are exactly those of Advance |
| LedEffects.SequenceRunner.Iterate | src/domains/led/ledEffects.js:192-242 | the fields and result are exactly those of one pass of the loop body |
| LedEffects.SequenceRunner.Next | src/domains/led/ledEffects.js:188-246 | the while loop computes exactly next(now) of the specification, state included |
| LedEffects.BreatheNext | src/domains/led/ledEffects.js:154-165 | a breathe runner always yields a colour, every 20 ms, and is never done |
| LedEffects.PrimaryXy | src/domains/led/ledEffects.js:24-30 | a null or undefined event has no position |
| LedEffects.CreateRunner | src/domains/led/ledEffects.js:88-251 | an unknown type gives the idle runner and only it; a fadeTo fades from the initial colour to the resolved target from now; a breathe keeps the event's position |
| LedEffects.RunnerNext | src/domains/led/ledEffects.js:88-251 | runner states stay well-formed; fade and breathe runners do not change; the idle runner is always done |
| LedEffects.UnknownTypeDone | src/domains/led/ledEffects.js:250 | an effect of unknown type is done on every call, whenever it is called |
| LedEffects.InstantFadeTo | src/domains/led/ledEffects.js:109-126 | a 0 ms fadeTo shows its resolved target at the first call and is done |
| LedScheduler.Accept | src/domains/led/ledScheduler.js:74-79 | accepted when nothing is active or interrupt is always; never refuses; ifLower accepts iff the priority is at least the active one |
| LedScheduler.ExpiresAt | src/domains/led/ledScheduler.js:68 | none iff ttlMs is null; otherwise now + ttlMs, never before now |
| LedScheduler.Start | src/domains/led/ledScheduler.js:50-70 | the new state keeps every held runner well-formed |
| LedScheduler.RequestWith | src/domains/led/ledScheduler.js:34-71 | request keeps every held runner well-formed |
| LedScheduler.RequestSpec | src/domains/led/ledScheduler.js:34-71 | corrected (the runner gets the sourceEvent, see Findings, ledScheduler.js:61-67): request keeps every held runner well-formed |
| LedScheduler.RequestAsWritten | src/domains/led/ledScheduler.js:34-71 | request as written keeps every held runner well-formed |
| LedScheduler.FinishSpec | src/domains/led/ledScheduler.js:112-115 | the last stacked entry becomes active and is ticked at once, the stack losing it; an empty stack leaves nothing active; colours stay |
| LedScheduler.AfterStep | src/domains/led/ledScheduler.js:99-109 | applying a step keeps every held runner well-formed |
| LedScheduler.TickSpec | src/domains/led/ledScheduler.js:86-110 | a tick keeps every held runner well-formed |
| LedScheduler.SameEffectOnlyUpdatesEvent | src/domains/led/ledScheduler.js:37-46 | the same effect at the same priority only replaces the event; the runner, expiry, stack, timer and colours stay |
| LedScheduler.RefusedChangesNothing | src/domains/led/ledScheduler.js:48 | a refused request changes nothing |
| LedScheduler.NeverDoesNotInterrupt | src/domains/led/ledScheduler.js:74-79 | a never-interrupt request leaves a running effect alone |
| LedScheduler.AcceptedBecomesActive | src/domains/led/ledScheduler.js:50-70 | an accepted request becomes active with a runner started from the last colour, expiry now + ttl, a tick due at once; the stack grows only by the replaced entry, and only when it pushes |
| LedScheduler.ReplacedWithoutRestoreIsDropped | src/domains/led/ledScheduler.js:50-52 | without restore and a strictly higher priority the stack is unchanged |
| LedScheduler.RestoreThenFinishResumes | src/domains/led/ledScheduler.js:50-52 | a restoring higher-priority request, once finished, gives back exactly the effect it replaced and the stack as before (LIFO) |
| LedScheduler.ExpiredIsFinished | src/domains/led/ledScheduler.js:91-94 | an expired effect is finished without its runner being called or anything published |
| LedScheduler.TickPublishesStep | src/domains/led/ledScheduler.js:97-109 | a tick publishes exactly the runner's colour, if any, and remembers it; if not done the next tick is after nextInMs, or 30 ms |
| LedScheduler.ZeroTtlShowsNothing | src/domains/led/ledScheduler.js:68-94 | a request with ttlMs 0 is finished at its first tick before publishing anything |
| LedScheduler.IdleTick | src/domains/led/ledScheduler.js:89 | a tick with nothing active changes nothing |
| LedScheduler.InstantFadeFinishes | src/domains/led/ledScheduler.js:34-115 | a 0 ms fadeTo request publishes its target once at the first tick and leaves it as the last colour |
| LedScheduler.EventHasPosition | src/domains/led/ledEffects.js:24-30 | the example event has a primary target position |
| LedScheduler.BreatheLosesEvent | src/domains/led/ledScheduler.js:61-67 | as written a breathe runner started for an event with a position has none; corrected it has it |
| LedScheduler.BreatheSeesEvent | src/domains/led/ledScheduler.js:55-67 | corrected, the breathe runner carries the position of the request's event |
| LedScheduler.Scheduler.constructor | src/domains/led/ledScheduler.js:16-26 | nothing active, an empty stack, last colour black, no timer |
| LedScheduler.Scheduler.Dispose | src/domains/led/ledScheduler.js:28-32 | the timer is cancelled and nothing is active or stacked |
| LedScheduler.Scheduler.Schedule | src/domains/led/ledScheduler.js:81-84 | the pending tick is replaced by one after ms |
| LedScheduler.Scheduler.Request | src/domains/led/ledScheduler.js:34-71 | corrected (the runner gets the sourceEvent, see Findings, ledScheduler.js:61-67): the new state is exactly the request's specification, runners kept well-formed |
| LedScheduler.Scheduler.Finish | src/domains/led/ledScheduler.js:112-115 | the new state is exactly the finish specification |
| LedScheduler.Scheduler.Emit | src/domains/led/ledScheduler.js:117-128 | the colour is appended to what the LED bus received |
| LedScheduler.Scheduler.Tick | src/domains/led/ledScheduler.js:86-110 | the new state is exactly the tick specification, runners kept well-formed |
| RadarSnapshotBuffer.PositiveFloorOr | src/domains/presence/tracking/snapshot/radarSnapshotBuffer.js:375-419 | a setting read as a finite positive number is floored (the result lies within 1 below it); anything else gives the getter's default |
| RadarSnapshotBuffer.NonNegativeFloor | src/domains/presence/tracking/snapshot/radarSnapshotBuffer.js:381-385 | the jitter delay is the floor of a finite non-negative setting, else 0 |
| RadarSnapshotBuffer.WholeSettingKept | src/domains/presence/tracking/snapshot/radarSnapshotBuffer.js:375-419 | a whole positive number of milliseconds is used as configured; 0 falls back to the default |
| RadarSnapshotBuffer.StuckWarn | src/domains/presence/tracking/snapshot/radarSnapshotBuffer.js:282-285 | the stuck threshold is always positive and is 20 when stuckTicksWarn is missing |
| RadarSnapshotBuffer.SettingsOf | src/domains/presence/tracking/snapshot/radarSnapshotBuffer.js:22-27 | a missing or non-object configuration gives every getter's default (50, 0, 5, 4000, off, 120, 250, 1500, 20) |
| RadarSnapshotBuffer.EnabledIn | src/domains/presence/tracking/snapshot/radarSnapshotBuffer.js:421-435 | expected radar ids are whole numbers and positions of the layout list |
| RadarSnapshotBuffer.EnabledInMembers | src/domains/presence/tracking/snapshot/radarSnapshotBuffer.js:421-435 | position i is an expected radar exactly when the layout list has an entry at i whose enabled is true |
| RadarSnapshotBuffer.ExpectedIds | src/domains/presence/tracking/snapshot/radarSnapshotBuffer.js:421-435 | the layout scan computes exactly the expected set |
| RadarSnapshotBuffer.Ascending | src/domains/presence/tracking/snapshot/radarSnapshotBuffer.js:128-130 | the ascending id list is strictly increasing and holds each id of the set once |
| RadarSnapshotBuffer.IncreasingUnique | src/domains/presence/tracking/snapshot/radarSnapshotBuffer.js:128-130 | two strictly increasing lists with the same ids are equal, so the sorted order is unique |
| RadarSnapshotBuffer.SortIds | src/domains/presence/tracking/snapshot/radarSnapshotBuffer.js:128-130 | the sort returns the ascending list of the ids |
| RadarSnapshotBuffer.Recent | src/domains/presence/tracking/snapshot/radarSnapshotBuffer.js:47-48 | the window filter never lengthens a buffer and keeps only frames at or after the cutoff |
| RadarSnapshotBuffer.RecentMembers | src/domains/presence/tracking/snapshot/radarSnapshotBuffer.js:47-48 | a frame survives the filter exactly when it was in the buffer and is not older than the cutoff |
| RadarSnapshotBuffer.RecentIdempotent | src/domains/presence/tracking/snapshot/radarSnapshotBuffer.js:361-364 | filtering twice with one cutoff is filtering once |
| RadarSnapshotBuffer.RecentAll | src/domains/presence/tracking/snapshot/radarSnapshotBuffer.js:361-364 | frames all inside the window pass the filter unchanged |
| RadarSnapshotBuffer.NewestSuffix | src/domains/presence/tracking/snapshot/radarSnapshotBuffer.js:50-52 | the trim keeps the last min(length, maxFrames) frames in order, and everything when maxFrames is 0 |
| RadarSnapshotBuffer.KeptWindow | src/domains/presence/tracking/snapshot/radarSnapshotBuffer.js:44-54 | after an ingest the buffer holds only frames inside the window, at most maxFrames, with the new frame last when it is inside the window and absent when it is not |
| RadarSnapshotBuffer.KeepFrames | src/domains/presence/tracking/snapshot/radarSnapshotBuffer.js:44-52 | the push, filter and trim compute the kept frames |
| RadarSnapshotBuffer.IngestEffect | src/domains/presence/tracking/snapshot/radarSnapshotBuffer.js:37-58 | an ingest replaces only that radar's buffer, makes the frame its latest whether or not it was kept, marks the radar seen and leaves tick times and the stuck counter alone |
| RadarSnapshotBuffer.IngestSpec | src/domains/presence/tracking/snapshot/radarSnapshotBuffer.js:37-58 | a non-finite radar id changes nothing; otherwise the frame becomes the radar's latest and the radar is seen; tick times and the stuck counter are untouched |
| RadarSnapshotBuffer.SnapshotBuffer.Ingest | src/domains/presence/tracking/snapshot/radarSnapshotBuffer.js:37-58 | a non-finite radar id changes nothing; otherwise the new state is the ingest of the frame |
| RadarSnapshotBuffer.LatestMeasTs | src/domains/presence/tracking/snapshot/radarSnapshotBuffer.js:60-67 | an unknown or non-finite radar id gives 0 |
| RadarSnapshotBuffer.LatestAfterIngest | src/domains/presence/tracking/snapshot/radarSnapshotBuffer.js:37-67 | right after an ingest the latest measurement time is that frame's, even when the window dropped it |
| RadarSnapshotBuffer.SnapshotBuffer.GetLatestMeasTs | src/domains/presence/tracking/snapshot/radarSnapshotBuffer.js:60-67 | answers the latest measurement time of the current state |
| RadarSnapshotBuffer.LastAtOrBefore | src/domains/presence/tracking/snapshot/radarSnapshotBuffer.js:331-340 | the backward scan finds the newest frame at or before t, with every later frame after t, or reports that all frames are after t |
| RadarSnapshotBuffer.Select | src/domains/presence/tracking/snapshot/radarSnapshotBuffer.js:326-345 | nothing is chosen exactly for an empty buffer; the choice is a buffered frame; when some frame is at or before t it is the newest such frame (every later frame is after t); when every frame is after t it is the newest frame |
| RadarSnapshotBuffer.SelectEntry | src/domains/presence/tracking/snapshot/radarSnapshotBuffer.js:326-345 | the loop chooses the frame Select describes |
| RadarSnapshotBuffer.CleanupBounds | src/domains/presence/tracking/snapshot/radarSnapshotBuffer.js:347-373 | after cleanup no buffer is empty, no new radar appears, every frame is within twice the window, and latest frames, seen radars and tick times are untouched |
| RadarSnapshotBuffer.CleanupSpec | src/domains/presence/tracking/snapshot/radarSnapshotBuffer.js:347-373 | latest frames, seen radars and tick times are untouched; with a positive window no buffer is left empty and no new radar appears |
| RadarSnapshotBuffer.CleanupIdempotent | src/domains/presence/tracking/snapshot/radarSnapshotBuffer.js:347-373 | cleaning up twice at one time is cleaning up once |
| RadarSnapshotBuffer.CleanupKeepsJustIngested | src/domains/presence/tracking/snapshot/radarSnapshotBuffer.js:37-58 | a frame just ingested inside the window is not removed by a cleanup at the same time |
| RadarSnapshotBuffer.CleanupKeepsRecent | src/domains/presence/tracking/snapshot/radarSnapshotBuffer.js:347-373 | a non-empty buffer inside the window survives cleanup unchanged |
| RadarSnapshotBuffer.PruneBuffers | src/domains/presence/tracking/snapshot/radarSnapshotBuffer.js:355-372 | the loop over the buffers filters each one and deletes those left empty |
| RadarSnapshotBuffer.SnapshotBuffer.Cleanup | src/domains/presence/tracking/snapshot/radarSnapshotBuffer.js:69-71 | cleanup changes only the buffers, and only when twice the window is positive |
| RadarSnapshotBuffer.MinLatestLeast | src/domains/presence/tracking/snapshot/radarSnapshotBuffer.js:83-97 | the scan finds the least positive latest measurement time of the covered radars, and none exactly when no covered radar has one |
| RadarSnapshotBuffer.WaitForAllSample | src/domains/presence/tracking/snapshot/radarSnapshotBuffer.js:78-103 | with waitForAll the sample time is no further back than the timeout, not before the slowest radar's latest frame, and at or before every radar's latest frame unless the timeout holds it; with no radar reporting it is now minus the jitter delay |
| RadarSnapshotBuffer.SampleTime | src/domains/presence/tracking/snapshot/radarSnapshotBuffer.js:77-103 | the sample-time computation gives the value the wait-for-all rule describes |
| RadarSnapshotBuffer.StatusOf | src/domains/presence/tracking/snapshot/radarSnapshotBuffer.js:193-206 | missing exactly beyond the missing timeout, stale exactly beyond the stale limit but within it, fresh otherwise |
| RadarSnapshotBuffer.RowOf | src/domains/presence/tracking/snapshot/radarSnapshotBuffer.js:134-221 | a radar without a frame is missing, not advanced and has no times; a radar with one reports its measurement time and a non-negative age; included exactly when fresh |
| RadarSnapshotBuffer.TallyCounts | src/domains/presence/tracking/snapshot/radarSnapshotBuffer.js:109-206 | each covered radar is counted exactly once as fresh, stale or missing, and at most once as advanced |
| RadarSnapshotBuffer.NoneAdvanced | src/domains/presence/tracking/snapshot/radarSnapshotBuffer.js:185-191 | the advanced count is zero exactly when no row advanced |
| RadarSnapshotBuffer.RowsFreshAgeBounded | src/domains/presence/tracking/snapshot/radarSnapshotBuffer.js:182-206 | every fresh row has an age between 0 and the stale limit |
| RadarSnapshotBuffer.TallyAges | src/domains/presence/tracking/snapshot/radarSnapshotBuffer.js:223-226 | the age maximum is within the stale limit; a minimum exists exactly when some radar is fresh and lies between 0 and the maximum |
| RadarSnapshotBuffer.NoFreshNoObservations | src/domains/presence/tracking/snapshot/radarSnapshotBuffer.js:223-235 | without a fresh radar there are no observations and no detections |
| RadarSnapshotBuffer.Survey | src/domains/presence/tracking/snapshot/radarSnapshotBuffer.js:134-255 | the per-radar loop produces the rows and counters of the chosen frames |
| RadarSnapshotBuffer.TicksNeverDecrease | src/domains/presence/tracking/snapshot/radarSnapshotBuffer.js:259-265 | a radar's previous-tick time never decreases |
| RadarSnapshotBuffer.TickOfRow | src/domains/presence/tracking/snapshot/radarSnapshotBuffer.js:259-265 | a covered radar's tick time becomes the larger of its old value and its selected time; other radars keep theirs |
| RadarSnapshotBuffer.AdvancedIffTickMoves | src/domains/presence/tracking/snapshot/radarSnapshotBuffer.js:185-191 | a radar is reported advanced exactly when its tick time moves forward |
| RadarSnapshotBuffer.SnapshotBuffer.AdvanceTickTimes | src/domains/presence/tracking/snapshot/radarSnapshotBuffer.js:259-265 | the loop raises each tick time as AdvanceTicks describes and changes nothing else |
| RadarSnapshotBuffer.SnapshotKeyFields | src/domains/presence/tracking/snapshot/radarSnapshotBuffer.js:267-274 | the snapshot key splits at '\|' back into one "id:floor(measTs)" or "id:na" part per covered radar, in order |
| RadarSnapshotBuffer.StuckResets | src/domains/presence/tracking/snapshot/radarSnapshotBuffer.js:276-280 | the stuck counter resets exactly when no radar is expected or some radar advanced, and otherwise grows by one |
| RadarSnapshotBuffer.SnapshotCoversRadars | src/domains/presence/tracking/snapshot/radarSnapshotBuffer.js:128-206 | a snapshot covers each expected radar once (or each radar with a latest frame when none is expected), in ascending order, and its fresh, stale and missing counts add up to them |
| RadarSnapshotBuffer.SnapshotAgesBounded | src/domains/presence/tracking/snapshot/radarSnapshotBuffer.js:223-257 | the snapshot's minimum and maximum radar ages lie between 0 and the stale limit |
| RadarSnapshotBuffer.SnapshotTicksNeverDecrease | src/domains/presence/tracking/snapshot/radarSnapshotBuffer.js:259-265 | taking a snapshot never moves any radar's previous-tick time back |
| RadarSnapshotBuffer.SnapshotBuffer.MakeSnapshot | src/domains/presence/tracking/snapshot/radarSnapshotBuffer.js:73-324 | returns the snapshot of the current state and advances the tick times and the stuck counter as specified |
| RadarSnapshotBuffer.SnapshotBuffer.constructor | src/domains/presence/tracking/snapshot/radarSnapshotBuffer.js:22-27 | the settings come from the configuration, the expected radars are the enabled layout positions, and every buffer starts empty |
| RadarSnapshotBuffer.SnapshotBuffer.Dispose | src/domains/presence/tracking/snapshot/radarSnapshotBuffer.js:29-35 | dispose clears every map and set and resets the stuck counter |
| FusionClusterer.Uf.constructor | src/domains/presence/tracking/fusion/fusionClusterer.js:9-12 | every element starts as its own root |
| FusionClusterer.Uf.Find | src/domains/presence/tracking/fusion/fusionClusterer.js:14-22 | find returns x's root; path compression keeps the forest valid, the ranks and every element's root |
| FusionClusterer.Uf.Union | src/domains/presence/tracking/fusion/fusionClusterer.js:24-45 | afterwards a and b share a root that was one of their two roots; elements of the two classes take it, every other element keeps its root, and nothing changes when a and b already shared one |
| FusionClusterer.FusionSettingsOf | src/domains/presence/tracking/fusion/fusionClusterer.js:57-82 | a missing or null clusterGateMm means 450 and a missing or null maxClusterSize means 10 |
| FusionClusterer.LinkedJoined | src/domains/presence/tracking/fusion/fusionClusterer.js:124-155 | two observations within the gate that come from one radar, or that both radars see at their midpoint, end up in one class of the pair scan |
| FusionClusterer.UnlinkedAlone | src/domains/presence/tracking/fusion/fusionClusterer.js:124-155 | an observation linked to no other stays alone in its class |
| FusionClusterer.LinkPairs | src/domains/presence/tracking/fusion/fusionClusterer.js:100-155 | the union-find after the pair scan puts two indices in one class exactly when the reference labelling does |
| FusionClusterer.GroupsPartition | src/domains/presence/tracking/fusion/fusionClusterer.js:157-163 | every index lies in exactly one group, and that group holds exactly the indices with its root |
| FusionClusterer.GroupsCount | src/domains/presence/tracking/fusion/fusionClusterer.js:157-163 | the groups hold the n indices, no more and no fewer |
| FusionClusterer.GroupsSameRel | src/domains/presence/tracking/fusion/fusionClusterer.js:157-163 | the groups and their order depend only on which indices share a root, not on which index is the root |
| FusionClusterer.GroupIndices | src/domains/presence/tracking/fusion/fusionClusterer.js:157-163 | the Map of find(i) to index lists is built in order of first appearance of each root, and finds change no root |
| FusionClusterer.FusedSources | src/domains/presence/tracking/fusion/fusionClusterer.js:190-277 | sourceRadars lists every member radar once and no other radar |
| FusionClusterer.FusedLatest | src/domains/presence/tracking/fusion/fusionClusterer.js:190-277 | once a member has a positive measurement time, the fused time is the latest member time |
| FusionClusterer.FusedRepresentative | src/domains/presence/tracking/fusion/fusionClusterer.js:190-277 | radar and provenance come from the first member of least variance, with a falsy provenance made null |
| FusionClusterer.FusedZone | src/domains/presence/tracking/fusion/fusionClusterer.js:190-277 | when the members name exactly one non-empty zone, the fused observation carries it |
| FusionClusterer.FusedVariance | src/domains/presence/tracking/fusion/fusionClusterer.js:190-277 | the fused variance is positive and no larger than any member's max(1, variance) |
| FusionClusterer.FusedWithinBox | src/domains/presence/tracking/fusion/fusionClusterer.js:190-277 | the weighted centroid lies inside every box that holds all members |
| FusionClusterer.FuseGroup | src/domains/presence/tracking/fusion/fusionClusterer.js:190-277 | the fusing loop yields the fused observation and variance of the group |
| FusionClusterer.EmitGroups | src/domains/presence/tracking/fusion/fusionClusterer.js:165-278 | the output is each group's emission, group after group, in the Map's order |
| FusionClusterer.ClusterSpec | src/domains/presence/tracking/fusion/fusionClusterer.js:57-188 | disabled or with at most one observation the input is returned as it is; otherwise output and variances have equal length between 1 and n |
| FusionClusterer.LinkedShareGroup | src/domains/presence/tracking/fusion/fusionClusterer.js:124-163 | any two linked observations land in one group |
| FusionClusterer.UnlinkedPassesThrough | src/domains/presence/tracking/fusion/fusionClusterer.js:172-178 | an observation linked to no other is emitted unchanged, with its variance or 1 |
| FusionClusterer.OversizePassesThrough | src/domains/presence/tracking/fusion/fusionClusterer.js:180-188 | every member of a group larger than a finite positive maxClusterSize is emitted unchanged, with its variance or 1 |
| FusionClusterer.FusedEmitted | src/domains/presence/tracking/fusion/fusionClusterer.js:190-277 | a group of two or more within the size limit is emitted as its one fused observation |
| FusionClusterer.Clusterer.Cluster | src/domains/presence/tracking/fusion/fusionClusterer.js:57-299 | cluster returns exactly the reference output for the configuration read at construction |
| FusionClusterer.Clusterer.constructor | src/domains/presence/tracking/fusion/fusionClusterer.js:52-55 | the settings are FusionSettingsOf the configuration, with the given visibility transform |
| TrackingObservationStage.Clamp01 | src/domains/presence/tracking/observation/trackingObservationStage.js:5-9 | a finite number is clamped into [0, 1] and left as it is when already inside |
| TrackingObservationStage.LerpBetween | src/domains/presence/tracking/observation/trackingObservationStage.js:11-13 | interpolating from a to b (a <= b) gives a value between a and b that never decreases as t grows |
| TrackingObservationStage.MapScaleBounds | src/domains/presence/tracking/debug/trackingDebugFormat.js:113-127 | a noise scale is at least 1 and at most scaleMax when scaleMax is finite and above 1, and exactly 1 otherwise |
| TrackingObservationStage.MapScaleMonotone | src/domains/presence/tracking/debug/trackingDebugFormat.js:113-127 | a larger bearing, range or displacement never gets a smaller noise scale |
| TrackingObservationStage.Setting | src/domains/presence/tracking/observation/trackingObservationStage.js:109-123 | a missing or null setting reads as its default; a numeric one is taken as it is |
| TrackingObservationStage.PositiveFloorOr | src/domains/presence/tracking/observation/trackingObservationStage.js:286-296 | a millisecond window is the floor of a finite positive setting, else its default, and is never negative |
| TrackingObservationStage.SettingsDefaults | src/domains/presence/tracking/observation/trackingObservationStage.js:104-123 | without settings the base noise is 160 mm, the jitter and history windows are 500 ms and stale scaling is off; both millisecond windows are non-negative |
| TrackingObservationStage.FilterSound | src/domains/presence/tracking/observation/trackingObservationStage.js:43-73 | without a finite positive cutoff the input is returned unchanged; with one an observation is kept exactly when it has no finite local position or its absolute bearing is within the cutoff; the output is no longer than the input and filtering twice filters once |
| TrackingObservationStage.KeepInMembers | src/domains/presence/tracking/observation/trackingObservationStage.js:52-72 | the kept observations are exactly the input's observations that pass the test, and no more of them than the input has |
| TrackingObservationStage.FilterObservations | src/domains/presence/tracking/observation/trackingObservationStage.js:43-73 | the filter loop returns the filtered observations |
| TrackingObservationStage.IndexOfKey | src/domains/presence/tracking/observation/trackingObservationStage.js:88 | a key lookup finds an entry with that key, or reports that no entry has it |
| TrackingObservationStage.DedupSound | src/domains/presence/tracking/observation/trackingObservationStage.js:75-101 | the deduplicated list has distinct keys, exactly the keys of the input, and each entry is an input observation with the latest timestamp of its key and no later one of equal timestamp |
| TrackingObservationStage.LaterWins | src/domains/presence/tracking/observation/trackingObservationStage.js:88-97 | of two observations with one key the later is kept, and on equal timestamps the second |
| TrackingObservationStage.DedupObservations | src/domains/presence/tracking/observation/trackingObservationStage.js:75-101 | the dedup loop over a keyed Map returns the deduplicated list in first-appearance order of the keys |
| TrackingObservationStage.DedupOne | src/domains/presence/tracking/observation/trackingObservationStage.js:79-97 | one step of the dedup loop extends the result by that observation and keeps the key-to-position index exact |
| TrackingObservationStage.SlotOrRadarKey | src/domains/presence/tracking/observation/trackingObservationStage.js:192-202 | the history key of an observation is never empty |
| TrackingObservationStage.TsOf | src/domains/presence/tracking/observation/trackingObservationStage.js:153-154 | the time used is the measurement time when positive, else now |
| TrackingObservationStage.Prev | src/domains/presence/tracking/observation/trackingObservationStage.js:205-214 | a previous history entry is read only for a non-empty key and a positive time, and is the stored one |
| TrackingObservationStage.Record | src/domains/presence/tracking/observation/trackingObservationStage.js:205-212 | the history entry for the key becomes (time, x, y) unless the key is empty or the time not positive, and nothing else changes |
| TrackingObservationStage.Motion | src/domains/presence/tracking/observation/trackingObservationStage.js:214-222 | a displacement is only measured against a strictly earlier entry, and within the window when it is finite and positive |
| TrackingObservationStage.JitterScale | src/domains/presence/tracking/observation/trackingObservationStage.js:204-226 | the jitter scale is between 1 and the jitter cap, and exactly 1 at a key's first sighting |
| TrackingObservationStage.SpeedScaleBounds | src/domains/presence/tracking/observation/trackingObservationStage.js:249-263 | the speed scale is between 1 and max(1, scaleMax) and never smaller for a larger speed |
| TrackingObservationStage.JumpScale | src/domains/presence/tracking/observation/trackingObservationStage.js:228-264 | the jump scale is between 1 and 10, and exactly 1 at a key's first sighting |
| TrackingObservationStage.StaleScaleBounds | src/domains/presence/tracking/observation/trackingObservationStage.js:122-125 | the stale scale is between 1 and max(1, staleNoiseScaleMax) and grows as the measurement ages |
| TrackingObservationStage.EdgeScale | src/domains/presence/tracking/observation/trackingObservationStage.js:140-147 | the bearing scale is between 1 and the edge cap, and 1 without a finite local position |
| TrackingObservationStage.RangeScale | src/domains/presence/tracking/observation/trackingObservationStage.js:140-151 | the range scale is between 1 and the range cap, and 1 without a finite local position |
| TrackingObservationStage.BaseVar | src/domains/presence/tracking/observation/trackingObservationStage.js:104-105 | the base variance is at least 1 and at least the square of the base noise |
| TrackingObservationStage.ScalesOf | src/domains/presence/tracking/observation/trackingObservationStage.js:140-184 | every scale of an observation lies between 1 and its cap; at a key's first sighting jitter and jump are 1 |
| TrackingObservationStage.ProductWithin | src/domains/presence/tracking/observation/trackingObservationStage.js:186 | scales between 1 and their caps multiply to between 1 and the product of the caps |
| TrackingObservationStage.VarsOf | src/domains/presence/tracking/observation/trackingObservationStage.js:127-189 | there is one variance per observation |
| TrackingObservationStage.VarsStep | src/domains/presence/tracking/observation/trackingObservationStage.js:129-187 | the variances and the history after one more observation are the earlier ones followed by that observation's, computed against the history the earlier ones left |
| TrackingObservationStage.VarsWithin | src/domains/presence/tracking/observation/trackingObservationStage.js:127-189 | every variance lies between the base variance and the base variance times the largest product of scales |
| TrackingObservationStage.HistoryUntouched | src/domains/presence/tracking/observation/trackingObservationStage.js:205-212 | a key under which no observation is recorded keeps its history entry, or its absence |
| TrackingObservationStage.HistoryHoldsLast | src/domains/presence/tracking/observation/trackingObservationStage.js:211-212 | a key's history entry holds the time and position of the last observation recorded under it |
| TrackingObservationStage.PrunedSound | src/domains/presence/tracking/observation/trackingObservationStage.js:266-284 | with a non-positive ttl nothing is dropped; otherwise exactly the entries older than ttl go, the survivors are unchanged, pruning twice prunes once, and a later now keeps fewer keys |
| TrackingObservationStage.PruneHistory | src/domains/presence/tracking/observation/trackingObservationStage.js:271-276 | the deletion loop over one Map leaves the pruned Map |
| TrackingObservationStage.StageOutput | src/domains/presence/tracking/observation/trackingObservationStage.js:34-41 | the stage's output deduplicates the filtered observations and gives each a variance within the base variance and its largest scaling |
| TrackingObservationStage.Stage.constructor | src/domains/presence/tracking/observation/trackingObservationStage.js:21-23 | a stage starts from cfg or {}, with both histories empty |
| TrackingObservationStage.Stage.Dispose | src/domains/presence/tracking/observation/trackingObservationStage.js:25-28 | dispose empties both histories |
| TrackingObservationStage.Stage.Cleanup | src/domains/presence/tracking/observation/trackingObservationStage.js:30-32 | cleanup prunes both histories with a ttl of twice the jitter window |
| TrackingObservationStage.Stage.JitterScaleFor | src/domains/presence/tracking/observation/trackingObservationStage.js:204-226 | the jitter scale is taken against the previous entry, which is then overwritten; the jump history is untouched |
| TrackingObservationStage.Stage.JumpScaleFor | src/domains/presence/tracking/observation/trackingObservationStage.js:228-264 | the jump scale is taken against the previous entry, which is then overwritten; the jitter history is untouched |
| TrackingObservationStage.Stage.VarFor | src/domains/presence/tracking/observation/trackingObservationStage.js:129-187 | one loop pass gives the observation's variance and records it in the history |
| TrackingObservationStage.Stage.ComputeMeasVar | src/domains/presence/tracking/observation/trackingObservationStage.js:103-190 | the variances are those of the specification, and the history is left as the specification says |
| TrackingObservationStage.Stage.Process | src/domains/presence/tracking/observation/trackingObservationStage.js:34-41 | process returns the filtered, the deduplicated and the variances, and advances the history over the deduplicated observations |
| TrackingPipeline.ModeNames | src/domains/presence/tracking/trackingPipeline.js:124-128 | the three mode names read back as their modes, and a text that does not select kf is the name of the mode it selects |
| TrackingPipeline.ModeOfSetting | src/domains/presence/tracking/trackingPipeline.js:124-128 | a missing or falsy mode setting means kf, and each mode's own name selects that mode |
| TrackingPipeline.ToNonNegInt | src/domains/presence/tracking/trackingPipeline.js:747-750 | a finite non-negative number gives the whole number within 1 below it; a non-finite number or one below 1 gives 0 |
| TrackingPipeline.ToNonNegIntAgrees | src/domains/presence/tracking/trackingPipeline.js:747-750 | the pipeline's conversion agrees with the snapshot buffer's non-negative floor on every value |
| TrackingPipeline.SettingsDefaults | src/domains/presence/tracking/trackingPipeline.js:308-313 | without settings (read here, at 46-47 and at 130-138) the pipeline is enabled, runs kf with a 50 ms tick, clamps prediction at 400 ms, drops after 1500 ms, confirms after 3 hits within 400 ms and has no spawn gate |
| TrackingPipeline.ClampedMeasTs | src/domains/presence/tracking/trackingPipeline.js:172-178 | the measurement time never goes below the raw time nor, when the radar has one, below its latest; it is changed exactly when it is behind a positive latest, and then becomes latest + 1 |
| TrackingPipeline.StripProvenanceKeeps | src/domains/presence/tracking/trackingPipeline.js:140-152 | with debug on the provenance is kept as it is; otherwise only publishAs, radarId, slotId, measTs and localMm are kept, a missing one as null |
| TrackingPipeline.StrippedSlotIsZero | src/domains/presence/tracking/trackingPipeline.js:140-152 | stripping keeps the publishAs; without debug a missing slotId becomes null and so reads as slot 0, with debug it stays missing |
| TrackingPipeline.ObservationsSound | src/domains/presence/tracking/trackingPipeline.js:201-224 | no more observations than tracks; each carries the frame's time, radar and zone; every track with a finite world position gives an observation at that position |
| TrackingPipeline.FrameSound | src/domains/presence/tracking/trackingPipeline.js:154-251 | a frame without a finite positive ts is an error; one without a finite radar id or finite positive measTs is dropped; a taken frame has a time no earlier than its raw time nor the radar's latest, counts its own observations and stamps each with its time and radar |
| TrackingPipeline.FrameOf | src/domains/presence/tracking/trackingPipeline.js:154-251 | an event without a finite positive ts is an error; one without a finite radar id or finite positive measTs is dropped; a taken frame counts its own observations |
| TrackingPipeline.LatestNeverGoesBack | src/domains/presence/tracking/trackingPipeline.js:172-178 | after a frame is taken its radar's latest measurement time is positive and not earlier than before |
| TrackingPipeline.CollectObservations | src/domains/presence/tracking/trackingPipeline.js:201-224 | the loop over the frame's tracks returns the frame's observations |
| TrackingPipeline.PredictDtMs | src/domains/presence/tracking/trackingPipeline.js:318-336 | the prediction step lies between 0 and the clamp and is the elapsed time when that is inside |
| TrackingPipeline.VarAt | src/domains/presence/tracking/trackingPipeline.js:369 | a measurement variance is at least 1, and is the fused variance when that is at least 1 |
| TrackingPipeline.Hit | src/domains/presence/tracking/trackingPipeline.js:353-426 | a hit keeps the track's id and first-seen time, marks it seen and updated now on the measurement's radar and zone, adds the radars, counts a tentative hit, and the track is confirmed exactly when it was already or the hits reach the count within the window |
| TrackingPipeline.IndexOfId | src/domains/presence/tracking/trackingPipeline.js:354-356 | a track lookup finds a track with that id, or reports that none has it |
| TrackingPipeline.HitsKeepIds | src/domains/presence/tracking/trackingPipeline.js:353-426 | applying the assignments keeps every track in place with its id and never takes back a confirmation |
| TrackingPipeline.SpawnSound | src/domains/presence/tracking/trackingPipeline.js:428-432 | spawning appends new tracks after the existing ones, numbered from the next sequence number on, each tentative with one hit (confirmed when confirmation is off) and outside the spawn gate of every earlier track; ids stay distinct |
| TrackingPipeline.LiveSound | src/domains/presence/tracking/trackingPipeline.js:434-441 | dropping keeps exactly the tracks seen less than dropTimeoutMs ago, and ids stay distinct |
| TrackingPipeline.TickSound | src/domains/presence/tracking/trackingPipeline.js:308-441 | a tick keeps track ids distinct and below the sequence number, never lowers the sequence number, and in kf and assocOnly mode leaves only tracks seen less than dropTimeoutMs ago |
| TrackingPipeline.TickTracks | src/domains/presence/tracking/trackingPipeline.js:308-441 | passthrough mode leaves tracks and sequence number alone; otherwise every track left was seen less than dropTimeoutMs ago |
| TrackingPipeline.NeverUnconfirmed | src/domains/presence/tracking/trackingPipeline.js:420-425 | a confirmed track that survives a tick is still confirmed |
| TrackingPipeline.PredictTracks | src/domains/presence/tracking/trackingPipeline.js:318-336 | the prediction loop clears the updated flag and predicts every track (kf mode only) |
| TrackingPipeline.ApplyHits | src/domains/presence/tracking/trackingPipeline.js:353-426 | the assignment loop applies the hits in order, skipping unknown tracks |
| TrackingPipeline.CanSpawnNewTrack | src/domains/presence/tracking/trackingPipeline.js:732-745 | a measurement may spawn exactly when the gate is off or no track is within the gate |
| TrackingPipeline.SpawnUnassigned | src/domains/presence/tracking/trackingPipeline.js:428-432 | the spawn loop returns the spawned tracks and the next sequence number |
| TrackingPipeline.DropStale | src/domains/presence/tracking/trackingPipeline.js:434-441 | the drop loop returns the live tracks |
| TrackingPipeline.Pipeline.constructor | src/domains/presence/tracking/trackingPipeline.js:40-79 | the settings are read from the configuration (an empty one when missing), the snapshot and observation stage start empty, there are no tracks, no subscription and no timer |
| TrackingPipeline.Pipeline.Start | src/domains/presence/tracking/trackingPipeline.js:83-104 | a disabled or already started pipeline is left as it is; otherwise it subscribes and sets a timer at the update interval; tracks are untouched |
| TrackingPipeline.Pipeline.Dispose | src/domains/presence/tracking/trackingPipeline.js:106-122 | unsubscribes, stops the timer, clears the tracks and empties the snapshot and observation stage |
| TrackingPipeline.Pipeline.OnLd2450Tracks | src/domains/presence/tracking/trackingPipeline.js:154-251 | an event without a valid ts is an error and changes nothing; a dropped event changes nothing; a taken frame is ingested into the snapshot buffer under its radar |
| TrackingPipeline.Pipeline.UpdateTracks | src/domains/presence/tracking/trackingPipeline.js:308-441 | the tick's track phase leaves the tracks and sequence number TickTracks gives, keeps them well-formed and touches nothing else |

## Left out

- PicoResetPixel: the firmware's serial prints, the echo of a parsed colour (code.py:110) and the "Data read error" message of a line that fails to parse (code.py:119), are console output and are not modelled; a failed line leaves the colour unchanged, as in the firmware.
- RecordingService.Service.constructor: the service is built with its mode already known; the missing_service_mode BAD_REQUEST thrown when mode, config.mode and config.runtime.mode are all blank (recordingService.js:144-155) is not modelled.
- LogicalClock.Clock.ToLocalParts: the time to convert is always passed; the default argument this.nowMs() (clock.js:79) is not modelled, and a caller wanting the current local time passes the clock's own reading.
- Ws2812Led.Device.constructor: the initial rebind to the device's configured serial path (ws2812LedDevice.js:50-53) and the throw when no main bus is given (ws2812LedDevice.js:46-48) are not modelled; a device starts unlinked, and the link flag stands for the serial link that rebinding would open.
- Hardware of the microcontroller: the debouncer, the long-press detector, the tick counter and the serial port are inputs of `Controller.Iterate`. Pixel writes are recorded, not timed.
- adafruit_ticks is not part of this model. `TicksDiff` assumes the library's documented 2^29 ms period.
- The microcontroller's UTF-8 decoding of serial bytes is not modelled. The model receives decoded text, and a decoding error, which the firmware does not catch, is not represented.
- `PyInt` follows Python's base-10 int() for ASCII text: sign, digits and single underscores between digits. Non-ASCII digits are not accepted.
- Ws2812Led: the serial link's opening, status events, protocol-error de-duplication and rebinding are not modelled. A write's outcome is a parameter, and the asynchronous ordering of writes and reports is collapsed into one step.
- Numbers are exact rationals. IEEE double rounding is not modelled, and String(x) of a non-integer uses fixed notation without exponent form.
- Ld2450Decode: each push uses one clock reading for all its events, where the source reads nowMs() per frame and for the stats event. Emitted events are recorded in order; listeners are not modelled.
- Ld2450Decode: opts.emitStats is read once when the decoder is created; the source reads it on each push, so later changes to the options object are not represented.
- Ld2450Decode: Buffer.subarray shares memory with its parent; the model copies, which no code in the decoder can observe.
- Ld2460Decode: each push uses one clock reading for all its events, where the source reads nowMs() once for the frames and again for the stats event; listeners are not modelled, and opts.emitStats is read once when the decoder is created.
- Ld2410Decode: each push uses one clock reading for all its events, where the source reads nowMs() per frame and for the stats event; listeners are not modelled, and opts.emitStats is read once when the decoder is created.
- Ld2410Decode: readUInt16LE on a payload shorter than its offset throws in the source; the decoder only reads fields of payloads of 13 or 35 bytes, so that path cannot arise there and is not modelled.
- ShortId: the clock reading is a parameter (seconds and milliseconds of the minute). 62 ** chars is exact, where JavaScript loses precision beyond 2^53, from nine characters on. The module-level lastTime and counter are the fields of one Generator object.
- Geometry: polarToXY is trigonometry and is not modelled.
- StatsWindow: the constructor receives maxN itself; a call without an options object, which throws a TypeError in the source, is not modelled.
- VirtualBinaryInput: handlers are identifiers, and the calls set makes are returned in order rather than made. A handler that throws, or that subscribes or unsubscribes while set iterates, is not modelled.
- AssociationEngine: coordinates are finite numbers, so a non-numeric xMm or yMm, which gives a NaN distance that never passes the gate, is not modelled. Track ids are strings compared by value, and the assignments Map is its list of entries in insertion order.
- LogicalClock: setLocalDateTime needs the Date.UTC calendar (years, months, leap days) and is not modelled. The real clock (Date.now()) is the parameter realNow, read once per operation, where #emitChange reads it a second time for the notified nowMs. The onChange listener set is not modelled; each operation returns the change it would notify.
- LogicalClock: the time-zone offset and advance amounts are integers; a non-numeric or fractional argument, which gives NaN or fractional times in the source, is not modelled.
- TimeScheduler: setTimeout and clearTimeout are not modelled; a handle records the delay its timeout was given, and firing is the method `Fire`, called for a token. crypto.randomBytes is the token parameter. The published event's streamKey is left out: makeStreamKey and getBusId are not part of this model.
- TimeScheduler: the clock listener is the `subscribed` flag; the clock calls `RescheduleAll` on each change.
- RuleEngine: a priority is a number or absent; a non-numeric priority, which makes the comparator return NaN, is not modelled. Rule ids and actions are kept as JavaScript values.
- CharlieCore: the PromptAssembler and the prompt text are not modelled; the start call carries the request id, mode and opener but not the assembled prompt. The conversation adapter is not called: the call a handler makes is returned, and an adapter that throws is not modelled.
- CharlieCore: the bus subscription is the `subscribed` flag, and the scheduler's published event reaches the core through `DeliverTimer`; other bus subscribers and their ordering are not modelled.
- CharlieCore: timer delays from config.timers are integers or absent; non-numeric delays are not modelled. The clock's local time must lie within the range a Date can hold (`EnvOk`); outside it the source computes NaN parts, which the model does not represent.
- CharlieCore.Core.HandleEvent: requires that the scheduler's tokens are not empty strings (`EnvOk`), which crypto.randomBytes(8) guarantees.
- Gpio: the backend, its processes, the event bridges and #applyConfig are not modelled; lower-casing is ASCII, where toLowerCase also folds other scripts.
- UsbInventory: the periodic scan (SerialPort.list, /dev/serial/by-id, the interface extraction regexes) and the timer are I/O and are not modelled; the diff takes the scan's result as its input.
- UsbInventory.Signature: localeCompare is taken as code-point order, and JSON.stringify of the sorted list is modelled by the sorted list itself.
- UsbInventory.SignatureOrderFree: stated only when endpoints sharing a sort key are identical, because the stable sort keeps the input order of distinct endpoints whose keys tie.
- UsbInventory.KeyMatchesAnswers: stated only for well-formed identities (non-empty, colon-free parts), which is what normalisation and the scan produce.
- UsbInventory: getSnapshot returns copies of the stored devices; copying and the event emitter are not modelled beyond the list of emitted events.
- CliCompleter: reading the config directory, getContext and their exceptions are replaced by a context value holding the bus names, zone names, device ids and file names; the try/catch fallbacks are not modelled.
- CliCompleter: the children lookup is by key only; JavaScript's inherited object keys (such as `constructor`) are not modelled.
- CliRecording: recordingCompleterNode, handleRecording and printRecordingHelp (console output and the recording service calls) are not modelled.
- ButtonEdge: the published events keep ts, deviceId and publishAs; type, source and the constant edge field are implied, and the debug log is not modelled.
- ButtonEdge.ButtonEdgeDevice.Inject: the hold timer is not armed here; the timer's callback is the Release method, to be called by the environment after the hold time.
- ButtonEdge.DisposeEdge: disposing the input itself (the gpio line or the virtual input's handlers) is not modelled.
- DeviceManager: the manager holds each device as a value in its map rather than a shared object, so aliasing between the devices list and the map is not modelled; devices lists only the started ids.
- DeviceManager.MakeDevice: the gpio input's construction (chip, line, activeHigh) and its possible errors are not modelled; only the protocol type decides.
- DeviceManager: a non-string id or reason, an entry that is not an object and the logger's messages are not modelled; ids are the trimmed string or blank.
- DeviceManager.Manager.Inject: the hold timer the device arms is not run by the manager (see ButtonEdge.ReleaseEdge).
- BusStream: the event itself, the onEvent functions, the logger and errors thrown by handlers or unsub are not modelled; Publish answers the set of clients an event is handed to, not the order of the calls.
- BusStream: the bus registry is given at construction as its names and the set of names whose bus can subscribe; a registry changed afterwards is not modelled.
- BusStream.AttachSpec: the detach function attachClient returns is DetachClient with the same id; hasOnEvent stands for typeof onEvent === 'function'.
- BusStream.AddToRegs: #ensureBusReg's check that the bus can subscribe always passes, because every wanted bus is allowed, so it is not repeated.
- ButtonController, VibrationController: configured ids are JavaScript values compared structurally, where a Map compares objects by identity; the logger, the controller id, the streamKey and the event's source and type fields are not modelled.
- ButtonController.Controller.OnEvent, VibrationController.Controller.OnEvent: the clock's reading is the parameter now; #publishPress and #publishHit read the clock again, which the model takes to give the same time.
- RecordingFormat: the error messages are not modelled, only the error codes.
- RecordingFormat: normalizeRecordingPath is not modelled: it only resolves file-system paths.
- RecordingFormat: `streamsObserved[streamKey]` is read as an own property; keys inherited from Object.prototype (such as "toString") are not modelled.
- Recorder: the logger and getSnapshot are not modelled; getSnapshot only copies fields.
- Recorder: bus subscription is modelled as the list of subscribed bus names; a bus name configured twice subscribes twice, and the unsubscribe callbacks are not modelled.
- Recorder.OnEventSpec: whether JSON.stringify throws on the event is a parameter (`serializable`).
- Recorder: the clock is a parameter (`now`) of each operation that reads it.
- Player: an infinite speed (Number(speed) === Infinity) is excluded by the requires of SpeedOf, StartError, ResumeError, ResumeSpec and the methods Start, Resume and SetSpeed; logical time at infinite speed needs IEEE arithmetic the model does not have.
- Player: the clock (nowMs) is read once per operation and passed as `now`; setTimeout and clearTimeout are modelled by the armed timer's delay, so the timer handle, Node's clamping of delays and a callback racing an operation are not modelled.
- Player: the logger, getSnapshot (a read-only view of the fields Play holds) and the error messages are not modelled; only the error codes are.
- Player: the device manager is modelled by parameters: inject's outcome as a function of device id and payload, blockDevices' answer as a value (undefined when it threw), and whether blockDevices and unblockDevices exist as canBlock and canUnblock; unblockDevices' own result is not observable and is left out.
- Player.BlockLabels: the owner and reason passed to blockDevices are computed but the call's arguments are not recorded; DevicesToBlock gives the ids as a set, not in first-seen order.
- Player.SinkMap: the entries are taken in the order given; Object.entries' ordering of integer-like keys first is not modelled.
- Player.Player.Start: does not state Valid() afterwards directly; it follows from the invariant ConfigureSpec and PlaySpec ensure.
- RecordingService (file system): reading the profile file, JSON5 parsing, resolveFromProjectRoot, ensureJson5Name, resolveInsideDir and the recordings store are I/O; LoadProfile takes the parsed file contents, and the "missing profileFile" check on the file name is not modelled.
- RecordingService (player operations): playLoad, playStart, playPause, playResume, playStop, playLast and playPlay forward to the player (modelled in the Player module) or need the recordings store; they are not part of this model.
- RecordingService (recorder and timer): creating the Recorder, its meta and select options, the auto-stop timer (only its deadline autoStopAtMs is kept), nowLocalStamp, the file-name counter, logging, snapshots and the handle/doHandle/handleCli error wrapping are not modelled.
- RecordingService (error messages): errors are modelled by their code (CONFLICT, BAD_REQUEST); the message text and the `what` parameter that names the failing part are dropped.
- RecordingService.Merge: keys named `__proto__` and other prototype-chain effects of `{ ...base }` and `out[k] = v` are not modelled; objects are lists of own properties.
- RecordingService.ParseDurationMs: a digit string so long that Number() overflows to Infinity is refused by the source (isFinite); numbers here are exact reals, so such a string gives a huge value instead; toLowerCase is modelled for ASCII only.
- RecordingService.Service.RecordStop: clearing the timer and stopping the recorder (which writes the file) are I/O; only the state change is modelled.
- LedValidate.ValidateRgbValue, ValidateGradientStops, ValidateDo, NormalizeLoop, ValidateTargetSelector: error messages keep their fixed wording only; the interpolated context (effect name, index, alias) is not modelled, and a thrown error is an Err result.
- LedValidate.SortStops: states sorted and permutation; the stability of the JavaScript sort (equal t keep input order) is built into the insertion but not stated as a lemma.
- LedValidate.ValidateTargetSelector: the validated targets.alias is a map from name to ledId, as validateTargets (src/domains/led/ledValidate.js:365-382) produces it; validateTargets itself is not modelled.
- The effect validators (frames, fadeTo, breathe, sequence), validateEffects, validatePalette, validateTargets, validateWhen, validateRules and validateLedConfig (src/domains/led/ledValidate.js:115-481) are not modelled; they assemble the pieces above and throw on their own shape errors.
- LedEffects: the easing curve 0.5 - 0.5 cos(pi t) and the breathe colour (oscillator, gradient sampling, distance and speed modulators, src/domains/led/ledEffects.js:10-47 and 128-167) are floating-point functions given as parameters (Curves); sampleGradient and osc are not modelled.
- LedEffects.FramesRunner: an empty frames list, which validateEffectFrames refuses, would make next() throw; the model requires at least one frame.
- LedEffects.PrimaryXy: Math.hypot is not computed; the model keeps the xy array, whose presence decides whether distanceM is null.
- LedEffects.RunnerNext: the scheduler holds runners as values, so a runner is never shared; the runner classes and the value functions are the same steps.
- LedEffects.FadeNext: the ms || 0 coercion of createFadeRunner is applied by the validator; the model takes a whole number of milliseconds.
- LedScheduler: the clock, setTimeout and the LED bus are the now parameter, the pending delay and the list of colours published; the event's ts, source and ledId fields are not modelled.
- LedScheduler.Request: requires the effect to exist in the configuration, as the rule validator guarantees; an unknown effect makes createEffectRunner throw.
- RadarSnapshotBuffer: the debug output (debugRadars, ingestDebug), slotCount, publishAs and zoneId are not modelled; the clock is the parameter now.
- RadarSnapshotBuffer: frame timestamps are finite reals, as the tracking pipeline only ingests frames with a finite positive measurement time (src/domains/presence/tracking/trackingPipeline.js:158-178); the non-finite skips in the filters and the backward scan are therefore not modelled.
- RadarSnapshotBuffer.SnapshotKeyFields: stated for whole-number radar ids, which is what the layout positions and the LD2450 radar ids are; String(x) of a fractional id is not unfolded.
- RadarSnapshotBuffer: meta.waitForAll is true or null in the source; the model keeps the boolean.
- RadarSnapshotBuffer: the configuration is read once at construction; the source reads the getters on every call, so a configuration object changed afterwards is not modelled.
- FusionClusterer: the debug output (cluster radii with their maximum and 95th percentile, member lists, the merge and rejection counters, clustersMultiRadar) is not modelled; it does not feed back into the clustering.
- FusionClusterer: isVisible's trigonometry and the transform to radar-local coordinates are the parameter visible, a predicate on radar id and world position.
- FusionClusterer: observations and variances are sequences of finite reals; the non-array fallbacks to [] and NaN variances (which Number(x) || 1 turns into 1) are not modelled, so only a zero variance becomes 1.
- FusionClusterer.Clusterer.constructor: cfg || {} is the Js value itself; an undefined configuration reads every default, as {} does.
- TrackingObservationStage: an observations argument that is not an array reads as []; the model takes a sequence.
- TrackingObservationStage: an observation's measTs, radarId, xMm and yMm are finite reals, so the NaN and missing-field paths of `Number(m?.measTs) || 0` and of the displacement checks are not modelled; now is a finite real.
- TrackingObservationStage: Math.atan2 in degrees and Math.sqrt are the parameters of a Geometry, not computed.
- TrackingObservationStage: floating-point rounding and overflow (baseMm * baseMm becoming Infinity) are not modelled; arithmetic is on reals.
- TrackingObservationStage: the empty-key guard of the scale computations never fires, because the key is never empty; it is modelled anyway.
- TrackingObservationStage.PruneHistory: the deletion of entries whose time is not finite is not modelled, because recorded times are always positive reals.
- TrackingObservationStage: the filter, dedup and history are proved for any key and local-position function; the stage passes the source's.
- TrackingPipeline: the tick's wiring of the snapshot, observation stage, clusterer, association engine, health monitor and publishing is not modelled; the track phase (Pipeline.UpdateTracks) takes the association's assignments, unassigned indices and fused variances as inputs.
- TrackingPipeline.Pipeline.UpdateTracks: the radar-switch handover (shouldAcceptRadarSwitch, findFallbackMeasIdxSameRadar) is not modelled; the assignments are applied as given, so a refused switch and its same-radar fallback are out of the model, because the check depends on angles (atan2) of debug data.
- TrackingPipeline: the Kalman filter is a parameter (its predict and update as functions of the kinematic state); its covariance, the square root of the variance and the initial state's covariance are not modelled; a new track starts at the measurement at rest, as createInitial does.
- TrackingPipeline: the health monitor's noteSanity calls (measWentBackwards, negativeRecvLag, recvLagHuge, slotCountTooHigh, detectionsGtSlots, nonFiniteWorld) are logging only and are left out.
- TrackingPipeline: publishing (publishPassthrough and the global tracks event: rounding, the speed epsilon, the debug block, the passthrough sequence counter) is left out; it only formats output.
- TrackingPipeline: track ids are the pair (creation time, sequence number) rather than the string t<now>:<seq>; the Map of tracks is a sequence in creation order and sourceRadars a set, so insertion order of radars is not kept.
- TrackingPipeline: the drop flag is modelled as filtering the tracks; the bus subscription check in the constructor, the logger and the clock (a now parameter) are left out; the interval timer is its period.
- TrackingPipeline.FrameOf: the frame's radarId, zoneId, publishAs, slotCount and debug fields are not part of the snapshot entry, as in RadarSnapshotBuffer.
- TrackingPipeline.Pipeline.UpdateTracks: an assignment or unassigned index outside the observations is excluded by a requires; the source would fail on it.
- Ld2450Decode.DecodeTrackingFrames: computes the corrected droppedBytes of the Findings row for ld2450Decode.js:43-50 (after a decoded frame, a missing further header keeps the first frame's offset); `Ld2450Decode.DecodeAsWritten` keeps line 47 as written.
- Ld2450Decode.StreamDecoder.Push: decodes with the corrected scan, so after a frame followed by noise totalDropped and the DROPPED_NOISE report follow the correction, not ld2450Decode.js:47 as written.
- Ld2460Decode.DecodeTrackingFrames: computes the corrected droppedBytes of the Findings row for ld2460Decode.js:46-53; `Ld2460Decode.DecodeAsWritten` keeps the source's value.
- Ld2460Decode.StreamDecoder.Push: decodes with the corrected scan, so totalDropped and the DROPPED_NOISE report after a packet followed by noise follow the correction, not ld2460Decode.js:46-53 as written.
- Ld2410Decode.DecodeReportFrames: follows the corrections of the Findings rows for ld2410Decode.js:52-54, 59-71 and 184-185 (a trailing header prefix and the unscanned bytes are kept, droppedBytes stays the first frame's offset); `Ld2410Decode.DecodeAsWritten` keeps the source's scan.
- Ld2410Decode.StreamDecoder.Push: decodes with the corrected scan, so a report split across two chunks, which the source loses, is decoded, and totalDropped follows the correction.
- ShortId.Generator.Next: returns the corrected identifier of exactly chars characters (Findings row for shortId.js:33-47); as written (`ShortId.IdAsWritten`) a value of 62^chars or more gives a longer one, which happens only below three characters (`ShortId.IdFitsFromThreeChars`).
- ButtonController.Controller.OnEvent, ButtonController.Deliver, ButtonController.Run: use the corrected OnEdge, which publishes the press that buttonController.js:124 as written never publishes (`ButtonController.OnEdgeAsWritten` keeps the throw).
- VibrationController.Controller.OnEvent, VibrationController.Deliver, VibrationController.Run: use the corrected OnHit, which publishes the hit that vibrationController.js:90 as written never publishes (`VibrationController.OnHitAsWritten` keeps the throw).
- LedScheduler.Scheduler.Request, LedScheduler.RequestSpec: hand the request's sourceEvent to the effect runner, as the Findings row for ledScheduler.js:61-67 intends; `LedScheduler.RequestAsWritten` passes the request reference as the source does.

- DeviceManager.SetRuntime, DeviceManager.Manager.SetRuntimeState: publish the hardware event under the type system:hardware that the device tests expect, as the Findings row for deviceManager.js:219 intends; src/core/eventTypes.js has no system entry, so as written the publish throws (`DeviceManager.SetRuntimeAsWritten`).
- DeviceManager.StartOutcome, DeviceManager.StartOne, DeviceManager.StartEach, DeviceManager.StartSpec, DeviceManager.StartEachOutcome, DeviceManager.StartOutcomes, DeviceManager.Manager.StartEntry, DeviceManager.Manager.Start: follow the corrected #setRuntimeState, so start goes through every entry; as written it throws at the first entry it does not skip (`DeviceManager.StartAsWritten`, `DeviceManager.StartAsWrittenStops`).
- DeviceManager.BlockSpec, DeviceManager.UnblockSpec, DeviceManager.BlockThenUnblock, DeviceManager.BlockedIsListed, DeviceManager.Manager.Block, DeviceManager.Manager.Unblock: follow the corrected #setRuntimeState and answer ok or MODE_MISMATCH; as written those calls throw after storing the state (`DeviceManager.BlockAsWritten`, `DeviceManager.UnblockAsWritten`).
- Ws2812Led.Device.SetRuntimeState, Ws2812Led.Device.ApplyRgb, Ws2812Led.Device.Inject, Ws2812Led.Device.OnLedCommand: publish the system:hardware report, as the Findings row for ws2812LedDevice.js:352 intends; as written #publishHardwareState throws there, so no report is ever published (`Ws2812Led.Device.SetRuntimeStateAsWritten`, `Ws2812Led.Device.ApplyRgbAsWritten`).
- RuleEngine.AnyRangeMatchesSpec, RuleEngine.SelectFirstMatch, RuleEngine.PriorityChosen: use the corrected ParseHHMM of the Findings row for ruleEngine.js:100-102, which reads "24:00" as minute 1440; `RuleEngine.RangeMatchesBy(RuleEngine.ParseHHMMAsWritten, …)` keeps the source's behaviour.
- CharlieCore.EnterArmingIff, CharlieCore.ArmingStarts, CharlieCore.Core.HandleEvent, CharlieCore.Core.MaybeEnterArming, CharlieCore.Core.OnArmingExpired, CharlieCore.Core.StartIfSelected: select rules with the corrected ParseHHMM of the Findings row for ruleEngine.js:100-102, so a rule ending at "24:00" can arm the core; `RuleEngine.RangeMatchesBy(RuleEngine.ParseHHMMAsWritten, …)` keeps the source's behaviour.
## Findings

| source | as written | input that shows it | evidently intended | confidence | as-written member | corrected member |
|---|---|---|---|---|---|---|
| src/core/ruleEngine.js:100-102 | #parseHHMM refuses hour 24, so a range ending at "24:00" never matches; the unit test test/unit/charlieCore.spec.js:21 configures its only rule with the range 00:00-24:00 and expects it to match, and charlieCore.js:206-210 then returns without arming | the rule of test/unit/charlieCore.spec.js:21, { start: "00:00", end: "24:00" }, at any minute: the end parses to null and the range is refused | "24:00" is the end of the day, minute 1440, so 00:00-24:00 admits every minute | high, not executed | RuleEngine.EndOfDayRangeNeverMatches | RuleEngine.EndOfDayRangeMatchesAll |
| src/devices/kinds/ld2450Radar/ld2450Decode.js:43-50 | when no further header is found, droppedBytes becomes buf.length minus the kept remainder, even after frames were decoded | one 30-byte report followed by five bytes without a header: droppedBytes is 32, which also fires DROPPED_NOISE at the default threshold 32, though only two bytes are discarded | once a frame is decoded, droppedBytes stays the offset of the first frame, as on the other return paths (lines 56-58 and 97-99) | medium, not executed | Ld2450Decode.DecodeAsWritten | Ld2450Decode.DroppedBeforeFirstFrame |
| src/devices/kinds/ld2410/ld2410Decode.js:52-54 | when no further header is found, the remainder is emptied, though the buffer may end with the first three bytes of a header whose last byte is in the next chunk | a 12-byte chunk without a header ending F4 F3 F2, followed by a chunk starting F1 and a whole report: the report is lost | keep the last min(len, 3) bytes as the LD2450 decoder does (ld2450Decode.js:43-50) | medium, not executed | Ld2410Decode.DecodeAsWritten | Ld2410Decode.HeaderPrefixKept |
| src/devices/kinds/ld2410/ld2410Decode.js:59-71 | a truncated header after decoded frames sets droppedBytes to its offset, counting the decoded frames as dropped | one 23-byte basic report followed by the first 12 bytes of a 35-byte report: droppedBytes is 23, added to totalDropped | droppedBytes stays the first frame's offset, as at the loop exit (line 184) | medium, not executed | Ld2410Decode.DecodeAsWritten | Ld2410Decode.DroppedBeforeFirstFrame |
| src/devices/kinds/ld2410/ld2410Decode.js:184-185 | the loop exit returns an empty remainder, so push discards the bytes after the last frame | one 23-byte report followed by the first 8 bytes of the next: those 8 bytes are lost and the next report with them; likewise every report beyond maxFramesPerPush | the unscanned bytes are the remainder, as in the LD2450 decoder (ld2450Decode.js:108-110) | medium, not executed | Ld2410Decode.DecodeAsWritten | Ld2410Decode.FirstFrameThenRest |
| src/devices/kinds/ld2460Radar/ld2460Decode.js:46-53 | when no further header is found, droppedBytes becomes buf.length minus the kept remainder, even after frames were decoded | an accepted 43-byte packet (eight targets) followed by five bytes without a header: droppedBytes is 45, which fires DROPPED_NOISE at the default threshold 32, though only two bytes are discarded | once a frame is decoded, droppedBytes stays the offset of the first frame, as on the other return paths (lines 61 and 85) | medium, not executed | Ld2460Decode.DecodeAsWritten | Ld2460Decode.DroppedBeforeFirstFrame |
| src/utils/shortId.js:33-47 | the value time * slotsPerMs + counter is passed to toBase62 unwrapped, and toBase62 only pads, never cuts | shortId(2) at 3.844 s past the minute: slotsPerMs is max(1, floor(3844 / 60000)) = 1, the value is 3844 = 62^2, and the id is "100", three characters where the documentation promises exactly chars | an id of exactly chars characters, for example by taking the value modulo 62^chars | medium, not executed | ShortId.IdAsWritten | ShortId.Id |
| src/core/timeScheduler.js:39-53 | scheduleAt arms the new timer without the clock's frozen flag, unlike #rescheduleAll (lines 118-129) | with the clock frozen at logical time 0, scheduleIn({ delayMs: 1200 }) starts a real 1200 ms timeout, so the event fires while logical time stands still | pass clock.isFrozen() to #armTimer, so a frozen scheduler only fires timers already due | medium, not executed | TimeScheduler.ArmOnScheduleAsWritten | TimeScheduler.Scheduler.ScheduleAt |
| src/domains/button/buttonController.js:124 | the press event's type is read as eventTypes.button.press, but src/core/eventTypes.js has no button entry, so #publishPress throws a TypeError after #onEdge has recorded the press time | device b1 with the default 250 ms cooldown pressed at 1000 ms and again at 1100 ms: neither press is published, and the second is dropped as within the cooldown of a press that never went out | publish a button:press event on the main bus | high, not executed | ButtonController.OnEdgeAsWritten, ButtonController.AsWrittenPressIsLost | ButtonController.OnEdge, ButtonController.CorrectedPressIsPublished |
| src/domains/vibration/vibrationController.js:90 | the hit event's type is read as eventTypes.vibration.hit, but src/core/eventTypes.js has no vibration entry, so #publishHit throws a TypeError after #onHit has recorded the hit time | sensor s1 hit at 1000 ms: nothing is published | publish a vibration:hit event on the main bus | high, not executed | VibrationController.OnHitAsWritten | VibrationController.OnHit, VibrationController.CorrectedHitIsPublished |
| src/domains/led/ledScheduler.js:61-67 | createEffectRunner receives the request under the name requestRef, so its sourceEvent parameter is undefined and a breathe runner never knows the distance of the event | a breathe effect with a gradientByDistance colour modulator requested for an event whose payload.primary.xy is [1, 2]: the runner uses the fallback colour and period | pass sourceEvent: req.sourceEvent so distance modulators apply | high, not executed | LedScheduler.RequestAsWritten | LedScheduler.BreatheSeesEvent |
| src/devices/deviceManager.js:219 | #setRuntimeState reads eventTypes.system.hardware, but src/core/eventTypes.js has no system entry, so every call throws a TypeError after storing the state; in start() the catch calls it again and the throw leaves start() | config.devices with two buttonEdge entries of the current mode: start() stores 'degraded' for the first, although its device started, publishes nothing and never reaches the second; block and unblock of a configured id throw instead of answering | publish a system:hardware event, as test/devices/shared/deviceConformance.js:12-21 expects, and go on with the next entry | high, not executed | DeviceManager.SetRuntimeAsWritten, DeviceManager.StartAsWrittenStops, DeviceManager.AsWrittenBlockUnblockThrow | DeviceManager.SetRuntime, DeviceManager.StartOutcomes |
| src/devices/kinds/ws2812Led/ws2812LedDevice.js:352 | #publishHardwareState reads eventTypes.system.hardware, which src/core/eventTypes.js lacks, so every state change and every applied colour ends in a TypeError, after the state has been stored | an active, linked LED sent the colour [255, 0, 0]: the line "255,0,0\n" is written and no report is published | publish the system:hardware report, as test/devices/ws2812LedDevice.spec.js:146 expects | high, not executed | Ws2812Led.Device.ApplyRgbAsWritten | Ws2812Led.Device.ApplyRgb |

In the three radar modules the model's `Decode`, the scanning loop (`DecodeTrackingFrames`, `DecodeReportFrames`) and the stream decoder use the corrected behaviour; `DecodeAsWritten` keeps the source's, and the lemmas `FrameThenNoise`, `HeaderPrefixKept`, `FrameThenTruncated` and `FirstFrameThenRest` state both side by side. `ShortId.Generator.Next` uses the corrected identifier; `ShortId.TwoCharIdTooLong` shows the two side by side, and `ShortId.IdFitsFromThreeChars` shows that from three characters on they agree.

`TimeScheduler.FrozenScheduleArmsRealTimeout` shows the scheduler's finding: the as-written arming against the arming with the frozen flag. `TimeScheduler.Scheduler.ScheduleAt`, which the core uses, passes the flag.

In both controllers `OnEdge` and `OnHit`, which the classes use, publish the event; `OnEdgeAsWritten` and `OnHitAsWritten` keep the recorded time and publish nothing.

In the LED scheduler, `RequestSpec` and the class `Scheduler`, which use the corrected call, hand the request's event to the runner; `RequestAsWritten` hands it none, and `BreatheLosesEvent` shows the difference for a breathe effect.

In the device manager, `SetRuntime`, which start, block and unblock use, publishes the hardware event; `SetRuntimeAsWritten` stores the state and publishes nothing, `StartAsWrittenStops` shows start stopping at its first entry, and `AsWrittenBlockUnblockThrow` sets block and unblock as written beside the corrected ones. The LED device's `ApplyRgb`, which `Inject` and `OnLedCommand` call, reports what it did; `ApplyRgbAsWritten` makes the same changes and reports nothing.

In the rule engine, `ParseHHMM` reads "24:00" as minute 1440, and `RangeMatches`, the selection (`SelectFrom`, `Select`) and through them the core's arming use it; `ParseHHMMAsWritten` keeps the source's parse, and `EndOfDayRangeNeverMatches` and `EndOfDayRangeMatchesAll` set the two side by side.
