# LightPainting V5 — a verified model of the offscreen line renderer's control logic

LightPainting V5 renders "light painting" animations offscreen. A scene produces
line segments every frame. The engine accumulates them over many jittered passes,
composites the result, and writes each frame to PNG files or to an FFmpeg pipe.

This project models the engine's CPU-side control logic and the discrete logic of
two example scenes, and proves what that logic promises:

- **EngineTypes** (`engine_types.dfy`). The defaults of `LineParams`,
  `CameraParams` and `RenderSettings`. `LineEmitContext::add` and `flush_now` are
  null-guarded forwards to the optional `emit` and `flush` callbacks.
- **FrameBuilder** (`frame_builder.dfy`). `buildFrameSegments` pulls segments
  0, 1, 2, … until the callback says "no more" and drops those with
  thickness ≤ 0. The push→pull adapter of `renderSequencePush` is a class with a
  one-frame cache: it reruns the push callback once per change of frame index
  and serves segments by position.
- **DrawSchedule** (`draw_schedule.dfy`). `accumulateScene` either uploads once
  and draws everything in every pass, or streams capacity-sized chunks in every
  pass. The scene vertex shader derives each ribbon's jitter seed in 32-bit
  unsigned arithmetic. The model proves that the seeds do not depend on the
  chunking.
- **Readback** (`readback.dfy`). The two-buffer PBO ping-pong (`curr`, `prev`,
  `first`) is a class. It holds `initPBO`, `saveOrStreamBackbuffer` and
  `flushLastPBOFrame`, the vertical row flip, and the `frame_NNNN.png` naming.
- **RenderLoop** (`render_loop.dfy`). The frame loop of `renderSequence`: frame
  time, camera, the projection fallback, capture and the final flush. The sink
  receives frames 0..N−1 exactly once and in order whenever buffer mapping
  succeeds. `renderSequencePush` is the same loop over the adapter.
- **UniqueName** (`unique_name.dfy`). The three copies of the output-name helper.
  Each strips the directory and the last extension of a path and finds the first
  free `<base>_V_<n>`. The file system is a set of existing names per directory.
- **TubePath** (`tube_path.dfy`). The wandering tube of scene
  `W_08_12_2025_18_31`: a clamped, fixed-capacity pair of arrays shifted left in
  place once per frame, and the line structure its push callback emits.
- **TunnelText** (`tunnel_text.dfy`). From scene `W_09_12_2025_00_22`:
  - the 3×5 font;
  - the glyph-to-line emission of `draw_range` and `collect_text_lines`;
  - the order of `collect_all_tunnel_debug_lines`;
  - the buffer and index layout of the PLY export;
  - section-based effect dispatch.
- **Decimal** (`decimal.dfy`). Integers written by `operator<<` and by the
  zero-filled width-4 field in frame file names.

Single-precision floats are modelled as `real`. Pixels are `bv8`. Shader seeds
are `bv32`. GL calls, file writes and the FFmpeg pipe are events or values handed
to a sink. Whether `glMapBuffer` succeeds is a parameter `mapOk`, keyed by the
index of the capture call.

## Model

| member | source | states |
|---|---|---|
| EngineTypes.DefaultLine | LightPainting_V5_Sandbox/WireEngine_v5.h:10-27 | A default line has both endpoints at the origin, white start and end colours, thickness 1, jitter 0 and intensity 1 |
| EngineTypes.DefaultCamera | LightPainting_V5_Sandbox/WireEngine_v5.h:40-58 | The default camera has eye (0,0,450), target at the origin and up +Y. It has no custom FOV or clip, FOV 60, near 0.1 and far 3000 |
| EngineTypes.DefaultSettings | LightPainting_V5_Sandbox/WireEngine_v5.h:60-98 | Default settings: 1280×720, 60 frames at 60 fps, 200 accumulation passes, capacity hint 4·1024·1024, PBO on, PNG output, additive blending, bloom on |
| EngineTypes.AddLine | LightPainting_V5_Sandbox/WireEngine_v5.h:127-129 | `add` reaches `emit` exactly when `emit` is set, and then passes the line unchanged. Otherwise it does nothing |
| EngineTypes.FlushNowEvents | LightPainting_V5_Sandbox/WireEngine_v5.h:130-132 | `flush_now` reaches `flush` exactly when `flush` is set |
| EngineTypes.EmitDeliversAdds | LightPainting_V5_Sandbox/WireEngine_v5.h:127-129 | Over any sequence of context calls, `emit` receives exactly the added lines, in order, when set; nothing when unset |
| EngineTypes.FlushReachesCallback | LightPainting_V5_Sandbox/WireEngine_v5.h:130-132 | Over any sequence of context calls, `flush` runs once per `flush_now` when set, never when unset |
| FrameBuilder.InstanceRoundTrip | LightPainting_V5_Sandbox/WireEngine_v5.cpp:958-975 | The GPU instance is a field-for-field copy of the line: converting either way and back loses nothing |
| FrameBuilder.Kept | LightPainting_V5_Sandbox/WireEngine_v5.cpp:952-977 | The builder never keeps more entries than it is served, and everything it keeps has thickness > 0 |
| FrameBuilder.KeptIsThickOnly | LightPainting_V5_Sandbox/WireEngine_v5.cpp:952-977 | The kept segments are exactly the served lines with thickness > 0, converted, in served order. Filtering again changes nothing |
| FrameBuilder.KeptConcat | LightPainting_V5_Sandbox/WireEngine_v5.cpp:947-977 | Filtering is compositional: building over a concatenation gives the concatenation of the builds |
| FrameBuilder.AdapterKeepsEmissionOrder | LightPainting_V5_Sandbox/WireEngine_v5.cpp:1364-1382 | With a push callback, a frame's cached lines are exactly the lines the callback added through its context, in emission order |
| FrameBuilder.ServeAt | LightPainting_V5_Sandbox/WireEngine_v5.cpp:1385-1391 | A request for index i succeeds exactly when 0 ≤ i < the number of cached lines, and then returns the i-th line |
| FrameBuilder.PushAdapter.constructor | LightPainting_V5_Sandbox/WireEngine_v5.cpp:1334-1349 | A fresh adapter has cachedFrame −1, cachedTime −1, an empty cache and no callback runs |
| FrameBuilder.PushAdapter.Pull | LightPainting_V5_Sandbox/WireEngine_v5.cpp:1354-1392 | A new frame index replaces the cache, stores t and runs the push callback once if it exists. A repeated index leaves the cache, the stored time and the run log untouched, even for a different t. The answer is served by position from the cache |
| FrameBuilder.BuildFrameSegments | LightPainting_V5_Sandbox/WireEngine_v5.cpp:939-978 | No callback gives no segments. A pull callback is queried at 0, 1, 2, … up to its first "no more". The adapter path runs the push callback at most once per new frame index. In each case the output is the served lines with thickness > 0, in order |
| FrameBuilder.BuildFromPull | LightPainting_V5_Sandbox/WireEngine_v5.cpp:946-977 | The loop advances the index past skipped entries and stops at the first "no more". Its output is the kept prefix it was served |
| FrameBuilder.BuildFromAdapter | LightPainting_V5_Sandbox/WireEngine_v5.cpp:946-977 | Over the adapter the builder is served exactly the frame's emitted lines. The push callback runs at most once, and only for a frame index different from the cached one |
| FrameBuilder.PullServed | LightPainting_V5_Sandbox/WireEngine_v5.cpp:1354-1392 | Every pull after the first of a frame returns the cached frame's line at that index, with no further callback run |
| DrawSchedule.Capacity | LightPainting_V5_Sandbox/WireEngine_v5.cpp:804-807 | The instance capacity is the hint when the hint is positive, otherwise 1024·1024; it is always positive |
| DrawSchedule.AccumulateScene | LightPainting_V5_Sandbox/WireEngine_v5.cpp:1025-1091 | The GL calls issued follow the scheduling rule. Zero segments: none. Total ≤ capacity: one upload, then one full draw at offset 0 per pass. Otherwise, per pass, an upload and a draw for each chunk along the streaming loop |
| DrawSchedule.PassChunksCover | LightPainting_V5_Sandbox/WireEngine_v5.cpp:1061-1081 | One streamed pass starting at `offset` draws every index offset..total−1 once, in increasing order |
| DrawSchedule.StreamedCover | LightPainting_V5_Sandbox/WireEngine_v5.cpp:1057-1088 | The streaming path draws every segment index once per pass, pass by pass |
| DrawSchedule.ResidentCover | LightPainting_V5_Sandbox/WireEngine_v5.cpp:1036-1056 | The single-upload path draws every segment index once per pass, pass by pass |
| DrawSchedule.AllInstancesEmpty | LightPainting_V5_Sandbox/WireEngine_v5.cpp:1025-1032 | With no segments, nothing is drawn in any pass |
| DrawSchedule.Schedule | LightPainting_V5_Sandbox/WireEngine_v5.cpp:1025-1091 | The GL calls of one frame: none for zero segments; one upload and then one full draw per pass when the segments fit; otherwise capacity-sized chunks uploaded and drawn, pass by pass. `AccumulateScene` is proved to issue it, and `ScheduleCoversEachSegmentOncePerPass` and `ScheduleKeepsDrawsResident` state what it draws |
| DrawSchedule.ScheduleCoversEachSegmentOncePerPass | LightPainting_V5_Sandbox/WireEngine_v5.cpp:1025-1091 | For any capacity, the draws cover [0, total) exactly once per pass, in increasing index order, for each of the accum_passes passes |
| DrawSchedule.SegIndex | LightPainting_V5_Sandbox/WireEngine_v5.cpp:398 | `uSegmentOffset + gl_InstanceID` as 32-bit wrapping int addition; `SegIndexIsWrappedSum` shows it is the exact sum modulo 2^32 |
| DrawSchedule.SegIndexIsWrappedSum | LightPainting_V5_Sandbox/WireEngine_v5.cpp:398 | Adding the offset and the instance id with 32-bit wrap-around gives the exact sum modulo 2^32 |
| DrawSchedule.ShaderSeed | LightPainting_V5_Sandbox/WireEngine_v5.cpp:398-403 | The seed of instance i in a draw at segment offset o: the wrapped segment index, mixed with the pass and frame in 32-bit unsigned arithmetic. `ChunkSeedIsGlobalSeed` shows it depends on o and i only through o+i |
| DrawSchedule.MixSeed | LightPainting_V5_Sandbox/WireEngine_v5.cpp:401-403 | uint(segIndex) xor uint(pass)·2654435761 xor uint(frame)·2246822519, each product taken modulo 2^32. `SeedsIndependentOfCapacity` uses it through `GlobalSeed` |
| DrawSchedule.ChunkSeedIsGlobalSeed | LightPainting_V5_Sandbox/WireEngine_v5.cpp:398-403 | The seed of instance i of a chunk at offset o equals the seed of global segment o+i, even where the shader's 32-bit addition of offset and instance wraps |
| DrawSchedule.SeedsFollowInstances | LightPainting_V5_Sandbox/WireEngine_v5.cpp:398-403 | The shader seeds of any call sequence are the global seeds of the segments it draws, in draw order |
| DrawSchedule.SeedsIndependentOfCapacity | LightPainting_V5_Sandbox/WireEngine_v5.cpp:1025-1091 | Any two capacities produce the same sequence of jitter seeds: the global seed of every segment in every pass. Chunking never changes the jitter |
| DrawSchedule.PassChunksResident | LightPainting_V5_Sandbox/WireEngine_v5.cpp:1063-1079 | In a streamed pass, each draw finds exactly its own range in the buffer from the latest upload. Every upload is non-empty and fits the capacity |
| DrawSchedule.StreamedResident | LightPainting_V5_Sandbox/WireEngine_v5.cpp:1057-1088 | Every draw of the streaming path reads data that was uploaded and fits the buffer |
| DrawSchedule.ResidentDrawsResident | LightPainting_V5_Sandbox/WireEngine_v5.cpp:1036-1056 | After the single upload, every pass draws the whole resident frame and uploads nothing more |
| DrawSchedule.ScheduleKeepsDrawsResident | LightPainting_V5_Sandbox/WireEngine_v5.cpp:1025-1091 | Every draw of the schedule reads segments that are in the buffer when it is issued. When everything fits there are exactly 1 + accum_passes calls |
| Decimal.NatToString | LightPainting_V5_Sandbox/WireUtil.h:146-148 | A version number is printed as a non-empty string of digits, with no leading zero unless the number is below 10 |
| Decimal.NatToStringRoundTrip | LightPainting_V5_Sandbox/WireUtil.h:146-148 | Reading the printed digits back gives the number |
| Decimal.NatToStringInjective | LightPainting_V5_Sandbox/WireExampleUtils.h:52-54 | Different version numbers print differently |
| Decimal.IntToString | LightPainting_V5_Sandbox/WireEngine_v5.cpp:549-551 | An int is printed with a leading '-' exactly when it is negative, followed by the digits of its magnitude |
| Decimal.IntToStringInjective | LightPainting_V5_Sandbox/WireEngine_v5.cpp:549-551 | Different ints print differently |
| Decimal.Pad4 | LightPainting_V5_Sandbox/WireEngine_v5.cpp:549-551 | The width-4 '0'-filled field is the printed int, right-adjusted, preceded by '0's up to length 4, even before a '-'. Longer texts are not cut |
| Decimal.Pad4FourDigits | LightPainting_V5_Sandbox/WireEngine_v5.cpp:629-631 | Frame indices 0..9999 give exactly four digits that read back as the index |
| Decimal.Pad4RoundTrip | LightPainting_V5_Sandbox/WireEngine_v5.cpp:549-551 | Stripping the fill and reading back recovers every int, negative ones included |
| Decimal.Pad4StripsToText | LightPainting_V5_Sandbox/WireEngine_v5.cpp:549-551 | The padded field differs from the plain printed int only by leading zeros |
| Decimal.Pad4Injective | LightPainting_V5_Sandbox/WireEngine_v5.cpp:629-631 | Different ints give different padded fields |
| Readback.FlipRows | LightPainting_V5_Sandbox/WireEngine_v5.cpp:557-573 | The rows of the image in reverse order. Its lemmas show it keeps the length (`FlipRowsLength`), puts source row h−1−y at row y (`FlipRowsMovesRows`) and undoes itself (`FlipRowsInvolution`); `FlipRowsCopy` proves the row-copy loop computes it |
| Readback.FlipRowsLength | LightPainting_V5_Sandbox/WireEngine_v5.cpp:557-573 | The flip keeps the buffer length and reverses the order of its rows |
| Readback.FlipRowsMovesRows | LightPainting_V5_Sandbox/WireEngine_v5.cpp:564-569 | Row y of the flipped buffer is source row h−1−y |
| Readback.FlipRowsInvolution | LightPainting_V5_Sandbox/WireEngine_v5.cpp:557-573 | Flipping twice gives back the original pixels |
| Readback.RowIsSlice | LightPainting_V5_Sandbox/WireEngine_v5.cpp:566-568 | Row sy is the rowBytes bytes starting at sy·rowBytes, the range each row copy reads |
| Readback.FlipRowsCopy | LightPainting_V5_Sandbox/WireEngine_v5.cpp:564-569 | The row-by-row copy loop produces exactly the row-reversed buffer |
| Readback.FramePath | LightPainting_V5_Sandbox/WireEngine_v5.cpp:549-551 | The PNG path: the output directory, "/frame_", the index in a zero-filled width-4 field, ".png". `FramePathInjective` shows different indices give different paths |
| Readback.FramePathInjective | LightPainting_V5_Sandbox/WireEngine_v5.cpp:549-551 | Different frame indices give different PNG paths in the same directory |
| Readback.WriteFrame | LightPainting_V5_Sandbox/WireEngine_v5.cpp:541-554 | A frame goes to FFmpeg exactly when the mode is FFmpegVideo and the pipe is open. Otherwise it goes to `<dir>/frame_<index padded to 4>.png`. The flipped pixels are written unchanged |
| Readback.PboReadback.constructor | LightPainting_V5_Sandbox/WireEngine_v5.cpp:483-491 | A fresh readback is disabled, with curr 0, prev 1, first set and 0 bytes |
| Readback.PboReadback.InitPbo | LightPainting_V5_Sandbox/WireEngine_v5.cpp:493-513 | Init sets first, curr 0, prev 1 and the enabled flag. The byte size is w·h·4 when enabled, 0 otherwise |
| Readback.PboReadback.SaveOrStream | LightPainting_V5_Sandbox/WireEngine_v5.cpp:515-604 | Without PBO, the frame is flipped and written at its own index, and the state is unchanged. With PBO, the frame goes into pbo[curr] and curr and prev swap. On the first call `first` is cleared and nothing is written; later calls write frame index − 1 from the old pbo[prev] when mapping succeeds |
| Readback.PboReadback.FlushLast | LightPainting_V5_Sandbox/WireEngine_v5.cpp:608-653 | The flush writes exactly when PBO is on, at least one frame was captured and mapping succeeds. It writes the given last index from pbo[prev] |
| RenderLoop.FrameTime | LightPainting_V5_Sandbox/WireEngine_v5.cpp:1255 | The frame time: f/fps when fps > 0, otherwise f. `FrameTimeProperties` shows it is the frame index at the frame rate and strictly increasing in f |
| RenderLoop.CameraFor | LightPainting_V5_Sandbox/WireEngine_v5.cpp:1257-1262 | A frame starts from the default camera; a camera callback, when set, gets the frame index, the time and that camera, and its result is the frame's camera. `RenderFrame` records it |
| RenderLoop.FrameTimeProperties | LightPainting_V5_Sandbox/WireEngine_v5.cpp:1255 | The frame time is f/fps when fps > 0, otherwise f. It increases strictly with f |
| RenderLoop.ProjectionFor | LightPainting_V5_Sandbox/WireEngine_v5.cpp:1270-1279 | The FOV and near plane are always positive. Custom values apply only with their flag; a non-positive value falls back to 60 or 0.1. The far plane becomes 3000 whenever it is ≤ near + 1e-4 |
| RenderLoop.DefaultCameraProjection | LightPainting_V5_Sandbox/WireEngine_v5.cpp:1270-1279 | The default camera projects with FOV 60, near 0.1 and far 3000 |
| RenderLoop.FarAboveNearUnlessNearPastBase | LightPainting_V5_Sandbox/WireEngine_v5.cpp:1277-1279 | After the fallback, far > near holds exactly when the requested far cleared the gap or near is below 3000 |
| RenderLoop.FallbackCanInvertClipRange | LightPainting_V5_Sandbox/WireEngine_v5.cpp:1277-1279 | A custom near of 5000 with far 100 ends with near 5000 and far 3000: the fallback does not guarantee far > near |
| RenderLoop.DeliveredFrames | LightPainting_V5_Sandbox/WireEngine_v5.cpp:1299-1307 | Only indices of captured frames are ever delivered |
| RenderLoop.DeliveredFramesIncreasing | LightPainting_V5_Sandbox/WireEngine_v5.cpp:575-604 | Frames reach the sink in strictly increasing index order, so none is written twice |
| RenderLoop.DeliveredFramesExactly | LightPainting_V5_Sandbox/WireEngine_v5.cpp:575-653 | Frame k is delivered exactly when readback is synchronous or the mapping of the call after its capture succeeds. That call is capture k+1, or the final flush |
| RenderLoop.AllFramesDeliveredInOrder | LightPainting_V5_Sandbox/WireEngine_v5.cpp:1254-1307 | When every mapping succeeds, or PBO is off, the sink receives frames 0..N−1 exactly once and in order |
| RenderLoop.DeliveredFilesDistinct | LightPainting_V5_Sandbox/WireEngine_v5.cpp:549-551 | Delivered PNG frames never share a path, so no frame overwrites another |
| RenderLoop.RenderFrame | LightPainting_V5_Sandbox/WireEngine_v5.cpp:1172-1203 | One frame takes its time, camera and projection from the frame index. Its segments are those the builder keeps, its GL calls follow the draw schedule, and its image is the composite. The readback step writes what `SaveOrStream` promises |
| RenderLoop.CaptureStep | LightPainting_V5_Sandbox/WireEngine_v5.cpp:1254-1297 | One iteration of the frame loop keeps the loop invariant: the records so far match frames 0..f, the sink has seen what was due, and the in-flight buffer holds the last image |
| RenderLoop.CapturedSnoc | LightPainting_V5_Sandbox/WireEngine_v5.cpp:1254-1297 | Adding one frame's record and output to a correct history gives a correct history one frame longer |
| RenderLoop.CaptureWritesAtOnce | LightPainting_V5_Sandbox/WireEngine_v5.cpp:557-573 | Without PBO, capturing frame f delivers frame f at once |
| RenderLoop.CaptureWritesPrevious | LightPainting_V5_Sandbox/WireEngine_v5.cpp:575-604 | With PBO, capturing frame f delivers frame f−1 when f > 0 and mapping succeeds, and nothing else |
| RenderLoop.FlushStep | LightPainting_V5_Sandbox/WireEngine_v5.cpp:608-653 | The final flush delivers the last frame exactly when a frame was captured and mapping succeeds |
| RenderLoop.DeliveredStep | LightPainting_V5_Sandbox/WireEngine_v5.cpp:575-604 | One capture extends what the sink has seen by exactly the frames due at that point |
| RenderLoop.RenderFrames | LightPainting_V5_Sandbox/WireEngine_v5.cpp:1254-1297 | The loop renders frames 0..frames−1, and all but the last delivery is done. The last image is in flight in pbo[prev]. With a fresh adapter, the push callback ran once per frame, in frame order |
| RenderLoop.InFlightLast | LightPainting_V5_Sandbox/WireEngine_v5.cpp:1299-1307 | After the loop, `first` is clear exactly when a frame was captured, and pbo[prev] holds the last frame's image |
| RenderLoop.FlushInFlight | LightPainting_V5_Sandbox/WireEngine_v5.cpp:1299-1307 | The final flush completes the delivery: the sink has then seen exactly the frames due over all N captures |
| RenderLoop.RenderSequence | LightPainting_V5_Sandbox/WireEngine_v5.cpp:1207-1318 | A non-positive size renders nothing: the source returns when `glfwCreateWindow` gives null, and GLFW refuses such a size. Otherwise there is one record per frame, each with its time, camera, projection, kept segments and scheduled GL calls. The sink receives, in order, exactly the delivered frames, flipped and named by their own index. A fresh adapter runs the push callback once per frame |
| RenderLoop.RenderSequencePush | LightPainting_V5_Sandbox/WireEngine_v5.cpp:1321-1395 | Each frame's segments are the lines the push callback added for that frame and time, minus those with thickness ≤ 0. A missing callback gives empty frames. The callback runs exactly once per frame, in frame order. Delivery is as in `RenderSequence` |
| UniqueName.LastIndexOf | LightPainting_V5_Sandbox/WireExampleUtils.h:20 | `find_last_of` finds the last position holding one of the characters, or reports that none holds one |
| UniqueName.StripDirectory | LightPainting_V5_Sandbox/WireExampleUtils.h:19-22 | Everything after the last '/' or '\\', or the whole path when there is none. `StripDirectoryIsLastComponent` shows it is a separator-free suffix of the path |
| UniqueName.StripExtension | LightPainting_V5_Sandbox/WireExampleUtils.h:24-27 | Everything before the last '.', or the whole name when there is none. `StripExtensionRemovesLastOnly` shows only the last extension goes |
| UniqueName.BaseNameFromPath | LightPainting_V5_Sandbox/WireExampleUtils.h:15-30 | Directory first, then the last extension. `BaseNameHasNoSeparator`, `PlainNameUnchanged`, `LastExtensionOnly` and `DirectoryDotsIgnored` state what it returns |
| UniqueName.StripDirectoryIsLastComponent | LightPainting_V5_Sandbox/WireExampleUtils.h:19-22 | The stripped name is the suffix after the last '/' or '\\', or the whole path when there is none; it contains no separator |
| UniqueName.StripExtensionRemovesLastOnly | LightPainting_V5_Sandbox/WireExampleUtils.h:24-27 | The name changes exactly when it contains a '.'. Then only the last '.' and what follows it are removed |
| UniqueName.BaseNameHasNoSeparator | LightPainting_V5_Sandbox/WireExampleUtils.h:15-30 | A base name never contains a directory separator |
| UniqueName.PlainNameUnchanged | LightPainting_V5_Sandbox/WireExampleUtils.h:17-29 | A path with no separator and no dot is returned unchanged |
| UniqueName.LastExtensionOnly | LightPainting_V5_Sandbox/WireExampleUtils.h:24-27 | "a.b.c" becomes "a.b" |
| UniqueName.DirectoryDotsIgnored | LightPainting_V5_Sandbox/WireExampleUtils.h:19-27 | A dot in a directory name is never taken as the extension: "dir.v2/W_1.h" becomes "W_1" |
| UniqueName.FirstFree | LightPainting_V5_Sandbox/WireExampleUtils.h:49-61 | Version v is the one the loop stops at: v ≥ 1, the ".mp4" of version v is absent and those of versions 1..v−1 are present. `FirstFreeUnique` shows at most one v qualifies, and `FirstFreeName` finds it |
| UniqueName.FirstFreeUnique | LightPainting_V5_Sandbox/WireExampleUtils.h:49-61 | There is only one first free version |
| UniqueName.CandidateFileInjective | LightPainting_V5_Sandbox/WireExampleUtils.h:52-56 | Different versions probe different file names |
| UniqueName.FirstFreeName | LightPainting_V5_Sandbox/WireUtil.h:142-156 | The search returns "<base>_V_<n>" for the smallest n ≥ 1 whose ".mp4" file is absent, and n is at most the number of files + 1, so the loop ends |
| UniqueName.PathExists | LightPainting_V5_Sandbox/WireExampleUtils.h:56-57 | `fs::exists(outDir / rel)`: the last component of rel is listed in the directory named by outDir and rel's directory part |
| UniqueName.CandidateProbe | LightPainting_V5_Sandbox/WireExampleUtils.h:52-57 | Probing version v of a base name under outDir looks for the base's last component + "_V_<v>.mp4" in outDir joined with the base's directory part |
| UniqueName.PlainBaseProbesOutputDir | LightPainting_V5_Sandbox/WireExampleUtils.h:56 | A base name without separators is probed in the output directory itself, under its own name |
| UniqueName.GenerateUniqueName | LightPainting_V5_Sandbox/WireExampleUtils.h:33-62 | The result is baseName + "_V_" + the decimal of the smallest version n ≥ 1 for which `outDir / (name + ".mp4")` does not exist; the files of versions 1..n−1 exist. A base name with a directory part is searched in that subdirectory of the output directory |
| UniqueName.ExampleUtilsUniqueName | LightPainting_V5_Sandbox/WireExampleUtils.h:68-71 | The macro names the output after the call site's file, with directory and extension stripped, at its first free version |
| UniqueName.WireGenerateUniqueName | LightPainting_V5_Sandbox/WireUtil.h:111-157 | A null source path is treated as ""; otherwise the same strip-then-search rule applies |
| UniqueName.ExampleStartUniqueName | LightPainting_V5_Sandbox/Examples/example_start.h:48-101 | The name comes from the header's own file, whatever the caller, and the search is in the fixed output directory |
| UniqueName.ExampleStartBaseName | LightPainting_V5_Sandbox/Examples/example_start.h:53-64 | In whatever directory the header sits, its base name is "example_start" |
| UniqueName.MacrosAgree | LightPainting_V5_Sandbox/WireUtil.h:161-162 | The two `WIRE_UNIQUE_NAME` macros give the same name for the same call site and directory |
| UniqueName.CandidateIsBareName | LightPainting_V5_Sandbox/WireExampleUtils.h:59 | The returned name has no directory part and ends in a digit, so it carries no ".mp4" extension |
| TubePath.ClampCount | LightPainting_V5_Sandbox/Examples/W_08_12_2025_18_31.h:112-115 | The point count is clamped into [4, 260]. Values inside are kept; values outside go to the nearer bound |
| TubePath.SceneParams.constructor | LightPainting_V5_Sandbox/Examples/W_08_12_2025_18_31.h:89-101 | A fresh scene: not initialised, last frame −1, 200 points of spacing 4, twist 0, 24 ring segments, 260-slot arrays |
| TubePath.InitTubePath | LightPainting_V5_Sandbox/Examples/W_08_12_2025_18_31.h:107-131 | Once initialised, init changes nothing, so it is idempotent. Otherwise it clamps the count, lays the points out along +Z centred on the origin, sets every direction to +Z, and sets the flag and last frame −1. Slots past the count are untouched |
| TubePath.AdvanceTubePath | LightPainting_V5_Sandbox/Examples/W_08_12_2025_18_31.h:133-196 | Advance does nothing before init or for a repeated frame index. Otherwise it records the frame and shifts both arrays left by one within the count. Only the last slot gets the new head and direction, and the twist grows by 0.04 |
| TubePath.ShiftIn | LightPainting_V5_Sandbox/Examples/W_08_12_2025_18_31.h:144-149 | One shift of an array's window of `count` slots: slot j takes slot j+1 for j < count−1, slot count−1 takes the new value, and slots ≥ count keep theirs |
| TubePath.ShiftInPlace | LightPainting_V5_Sandbox/Examples/W_08_12_2025_18_31.h:144-149 | The in-place loop moves slot i+1 to slot i for i < count−1, puts the new value in slot count−1 and leaves slots ≥ count alone |
| TubePath.ShiftAllWindow | LightPainting_V5_Sandbox/Examples/W_08_12_2025_18_31.h:144-192 | After k advances, slot j < count holds the (j+k−count)-th pushed head when j+k ≥ count, otherwise the old slot j+k. Slots ≥ count never change |
| TubePath.WindowHoldsNewestHeads | LightPainting_V5_Sandbox/Examples/W_08_12_2025_18_31.h:144-192 | After at least count advances, the window holds exactly the count most recent heads, oldest first |
| TubePath.EmitGrid | LightPainting_V5_Sandbox/Examples/W_08_12_2025_18_31.h:290-418 | The grid block emits the floor-grid rows, then the three axis lines |
| TubePath.GridRowsShape | LightPainting_V5_Sandbox/Examples/W_08_12_2025_18_31.h:301-330 | n grid rows emit 2n lines and nothing else |
| TubePath.GridLayerCount | LightPainting_V5_Sandbox/Examples/W_08_12_2025_18_31.h:295-417 | The grid layer emits 2·(2·linesEach+1)+3 lines and no flush |
| TubePath.EmitRing | LightPainting_V5_Sandbox/Examples/W_08_12_2025_18_31.h:474-543 | One ring emits, for each segment j, its ring line, plus a longitudinal band when a next point exists |
| TubePath.RingSlotsShape | LightPainting_V5_Sandbox/Examples/W_08_12_2025_18_31.h:474-543 | A ring emits R lines, or 2R when it is not the last point |
| TubePath.RingsShape | LightPainting_V5_Sandbox/Examples/W_08_12_2025_18_31.h:468-544 | The first n rings emit n·R ring lines plus R bands for each ring that has a next point |
| TubePath.EmitCore | LightPainting_V5_Sandbox/Examples/W_08_12_2025_18_31.h:548-578 | The core block emits one line per consecutive point pair |
| TubePath.CoreLinesShape | LightPainting_V5_Sandbox/Examples/W_08_12_2025_18_31.h:548-578 | The core emits n lines for n pairs |
| TubePath.EmitTube | LightPainting_V5_Sandbox/Examples/W_08_12_2025_18_31.h:428-582 | The tube layer emits all rings in point order, then the core, then a flush |
| TubePath.TubeLayerCount | LightPainting_V5_Sandbox/Examples/W_08_12_2025_18_31.h:468-582 | For count ≥ 2 the tube layer emits count·R + (count−1)·R + (count−1) lines followed by one flush |
| TubePath.BandsOnlyBeforeLast | LightPainting_V5_Sandbox/Examples/W_08_12_2025_18_31.h:515 | A longitudinal band from ring i exists only for i < count−1 and segment j < R |
| TubePath.UpdateTube | LightPainting_V5_Sandbox/Examples/W_08_12_2025_18_31.h:425-426 | After init-then-advance the tube is initialised. The count is the clamped value on the first call and unchanged afterwards |
| TubePath.LinePushCallback | LightPainting_V5_Sandbox/Examples/W_08_12_2025_18_31.h:263-583 | A null scene emits nothing. Otherwise the callback emits the grid layer and a flush, then updates the tube and emits the tube layer with R = max(ring segments, 3) |
| TubePath.CallbackEmitsBothLayers | LightPainting_V5_Sandbox/Examples/W_08_12_2025_18_31.h:263-583 | A frame emits 45 grid lines, a flush, count·R + (count−1)·R + (count−1) tube lines and a final flush |
| TunnelText.ToUpper | LightPainting_V5_Sandbox/Examples/W_09_12_2025_00_22.h:797-798 | Upper-casing in the C locale maps 'a'..'z' to 'A'..'Z' and leaves every other character alone |
| TunnelText.GetFontGlyph | LightPainting_V5_Sandbox/Examples/W_09_12_2025_00_22.h:795-857 | The lookup upper-cases in the C locale and returns the table glyph of a letter, none for anything else (`GlyphExactlyForLetters`, `GlyphIgnoresCase`); every glyph it returns is 5 rows of 3 cells of '.' or '#' (`GlyphsWellFormed`) |
| TunnelText.GlyphExactlyForLetters | LightPainting_V5_Sandbox/Examples/W_09_12_2025_00_22.h:828-857 | A glyph exists exactly for the letters A–Z and a–z; every other character has none |
| TunnelText.GlyphIgnoresCase | LightPainting_V5_Sandbox/Examples/W_09_12_2025_00_22.h:797-798 | A lower-case letter gets the glyph of its upper-case form |
| TunnelText.GlyphsWellFormed | LightPainting_V5_Sandbox/Examples/W_09_12_2025_00_22.h:790-826 | Every glyph has 5 rows of 3 cells, each '.' or '#' |
| TunnelText.GlyphAWellFormed | LightPainting_V5_Sandbox/Examples/W_09_12_2025_00_22.h:801 | Glyph A is 5 rows of 3 cells of '.' or '#' |
| TunnelText.GlyphBWellFormed | LightPainting_V5_Sandbox/Examples/W_09_12_2025_00_22.h:802 | Glyph B is 5 rows of 3 cells of '.' or '#' |
| TunnelText.GlyphCWellFormed | LightPainting_V5_Sandbox/Examples/W_09_12_2025_00_22.h:803 | Glyph C is 5 rows of 3 cells of '.' or '#' |
| TunnelText.GlyphDWellFormed | LightPainting_V5_Sandbox/Examples/W_09_12_2025_00_22.h:804 | Glyph D is 5 rows of 3 cells of '.' or '#' |
| TunnelText.GlyphEWellFormed | LightPainting_V5_Sandbox/Examples/W_09_12_2025_00_22.h:805 | Glyph E is 5 rows of 3 cells of '.' or '#' |
| TunnelText.GlyphFWellFormed | LightPainting_V5_Sandbox/Examples/W_09_12_2025_00_22.h:806 | Glyph F is 5 rows of 3 cells of '.' or '#' |
| TunnelText.GlyphGWellFormed | LightPainting_V5_Sandbox/Examples/W_09_12_2025_00_22.h:807 | Glyph G is 5 rows of 3 cells of '.' or '#' |
| TunnelText.GlyphHWellFormed | LightPainting_V5_Sandbox/Examples/W_09_12_2025_00_22.h:808 | Glyph H is 5 rows of 3 cells of '.' or '#' |
| TunnelText.GlyphIWellFormed | LightPainting_V5_Sandbox/Examples/W_09_12_2025_00_22.h:809 | Glyph I is 5 rows of 3 cells of '.' or '#' |
| TunnelText.GlyphJWellFormed | LightPainting_V5_Sandbox/Examples/W_09_12_2025_00_22.h:810 | Glyph J is 5 rows of 3 cells of '.' or '#' |
| TunnelText.GlyphKWellFormed | LightPainting_V5_Sandbox/Examples/W_09_12_2025_00_22.h:811 | Glyph K is 5 rows of 3 cells of '.' or '#' |
| TunnelText.GlyphLWellFormed | LightPainting_V5_Sandbox/Examples/W_09_12_2025_00_22.h:812 | Glyph L is 5 rows of 3 cells of '.' or '#' |
| TunnelText.GlyphMWellFormed | LightPainting_V5_Sandbox/Examples/W_09_12_2025_00_22.h:813 | Glyph M is 5 rows of 3 cells of '.' or '#' |
| TunnelText.GlyphNWellFormed | LightPainting_V5_Sandbox/Examples/W_09_12_2025_00_22.h:814 | Glyph N is 5 rows of 3 cells of '.' or '#' |
| TunnelText.GlyphOWellFormed | LightPainting_V5_Sandbox/Examples/W_09_12_2025_00_22.h:815 | Glyph O is 5 rows of 3 cells of '.' or '#' |
| TunnelText.GlyphPWellFormed | LightPainting_V5_Sandbox/Examples/W_09_12_2025_00_22.h:816 | Glyph P is 5 rows of 3 cells of '.' or '#' |
| TunnelText.GlyphQWellFormed | LightPainting_V5_Sandbox/Examples/W_09_12_2025_00_22.h:817 | Glyph Q is 5 rows of 3 cells of '.' or '#' |
| TunnelText.GlyphRWellFormed | LightPainting_V5_Sandbox/Examples/W_09_12_2025_00_22.h:818 | Glyph R is 5 rows of 3 cells of '.' or '#' |
| TunnelText.GlyphSWellFormed | LightPainting_V5_Sandbox/Examples/W_09_12_2025_00_22.h:819 | Glyph S is 5 rows of 3 cells of '.' or '#' |
| TunnelText.GlyphTWellFormed | LightPainting_V5_Sandbox/Examples/W_09_12_2025_00_22.h:820 | Glyph T is 5 rows of 3 cells of '.' or '#' |
| TunnelText.GlyphUWellFormed | LightPainting_V5_Sandbox/Examples/W_09_12_2025_00_22.h:821 | Glyph U is 5 rows of 3 cells of '.' or '#' |
| TunnelText.GlyphVWellFormed | LightPainting_V5_Sandbox/Examples/W_09_12_2025_00_22.h:822 | Glyph V is 5 rows of 3 cells of '.' or '#' |
| TunnelText.GlyphWWellFormed | LightPainting_V5_Sandbox/Examples/W_09_12_2025_00_22.h:823 | Glyph W is 5 rows of 3 cells of '.' or '#' |
| TunnelText.GlyphXWellFormed | LightPainting_V5_Sandbox/Examples/W_09_12_2025_00_22.h:824 | Glyph X is 5 rows of 3 cells of '.' or '#' |
| TunnelText.GlyphYWellFormed | LightPainting_V5_Sandbox/Examples/W_09_12_2025_00_22.h:825 | Glyph Y is 5 rows of 3 cells of '.' or '#' |
| TunnelText.GlyphZWellFormed | LightPainting_V5_Sandbox/Examples/W_09_12_2025_00_22.h:826 | Glyph Z is 5 rows of 3 cells of '.' or '#' |
| TunnelText.UAndVAlike | LightPainting_V5_Sandbox/Examples/W_09_12_2025_00_22.h:821-822 | 'U' and 'V' have a glyph, and it is the same shape |
| TunnelText.RowEdgesCount | LightPainting_V5_Sandbox/Examples/W_09_12_2025_00_22.h:988-1014 | A glyph row emits four lines per '#' cell |
| TunnelText.GlyphEdgesCount | LightPainting_V5_Sandbox/Examples/W_09_12_2025_00_22.h:986-1015 | A glyph emits four lines per '#' cell over all its rows |
| TunnelText.CharEdgesCount | LightPainting_V5_Sandbox/Examples/W_09_12_2025_00_22.h:978-1015 | A character emits four lines per '#' of its glyph. A space or a character without a glyph emits none |
| TunnelText.TextEdgesCount | LightPainting_V5_Sandbox/Examples/W_09_12_2025_00_22.h:976-1016 | A text emits four lines per inked cell, summed over its characters |
| TunnelText.BlankCharsDrawNothing | LightPainting_V5_Sandbox/Examples/W_09_12_2025_00_22.h:979-982 | Any character that is not a letter draws nothing |
| TunnelText.EmitGlyph | LightPainting_V5_Sandbox/Examples/W_09_12_2025_00_22.h:986-1015 | The row and column loops emit the four sides of every '#' cell, row by row, left to right |
| TunnelText.EmitText | LightPainting_V5_Sandbox/Examples/W_09_12_2025_00_22.h:976-1016 | The character loop emits each drawable character's cells in character order, skipping spaces and characters without a glyph |
| TunnelText.EmitLabel | LightPainting_V5_Sandbox/Examples/W_09_12_2025_00_22.h:955-1016 | A label draws its text only when it is non-empty and, when clipping, its position lies in [lo, hi] |
| TunnelText.EmitLabels | LightPainting_V5_Sandbox/Examples/W_09_12_2025_00_22.h:955-1016 | The labels are drawn in list order, each by that rule |
| TunnelText.DrawRange | LightPainting_V5_Sandbox/Examples/W_09_12_2025_00_22.h:930-1016 | Nothing is drawn when the path length is ≤ 0 or the clamped range [max(s_start,0), min(s_end,L)] is empty. Otherwise every label positioned in the range is drawn, in order |
| TunnelText.CollectTextLines | LightPainting_V5_Sandbox/Examples/W_09_12_2025_00_22.h:1699-1771 | Nothing is collected when the path length is ≤ 0. Otherwise every non-empty label is collected, in order, whatever its position |
| TunnelText.ExportMatchesDrawRange | LightPainting_V5_Sandbox/Examples/W_09_12_2025_00_22.h:1699-1771 | For labels placed on the path, the export collects exactly the cells that a `draw_range` over the whole path draws |
| TunnelText.CollectAllTunnelDebugLines | LightPainting_V5_Sandbox/Examples/W_09_12_2025_00_22.h:1778-1793 | The output starts empty. It receives the geometry of the Tunnel sections in section order, then the text lines |
| TunnelText.PiecesExactly | LightPainting_V5_Sandbox/Examples/W_09_12_2025_00_22.h:1599-1603 | A section contributes exactly its own pieces |
| TunnelText.GeometryExactlyFromTunnels | LightPainting_V5_Sandbox/Examples/W_09_12_2025_00_22.h:1781-1789 | Piece k of section s is collected exactly when s is a Tunnel section and k is one of its pieces. Other kinds contribute nothing |
| TunnelText.TunnelLinesBeforeText | LightPainting_V5_Sandbox/Examples/W_09_12_2025_00_22.h:1781-1793 | Every line after a text line is a text line, the next of the label lines in order. No tunnel line follows text |
| TunnelText.ToU8Color | LightPainting_V5_Sandbox/Examples/W_09_12_2025_00_22.h:1590-1596 | A colour ≤ 0 maps to 0. One at or above full scale after exposure 0.6 maps to 255 |
| TunnelText.PlyLayout | LightPainting_V5_Sandbox/Examples/W_09_12_2025_00_22.h:1802-1852 | No lines means no buffers. Otherwise, for n lines: 6n floats holding each line's two endpoints, 6n colour bytes holding each line's colour twice, and 2n indices with edge i = (2i, 2i+1) |
| TunnelText.EdgesPairVertices | LightPainting_V5_Sandbox/Examples/W_09_12_2025_00_22.h:1838-1848 | Different edges share no vertex, and every index is within the 2n vertices |
| TunnelText.RunEffects | LightPainting_V5_Sandbox/Examples/W_09_12_2025_00_22.h:1286-1290 | An effect list runs its entries in order, skipping null ones |
| TunnelText.RunSection | LightPainting_V5_Sandbox/Examples/W_09_12_2025_00_22.h:1293-1319 | A section runs the effect list its kind selects, with that section as context |
| TunnelText.TunnelLinePushCallback | LightPainting_V5_Sandbox/Examples/W_09_12_2025_00_22.h:1272-1320 | A null universe does nothing. Otherwise the world effects run, then each section's list in section order, then one flush |
| TunnelText.RunListShape | LightPainting_V5_Sandbox/Examples/W_09_12_2025_00_22.h:1286-1290 | Every call made is a non-null effect of the list, tagged with the list's section |
| TunnelText.SectionRunsFrom | LightPainting_V5_Sandbox/Examples/W_09_12_2025_00_22.h:1293-1319 | Every per-section call comes from the list selected by its own section's kind |
| TunnelText.SectionRunsOrdered | LightPainting_V5_Sandbox/Examples/W_09_12_2025_00_22.h:1293-1319 | Per-section calls come in section order |
| TunnelText.DispatchOrder | LightPainting_V5_Sandbox/Examples/W_09_12_2025_00_22.h:1272-1320 | World effects come before all section effects, sections run in order, and the flush comes last |

## Left out

- GL resource management is not modelled: shaders, FBOs, VAOs, PBO creation, `glBufferSubData`, `glReadPixels` and `glMapBuffer`. Uploads and draws are events; the composited image is a function parameter; mapping success is a parameter.
- Shader floating-point math is not modelled: tonemap, bloom, blur, ribbon extrusion and `h1`. So is `hash_u`, which only turns a seed into jitter values. Only the integer seed, which the chunking affects, is modelled.
- FFmpeg, PNG writing via stb, `fs::create_directories` and tinyply are not modelled. The sink is a sequence of frame outputs; PLY writing stops at the buffer layout. The FFmpeg command string is left out.
- A pull callback must eventually return false, as WireEngine_v5.h:108-110 requires of it. `FrameBuilder.BuildFromPull` and `FrameBuilder.BuildFrameSegments` assume this, and so do the render-loop members that call them, such as `RenderLoop.RenderSequence`. A callback that never returns false makes the `while (true)` loop of `buildFrameSegments` run forever, and the model does not describe that run.
- GLFW and GLEW initialisation and failure paths are not modelled, except the null window GLFW returns for a non-positive size, which ends `RenderSequence`. Nor are `glfwPollEvents` and the yields every 6 passes, which do not affect what is drawn.
- The random steering of `advance_tube_path` is not modelled: the new direction is a parameter of `TubePath.AdvanceTubePath`.
- Floating-point rounding is not modelled. Floats are `real`, so the 1e-4 far-plane gap and frame times are exact.
- The 32-bit `uint32_t` vertex counter and the `int` version counter are unbounded here. The vertex counter goes up twice per line, so it would only wrap after 2^31 lines (2^32 vertices); the version counter after 2^31 files.
- Character classification is the C locale: only 'a'..'z' are upper-cased.
- The tunnel section's own geometry is not modelled: its line count per section is a parameter `geometry`. Its float content is scene content.
- The float placement of text is not modelled: label size, offset, camera basis and flicker. Only which cells of which labels are emitted, and in what order, is modelled.
- The camera and the other float fields of the scene structures are not modelled.
- The lines of the tube scene are only identifiers: each is named by its layer and loop indices (`TubePath.TubeLine`). Their positions, colours, thickness and intensity are not modelled. Only which lines are emitted, and in what order, is modelled.
- The glyph lookup is a parameter of the text functions. The entry points pass `TunnelText.GetFontGlyph`.
- UniqueName.GenerateUniqueName: a directory is a string key, and `outDir / rel` is outDir, a '/' and the directory part of rel. How std::filesystem treats an absolute rel, "." and ".." components or repeated separators is not modelled. Every caller in the program passes a base name without separators, which is probed in the output directory itself.
- `__FILE__` is a parameter: the call-site file for the macros, and the header's own path for `Utils::generate_unique_name`.
- TunnelText.ToU8Color: the conversion is stated only at the two clamps. In between it is the floor of `c·0.6·255`, which matches the truncating cast for non-negative values.
- TubePath.UpdateTube: its contract summarises the tube state as initialised and the count. The array contents are stated by `InitTubePath` and `AdvanceTubePath`, which it calls.
- TubePath.LinePushCallback: states the emitted line structure and not the scene's array contents after the call; those are given by `InitTubePath` and `AdvanceTubePath`.
- The push callback of a scene is a function from (frame, t) to its trace of `add` and `flush_now` calls, so a scene's own mutable state across frames is modelled only for the tube scene.
- The geometry emitted by the other effects (tunnel surface, energy, geo sets, ring fields, world box) is not modelled. Effects are opaque function values; only their dispatch is modelled.
