// Value types and the push-style emit context of the line engine's public
// header: one thick segment, the per-frame camera, the run settings, and the
// two guarded forwarders of the emit context.

module EngineTypes {

  datatype Option<T> = None | Some(value: T)

  /** A world-space point or direction (single-precision floats in the engine). */
  datatype Vec3 = Vec3(x: real, y: real, z: real)

  /** A linear RGB colour. */
  datatype Rgb = Rgb(r: real, g: real, b: real)

  /** One thick segment with a colour gradient (the engine's LineParams). */
  datatype LineParams = LineParams(
    start: Vec3, end: Vec3,
    startColor: Rgb, endColor: Rgb,
    thickness: real,   // ribbon radius in world units
    jitter: real,      // world-space jitter radius
    intensity: real)   // brightness multiplier

  /** A value-initialised LineParams: zero endpoints, white, thickness 1, no jitter, intensity 1. */
  function DefaultLine(): (lp: LineParams)
    ensures lp.start == lp.end == Vec3(0.0, 0.0, 0.0)
    ensures lp.startColor == lp.endColor == Rgb(1.0, 1.0, 1.0)
    ensures lp.thickness == 1.0 && lp.jitter == 0.0 && lp.intensity == 1.0
  {
    LineParams(Vec3(0.0, 0.0, 0.0), Vec3(0.0, 0.0, 0.0),
               Rgb(1.0, 1.0, 1.0), Rgb(1.0, 1.0, 1.0), 1.0, 0.0, 1.0)
  }

  datatype OutputMode = FramesPNG | FFmpegVideo

  datatype LineBlendMode = AdditiveLightPainting | OpaqueWithDepth

  /** The camera a camera callback fills in for one frame. */
  datatype CameraParams = CameraParams(
    eye: Vec3, target: Vec3, up: Vec3,
    hasCustomFov: bool, fovYDeg: real,
    hasCustomClip: bool, nearPlane: real, farPlane: real)

  const DefaultFovYDeg: real := 60.0
  const DefaultNearPlane: real := 0.1
  const DefaultFarPlane: real := 3000.0

  /** A value-initialised CameraParams. */
  function DefaultCamera(): (c: CameraParams)
    ensures c.eye == Vec3(0.0, 0.0, 450.0) && c.target == Vec3(0.0, 0.0, 0.0)
    ensures c.up == Vec3(0.0, 1.0, 0.0)
    ensures !c.hasCustomFov && !c.hasCustomClip
    ensures c.fovYDeg == DefaultFovYDeg
    ensures c.nearPlane == DefaultNearPlane && c.farPlane == DefaultFarPlane
  {
    CameraParams(Vec3(0.0, 0.0, 450.0), Vec3(0.0, 0.0, 0.0), Vec3(0.0, 1.0, 0.0),
                 false, 60.0, false, 0.1, 3000.0)
  }

  /** The settings of one rendering run. */
  datatype RenderSettings = RenderSettings(
    width: int, height: int, frames: int, fps: real,
    accumPasses: int,
    exposure: real, bloomThreshold: real, bloomStrength: real, bloomEnabled: bool,
    softEdge: real, energyPerHit: real, thicknessScale: real,
    maxLineSegmentsHint: int,
    usePbo: bool,
    outputDir: string,
    outputMode: OutputMode,
    ffmpegPath: string, ffmpegOutput: string, ffmpegExtraArgs: string,
    lineBlendMode: LineBlendMode)

  /** A value-initialised RenderSettings. */
  function DefaultSettings(): (s: RenderSettings)
    ensures s.width == 1280 && s.height == 720 && s.frames == 60 && s.fps == 60.0
    ensures s.accumPasses == 200
    ensures s.maxLineSegmentsHint == 4 * 1024 * 1024
    ensures s.usePbo && s.outputMode == FramesPNG
    ensures s.lineBlendMode == AdditiveLightPainting
    ensures s.bloomEnabled
  {
    RenderSettings(1280, 720, 60, 60.0, 200,
                   1.5, 0.70, 1.1, true,
                   0.85, 0.00008, 0.7,
                   4 * 1024 * 1024,
                   true, "frames_wire_lines_glow_v3",
                   FramesPNG, "ffmpeg", "wire.mp4", "",
                   AdditiveLightPainting)
  }

  // ---------------------------------------------------------------------------
  // Push-style emission
  // ---------------------------------------------------------------------------

  /** What the two optional callbacks of an emit context were asked to do. */
  datatype CtxEvent = EmitCalled(line: LineParams) | FlushCalled

  /**
   * An emit context: whether its `emit` and `flush` callbacks are set.
   * The callbacks themselves are abstract; calling one is recorded as an event.
   */
  datatype LineEmitContext = LineEmitContext(hasEmit: bool, hasFlush: bool)

  /** One call a push callback makes on its context, in program order. */
  datatype CtxCall = Add(line: LineParams) | FlushNow

  /** `add`: forwards the segment to `emit` when it is set, else does nothing. */
  function AddLine(ctx: LineEmitContext, lp: LineParams): (ev: seq<CtxEvent>)
    ensures |ev| <= 1
    ensures ctx.hasEmit <==> ev != []
    ensures forall e :: e in ev ==> e == EmitCalled(lp)
  {
    if ctx.hasEmit then [EmitCalled(lp)] else []
  }

  /** `flush_now`: calls `flush` when it is set, else does nothing. */
  function FlushNowEvents(ctx: LineEmitContext): (ev: seq<CtxEvent>)
    ensures |ev| <= 1
    ensures ctx.hasFlush <==> ev != []
    ensures forall e :: e in ev ==> e == FlushCalled
  {
    if ctx.hasFlush then [FlushCalled] else []
  }

  /** The callback invocations that a sequence of context calls causes. */
  function Perform(ctx: LineEmitContext, calls: seq<CtxCall>): seq<CtxEvent>
  {
    if calls == [] then []
    else
      var head := match calls[0]
        case Add(lp) => AddLine(ctx, lp)
        case FlushNow => FlushNowEvents(ctx);
      head + Perform(ctx, calls[1..])
  }

  /** The segments passed to `add`, in call order. */
  function AddedLines(calls: seq<CtxCall>): (r: seq<LineParams>)
    ensures |r| <= |calls|
  {
    if calls == [] then []
    else (if calls[0].Add? then [calls[0].line] else []) + AddedLines(calls[1..])
  }

  /** The segments an `emit` callback receives, in invocation order. */
  function EmittedLines(events: seq<CtxEvent>): seq<LineParams>
  {
    if events == [] then []
    else (if events[0].EmitCalled? then [events[0].line] else []) + EmittedLines(events[1..])
  }

  lemma {:induction false} EmittedConcat(a: seq<CtxEvent>, b: seq<CtxEvent>)
    ensures EmittedLines(a + b) == EmittedLines(a) + EmittedLines(b)
  {
    if a != [] {
      assert (a + b)[1..] == a[1..] + b;
      EmittedConcat(a[1..], b);
    } else {
      assert a + b == b;
    }
  }

  /**
   * With `emit` set, `emit` receives exactly the segments passed to `add`, in
   * order (flushes interleave but carry no segment); without it, nothing.
   */
  lemma {:induction false} EmitDeliversAdds(ctx: LineEmitContext, calls: seq<CtxCall>)
    ensures EmittedLines(Perform(ctx, calls)) == if ctx.hasEmit then AddedLines(calls) else []
  {
    if calls != [] {
      var head := match calls[0]
        case Add(lp) => AddLine(ctx, lp)
        case FlushNow => FlushNowEvents(ctx);
      EmittedConcat(head, Perform(ctx, calls[1..]));
      EmitDeliversAdds(ctx, calls[1..]);
      assert EmittedLines(head) == if ctx.hasEmit && calls[0].Add? then [calls[0].line] else [];
    }
  }

  /** Every `flush_now` reaches `flush` exactly when `flush` is set. */
  function FlushCount(events: seq<CtxEvent>): nat
  {
    if events == [] then 0 else (if events[0] == FlushCalled then 1 else 0) + FlushCount(events[1..])
  }

  function FlushNowCount(calls: seq<CtxCall>): nat
  {
    if calls == [] then 0 else (if calls[0] == FlushNow then 1 else 0) + FlushNowCount(calls[1..])
  }

  lemma {:induction false} FlushCountConcat(a: seq<CtxEvent>, b: seq<CtxEvent>)
    ensures FlushCount(a + b) == FlushCount(a) + FlushCount(b)
  {
    if a != [] {
      assert (a + b)[1..] == a[1..] + b;
      FlushCountConcat(a[1..], b);
    } else {
      assert a + b == b;
    }
  }

  lemma {:induction false} FlushReachesCallback(ctx: LineEmitContext, calls: seq<CtxCall>)
    ensures FlushCount(Perform(ctx, calls)) == if ctx.hasFlush then FlushNowCount(calls) else 0
  {
    if calls != [] {
      var head := match calls[0]
        case Add(lp) => AddLine(ctx, lp)
        case FlushNow => FlushNowEvents(ctx);
      FlushCountConcat(head, Perform(ctx, calls[1..]));
      FlushReachesCallback(ctx, calls[1..]);
      assert FlushCount(head) == if ctx.hasFlush && calls[0] == FlushNow then 1 else 0;
    }
  }
}
