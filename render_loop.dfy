// The frame loop of a rendering run: frame time, camera and projection per
// frame, building and drawing the frame's segments, readback, and the final
// flush; and the push-style entry point that wraps a push callback in the
// caching adapter.

module RenderLoop {
  import opened EngineTypes
  import opened FrameBuilder
  import opened DrawSchedule
  import opened Readback

  // ---------------------------------------------------------------------------
  // Frame time, camera, projection
  // ---------------------------------------------------------------------------

  /** Seconds at frame f: f / fps for a positive frame rate, else f itself. */
  function FrameTime(f: int, fps: real): real
  {
    if fps > 0.0 then f as real / fps else f as real
  }

  /** Frame times are the frame index at the frame rate, and they increase with the frame. */
  lemma FrameTimeProperties(f: int, g: int, fps: real)
    ensures fps > 0.0 ==> FrameTime(f, fps) * fps == f as real
    ensures fps <= 0.0 ==> FrameTime(f, fps) == f as real
    ensures f < g ==> FrameTime(f, fps) < FrameTime(g, fps)
  {
    if fps > 0.0 && f < g {
      assert (g as real - f as real) / fps > 0.0;
      assert g as real / fps - f as real / fps == (g as real - f as real) / fps;
    }
  }

  /** A camera callback: fills in the camera for (frame, t), starting from the default. */
  type CameraFn = (int, real, CameraParams) -> CameraParams

  /** The camera of frame f: the default, then whatever the callback sets. */
  function CameraFor(cameraCb: Option<CameraFn>, f: int, t: real): CameraParams
  {
    if cameraCb.Some? then cameraCb.value(f, t, DefaultCamera()) else DefaultCamera()
  }

  datatype Projection = Projection(fovYDeg: real, nearPlane: real, farPlane: real)

  /** The smallest gap the far plane must keep above the near plane. */
  const FarGap: real := 0.0001

  /**
   * The projection parameters of a frame: the engine's bases (60 degrees, 0.1,
   * 3000) unless the camera supplies custom ones, then the fallback rules.
   */
  function ProjectionFor(cam: CameraParams): (p: Projection)
    ensures p.fovYDeg > 0.0 && p.nearPlane > 0.0
    ensures p.fovYDeg == (if cam.hasCustomFov && cam.fovYDeg > 0.0 then cam.fovYDeg else DefaultFovYDeg)
    ensures p.nearPlane == (if cam.hasCustomClip && cam.nearPlane > 0.0 then cam.nearPlane else DefaultNearPlane)
    ensures var far := if cam.hasCustomClip then cam.farPlane else DefaultFarPlane;
            p.farPlane == (if far <= p.nearPlane + FarGap then DefaultFarPlane else far)
  {
    var fov0 := if cam.hasCustomFov then cam.fovYDeg else DefaultFovYDeg;
    var near0 := if cam.hasCustomClip then cam.nearPlane else DefaultNearPlane;
    var far0 := if cam.hasCustomClip then cam.farPlane else DefaultFarPlane;
    var fov := if fov0 <= 0.0 then DefaultFovYDeg else fov0;
    var near := if near0 <= 0.0 then DefaultNearPlane else near0;
    var far := if far0 <= near + FarGap then DefaultFarPlane else far0;
    Projection(fov, near, far)
  }

  /** Without custom values the projection is exactly the engine's bases. */
  lemma DefaultCameraProjection()
    ensures ProjectionFor(DefaultCamera()) == Projection(DefaultFovYDeg, DefaultNearPlane, DefaultFarPlane)
  {
  }

  /**
   * The fallback keeps the far plane above the near plane exactly when the
   * requested far plane clears the near plane by the gap, or the near plane
   * lies below the base far plane 3000 that the fallback substitutes.
   */
  lemma FarAboveNearUnlessNearPastBase(cam: CameraParams)
    ensures var p := ProjectionFor(cam);
            var far := if cam.hasCustomClip then cam.farPlane else DefaultFarPlane;
            p.farPlane > p.nearPlane <==> far > p.nearPlane + FarGap || p.nearPlane < DefaultFarPlane
  {
  }

  /** A custom clip range (5000, 100) gives a far plane (3000) below the near plane (5000). */
  lemma FallbackCanInvertClipRange()
    ensures var p := ProjectionFor(DefaultCamera().(hasCustomClip := true, nearPlane := 5000.0, farPlane := 100.0));
            p.nearPlane == 5000.0 && p.farPlane == 3000.0
  {
  }

  // ---------------------------------------------------------------------------
  // One frame
  // ---------------------------------------------------------------------------

  /** The compositor: the final image of a frame from what was drawn (the GPU passes are not modelled). */
  type Compositor = (int, CameraParams, Projection, seq<LineInstance>) -> seq<bv8>

  /** What one iteration of the frame loop produced. */
  datatype FrameRecord = FrameRecord(
    time: real,
    camera: CameraParams,
    projection: Projection,
    segments: seq<LineInstance>,
    calls: seq<GlCall>,
    image: seq<bv8>)

  /** Bytes of one RGBA8 frame of the run's size (0 when no window could be made). */
  function ImageBytes(settings: RenderSettings): nat
  {
    if settings.width > 0 && settings.height > 0 then (settings.width * 4) * settings.height else 0
  }

  /** The frame count the loop runs: `frames` when positive, else none. */
  function FrameCount(frames: int): nat
  {
    if frames > 0 then frames else 0
  }

  // ---------------------------------------------------------------------------
  // What the sink receives
  // ---------------------------------------------------------------------------

  /**
   * The indices of the frames that reach the sink when the loop has captured
   * frames 0 .. n-1. Without PBOs every frame is written at once. With PBOs
   * frame k is written from the map at capture k+1 (or the final flush when
   * k = n-1), and `mapOk(k + 1)` says whether that map succeeded; a frame whose
   * map fails is lost.
   */
  function DeliveredFrames(usePbo: bool, mapOk: int -> bool, n: nat): (r: seq<nat>)
    ensures forall i :: 0 <= i < |r| ==> r[i] < n
  {
    if n == 0 then []
    else DeliveredFrames(usePbo, mapOk, n - 1) + (if !usePbo || mapOk(n) then [n - 1] else [])
  }

  predicate Increasing(s: seq<nat>)
  {
    forall i, j :: 0 <= i < j < |s| ==> s[i] < s[j]
  }

  /** Frames reach the sink in increasing order, so none twice. */
  lemma {:induction false} DeliveredFramesIncreasing(usePbo: bool, mapOk: int -> bool, n: nat)
    ensures Increasing(DeliveredFrames(usePbo, mapOk, n))
  {
    if n > 0 {
      DeliveredFramesIncreasing(usePbo, mapOk, n - 1);
      var p := DeliveredFrames(usePbo, mapOk, n - 1);
      var last: seq<nat> := if !usePbo || mapOk(n) then [n - 1] else [];
      var r := p + last;
      assert DeliveredFrames(usePbo, mapOk, n) == r;
      forall i, j | 0 <= i < j < |r|
        ensures r[i] < r[j]
      {
        if j >= |p| {
          assert r[j] == n - 1 && r[i] == p[i];
        } else {
          assert r[i] == p[i] && r[j] == p[j];
        }
      }
    }
  }

  /** Frame k is lost exactly when PBOs are on and the map that would deliver it fails. */
  lemma {:induction false} DeliveredFramesExactly(usePbo: bool, mapOk: int -> bool, n: nat)
    ensures forall k :: 0 <= k < n ==> (k in DeliveredFrames(usePbo, mapOk, n) <==> !usePbo || mapOk(k + 1))
  {
    if n > 0 {
      DeliveredFramesExactly(usePbo, mapOk, n - 1);
      var p := DeliveredFrames(usePbo, mapOk, n - 1);
      var last: seq<nat> := if !usePbo || mapOk(n) then [n - 1] else [];
      assert DeliveredFrames(usePbo, mapOk, n) == p + last;
      forall k | 0 <= k < n
        ensures k in p + last <==> !usePbo || mapOk(k + 1)
      {
        assert k in p + last <==> k in p || k in last;
        if k == n - 1 {
          assert k !in p;
        }
      }
    }
  }

  /** The sink's view of a run: each delivered frame's image, flipped and written under its index. */
  function Outputs(sink: Sink, rowBytes: nat, h: nat, images: seq<seq<bv8>>, frames: seq<nat>): (o: seq<FrameOutput>)
    requires forall i :: 0 <= i < |frames| ==> frames[i] < |images|
    requires forall k :: 0 <= k < |images| ==> |images[k]| == rowBytes * h
    ensures |o| == |frames|
  {
    seq(|frames|, i requires 0 <= i < |frames| =>
      WriteFrame(sink, frames[i], FlipRows(images[frames[i]], rowBytes, h)))
  }

  /** `outputs` is what the sink has received for the delivered `frames` of `images`. */
  ghost predicate SinkSeen(sink: Sink, rowBytes: nat, h: nat, images: seq<seq<bv8>>, frames: seq<nat>,
                           outputs: seq<FrameOutput>)
  {
    (forall i :: 0 <= i < |frames| ==> frames[i] < |images|) &&
    (forall k :: 0 <= k < |images| ==> |images[k]| == rowBytes * h) &&
    outputs == Outputs(sink, rowBytes, h, images, frames)
  }

  /**
   * When every map succeeds (or PBOs are off), the sink receives frames
   * 0 .. n-1, each exactly once, in increasing order.
   */
  lemma {:induction false} AllFramesDeliveredInOrder(usePbo: bool, mapOk: int -> bool, n: nat)
    requires usePbo ==> forall k :: 1 <= k <= n ==> mapOk(k)
    ensures DeliveredFrames(usePbo, mapOk, n) == seq(n, k requires 0 <= k < n => k)
  {
    if n > 0 {
      AllFramesDeliveredInOrder(usePbo, mapOk, n - 1);
    }
  }

  /** In PNG mode no two delivered frames are written to the same file. */
  lemma DeliveredFilesDistinct(sink: Sink, rowBytes: nat, h: nat, images: seq<seq<bv8>>,
                               usePbo: bool, mapOk: int -> bool)
    requires forall k :: 0 <= k < |images| ==> |images[k]| == rowBytes * h
    ensures var o := Outputs(sink, rowBytes, h, images, DeliveredFrames(usePbo, mapOk, |images|));
            forall i, j :: 0 <= i < j < |o| && o[i].PngFile? ==> o[j].PngFile? && o[i].path != o[j].path
  {
    var frames := DeliveredFrames(usePbo, mapOk, |images|);
    var o := Outputs(sink, rowBytes, h, images, frames);
    DeliveredFramesIncreasing(usePbo, mapOk, |images|);
    forall i, j | 0 <= i < j < |o| && o[i].PngFile?
      ensures o[j].PngFile? && o[i].path != o[j].path
    {
      if o[i].path == o[j].path {
        FramePathInjective(sink.outDir, frames[i], frames[j]);
      }
    }
  }

  /** The images of the records, in frame order. */
  function Images(records: seq<FrameRecord>): (r: seq<seq<bv8>>)
    ensures |r| == |records|
  {
    seq(|records|, k requires 0 <= k < |records| => records[k].image)
  }

  // ---------------------------------------------------------------------------
  // The loop
  // ---------------------------------------------------------------------------

  /** The frame-loop facts about record f that do not depend on the line callback. */
  ghost predicate FrameMatches(settings: RenderSettings, cameraCb: Option<CameraFn>, composite: Compositor,
                               f: int, r: FrameRecord)
  {
    r.time == FrameTime(f, settings.fps) &&
    r.camera == CameraFor(cameraCb, f, r.time) &&
    r.projection == ProjectionFor(r.camera) &&
    r.calls == Schedule(|r.segments|, Capacity(settings.maxLineSegmentsHint), settings.accumPasses) &&
    r.image == composite(f, r.camera, r.projection, r.segments)
  }

  /** The segments of record f came from the line callback as the builder specifies. */
  ghost predicate SegmentsFrom(lineCb: LineCallback, f: int, r: FrameRecord, firstUse: bool)
  {
    (lineCb.NoCallback? ==> r.segments == []) &&
    (lineCb.PullStyle? ==> exists served :: PulledPrefix(lineCb.fn, f, r.time, served) && r.segments == Kept(served)) &&
    (lineCb.PushAdapted? && firstUse ==> r.segments == Kept(FrameLines(lineCb.adapter.pushCb, f, r.time)))
  }

  /** Everything the loop promises about record k. */
  ghost predicate RecordOk(settings: RenderSettings, cameraCb: Option<CameraFn>, composite: Compositor,
                           lineCb: LineCallback, firstUse: bool, k: int, r: FrameRecord)
  {
    FrameMatches(settings, cameraCb, composite, k, r) &&
    SegmentsFrom(lineCb, k, r, firstUse) &&
    |r.image| == ImageBytes(settings)
  }

  ghost predicate AllRecordsOk(settings: RenderSettings, cameraCb: Option<CameraFn>, composite: Compositor,
                               lineCb: LineCallback, firstUse: bool, records: seq<FrameRecord>)
  {
    forall k :: 0 <= k < |records| ==> RecordOk(settings, cameraCb, composite, lineCb, firstUse, k, records[k])
  }

  lemma AllRecordsOkSnoc(settings: RenderSettings, cameraCb: Option<CameraFn>, composite: Compositor,
                         lineCb: LineCallback, firstUse: bool, records: seq<FrameRecord>, r: FrameRecord)
    requires AllRecordsOk(settings, cameraCb, composite, lineCb, firstUse, records)
    requires RecordOk(settings, cameraCb, composite, lineCb, firstUse, |records|, r)
    ensures AllRecordsOk(settings, cameraCb, composite, lineCb, firstUse, records + [r])
  {
  }

  /** The images of all-valid records are frames of the run's size. */
  lemma RecordImagesSized(settings: RenderSettings, cameraCb: Option<CameraFn>, composite: Compositor,
                          lineCb: LineCallback, firstUse: bool, records: seq<FrameRecord>)
    requires AllRecordsOk(settings, cameraCb, composite, lineCb, firstUse, records)
    requires settings.width > 0 && settings.height > 0
    ensures forall k :: 0 <= k < |records| ==> |Images(records)[k]| == (settings.width * 4) * settings.height
  {
  }

  function Range(n: nat): (r: seq<int>)
    ensures |r| == n && forall i :: 0 <= i < n ==> r[i] == i
  {
    seq(n, i requires 0 <= i < n => i)
  }

  /** The adapter has run the push callback for frames 0 .. n-1 since `runs0`, and its cache is older than frame n. */
  ghost predicate AdapterRanFrames(adapter: PushAdapter, runs0: seq<int>, n: nat)
    reads adapter
  {
    adapter.cachedFrame < n &&
    adapter.runs == runs0 + (if adapter.pushCb.Some? then Range(n) else [])
  }

  /** One more run of the push callback, for frame n, extends the runs by n. */
  lemma RangeSnoc(runs0: seq<int>, some: bool, n: nat)
    ensures (runs0 + (if some then Range(n) else [])) + (if some then [n] else [])
         == runs0 + (if some then Range(n + 1) else [])
  {
    assert Range(n) + [n] == Range(n + 1) by {
      assert (Range(n) + [n])[n] == n;
    }
    assert (runs0 + Range(n)) + [n] == runs0 + (Range(n) + [n]);
  }

  /** The line callback ends every frame's sequence of segments. */
  ghost predicate AlwaysEnds(lineCb: LineCallback)
  {
    forall f: int, t: real :: Ends(lineCb, f, t)
  }

  /** The compositor returns images of the size the readback expects. */
  ghost predicate CompositeSized(composite: Compositor, settings: RenderSettings)
  {
    forall f, c, p, s :: |composite(f, c, p, s)| == ImageBytes(settings)
  }

  /**
   * One iteration of the frame loop: the frame's time, camera and projection,
   * then renderFrame: build the segments, schedule the accumulation passes,
   * composite, and read back.
   */
  method RenderFrame(settings: RenderSettings, cameraCb: Option<CameraFn>, lineCb: LineCallback,
                     composite: Compositor, rb: PboReadback, sink: Sink, f: int, mapOkNow: bool,
                     ghost firstUse: bool)
    returns (record: FrameRecord, written: Option<FrameOutput>)
    requires settings.width > 0 && settings.height > 0
    requires forall t: real :: Ends(lineCb, f, t)
    requires firstUse ==> lineCb.PushAdapted? && lineCb.adapter.cachedFrame != f
    requires forall f, c, p, s :: |composite(f, c, p, s)| == ImageBytes(settings)
    requires rb.Valid() && (rb.enabled ==> rb.bytes == (settings.width * 4) * settings.height)
    modifies rb, rb.pbo, if lineCb.PushAdapted? then {lineCb.adapter} else {}
    ensures RecordOk(settings, cameraCb, composite, lineCb, firstUse, f, record)
    ensures lineCb.PushAdapted? ==>
      lineCb.adapter.cachedFrame == f &&
      lineCb.adapter.runs == old(lineCb.adapter.runs) +
        (if f != old(lineCb.adapter.cachedFrame) && lineCb.adapter.pushCb.Some? then [f] else [])
    ensures rb.Valid() && rb.enabled == old(rb.enabled) && rb.bytes == old(rb.bytes)
    ensures !rb.enabled ==>
      written == Some(WriteFrame(sink, f, FlipRows(record.image, settings.width * 4, settings.height)))
    ensures rb.enabled ==>
      !rb.first && rb.pbo[rb.prev] == record.image &&
      written == (if old(rb.first) || !mapOkNow then None
                  else Some(WriteFrame(sink, f - 1, FlipRows(old(rb.pbo[rb.prev]), settings.width * 4, settings.height))))
  {
    var t := FrameTime(f, settings.fps);
    var cam := CameraFor(cameraCb, f, t);
    var proj := ProjectionFor(cam);
    var segments, served := BuildFrameSegments(lineCb, f, t);
    var calls := AccumulateScene(|segments|, Capacity(settings.maxLineSegmentsHint), settings.accumPasses);
    var image := composite(f, cam, proj, segments);
    record := FrameRecord(t, cam, proj, segments, calls, image);
    written := rb.SaveOrStream(f, settings.width, settings.height, sink, image, mapOkNow);
  }

  /**
   * The loop's bookkeeping after frames 0 .. f-1: their records are as the
   * frame loop specifies, and the sink has received what DeliveredFrames says.
   */
  ghost predicate Captured(settings: RenderSettings, cameraCb: Option<CameraFn>, composite: Compositor,
                           lineCb: LineCallback, firstUse: bool, sink: Sink, mapOk: int -> bool,
                           f: nat, records: seq<FrameRecord>, outputs: seq<FrameOutput>)
    requires settings.width > 0 && settings.height > 0
  {
    |records| == f &&
    AllRecordsOk(settings, cameraCb, composite, lineCb, firstUse, records) &&
    SinkSeen(sink, settings.width * 4, settings.height, Images(records),
             DeliveredFrames(settings.usePbo, mapOk, if settings.usePbo && f > 0 then f - 1 else f), outputs)
  }

  /**
   * The readback's state after frames 0 .. f-1: PBOs on as configured, and
   * with PBOs the last frame's image is the one in flight.
   */
  ghost predicate InFlight(rb: PboReadback, settings: RenderSettings, f: nat, records: seq<FrameRecord>)
    reads rb, rb.pbo
  {
    rb.Valid() && rb.enabled == settings.usePbo &&
    (rb.enabled ==> rb.bytes == (settings.width * 4) * settings.height) &&
    (rb.enabled ==> rb.first == (f == 0) && (f > 0 ==> |records| == f && rb.pbo[rb.prev] == records[f - 1].image))
  }

  /** Everything the frame loop keeps after frames 0 .. f-1. */
  ghost predicate Progress(settings: RenderSettings, cameraCb: Option<CameraFn>, composite: Compositor,
                           lineCb: LineCallback, firstUse: bool, runs0: seq<int>, rb: PboReadback,
                           sink: Sink, mapOk: int -> bool, f: nat, records: seq<FrameRecord>,
                           outputs: seq<FrameOutput>)
    requires settings.width > 0 && settings.height > 0
    reads rb, rb.pbo, if lineCb.PushAdapted? then {lineCb.adapter} else {}
  {
    InFlight(rb, settings, f, records) &&
    (firstUse ==> lineCb.PushAdapted? && AdapterRanFrames(lineCb.adapter, runs0, f)) &&
    Captured(settings, cameraCb, composite, lineCb, firstUse, sink, mapOk, f, records, outputs)
  }

  /** One iteration of the frame loop: render frame f and record what reached the sink. */
  method CaptureStep(settings: RenderSettings, cameraCb: Option<CameraFn>, lineCb: LineCallback,
                     composite: Compositor, rb: PboReadback, sink: Sink, mapOk: int -> bool,
                     ghost firstUse: bool, ghost runs0: seq<int>,
                     f: nat, records: seq<FrameRecord>, outputs: seq<FrameOutput>)
    returns (records': seq<FrameRecord>, outputs': seq<FrameOutput>)
    requires settings.width > 0 && settings.height > 0
    requires AlwaysEnds(lineCb) && CompositeSized(composite, settings)
    requires Progress(settings, cameraCb, composite, lineCb, firstUse, runs0, rb, sink, mapOk, f, records, outputs)
    modifies rb, rb.pbo, if lineCb.PushAdapted? then {lineCb.adapter} else {}
    ensures Progress(settings, cameraCb, composite, lineCb, firstUse, runs0, rb, sink, mapOk, f + 1, records', outputs')
  {
    ghost var prevImage := if rb.enabled && f > 0 then rb.pbo[rb.prev] else [];
    var record, written := RenderFrame(settings, cameraCb, lineCb, composite, rb, sink, f, mapOk(f), firstUse);
    if firstUse {
      RangeSnoc(runs0, lineCb.adapter.pushCb.Some?, f);
    }
    records' := records + [record];
    assert records'[f] == record;
    outputs' := if written.Some? then outputs + [written.value] else outputs;
    CapturedSnoc(settings, cameraCb, composite, lineCb, firstUse, sink, mapOk, f, records, outputs,
                 record, written, prevImage);
  }

  /** Appending frame f's record and what the sink received for it keeps Captured. */
  lemma CapturedSnoc(settings: RenderSettings, cameraCb: Option<CameraFn>, composite: Compositor,
                     lineCb: LineCallback, firstUse: bool, sink: Sink, mapOk: int -> bool,
                     f: nat, records: seq<FrameRecord>, outputs: seq<FrameOutput>,
                     record: FrameRecord, written: Option<FrameOutput>, prevImage: seq<bv8>)
    requires settings.width > 0 && settings.height > 0
    requires Captured(settings, cameraCb, composite, lineCb, firstUse, sink, mapOk, f, records, outputs)
    requires RecordOk(settings, cameraCb, composite, lineCb, firstUse, f, record)
    requires !settings.usePbo ==>
      written == Some(WriteFrame(sink, f, FlipRows(record.image, settings.width * 4, settings.height)))
    requires settings.usePbo && f > 0 ==> prevImage == records[f - 1].image
    requires settings.usePbo ==>
      written == (if f == 0 || !mapOk(f) then None
                  else Some(WriteFrame(sink, f - 1, FlipRows(prevImage, settings.width * 4, settings.height))))
    ensures Captured(settings, cameraCb, composite, lineCb, firstUse, sink, mapOk, f + 1, records + [record],
                     if written.Some? then outputs + [written.value] else outputs)
  {
    var w: nat, h: nat := settings.width, settings.height;
    var before := Images(records);
    var after := Images(records + [record]);
    RecordImagesSized(settings, cameraCb, composite, lineCb, firstUse, records);
    AllRecordsOkSnoc(settings, cameraCb, composite, lineCb, firstUse, records, record);
    assert after == before + [record.image];
    RecordImagesSized(settings, cameraCb, composite, lineCb, firstUse, records + [record]);
    DeliveredStep(sink, w * 4, h, before, after, settings.usePbo, mapOk, f, outputs, written, prevImage);
  }

  /**
   * One rendering run. The run has no size check of its own: it returns when
   * `glfwCreateWindow` gives null, which GLFW does for a non-positive width or
   * height, so such a run does nothing. Other window or GLEW failures are not
   * modelled. Otherwise frames 0 .. frames-1 are built, drawn,
   * composited and read back in order, then the frame still in flight is
   * flushed. `pipeOk` says whether the FFmpeg pipe opened; `mapOk(k)` whether
   * the buffer map at capture k (or at the flush, k = frames) succeeds.
   */
  method RenderSequence(settings: RenderSettings, cameraCb: Option<CameraFn>, lineCb: LineCallback,
                        composite: Compositor, pipeOk: bool, mapOk: int -> bool)
    returns (records: seq<FrameRecord>, outputs: seq<FrameOutput>)
    requires AlwaysEnds(lineCb) && CompositeSized(composite, settings)
    modifies if lineCb.PushAdapted? then {lineCb.adapter} else {}
    ensures settings.width <= 0 || settings.height <= 0 ==> records == [] && outputs == []
    ensures settings.width > 0 && settings.height > 0 ==>
      |records| == FrameCount(settings.frames) &&
      (forall f :: 0 <= f < |records| ==> FrameMatches(settings, cameraCb, composite, f, records[f])) &&
      (forall f :: 0 <= f < |records| ==>
         SegmentsFrom(lineCb, f, records[f], lineCb.PushAdapted? && old(lineCb.adapter.cachedFrame) < 0)) &&
      outputs == Outputs(SinkOf(settings, pipeOk), settings.width * 4, settings.height, Images(records),
                         DeliveredFrames(settings.usePbo, mapOk, |records|))
    ensures lineCb.PushAdapted? && old(lineCb.adapter.cachedFrame) < 0 ==>
      lineCb.adapter.runs == old(lineCb.adapter.runs) +
        (if lineCb.adapter.pushCb.Some? then Range(|records|) else [])
  {
    records, outputs := [], [];
    if settings.width <= 0 || settings.height <= 0 {
      return;
    }
    var w: nat, h: nat := settings.width, settings.height;
    var sink := SinkOf(settings, pipeOk);
    var rb := new PboReadback();
    rb.InitPbo(settings.usePbo, w, h);
    ghost var firstUse := lineCb.PushAdapted? && old(lineCb.adapter.cachedFrame) < 0;
    records, outputs := RenderFrames(settings, cameraCb, lineCb, composite, rb, sink, mapOk, firstUse);
    if settings.usePbo {
      outputs := FlushInFlight(settings, rb, sink, mapOk, records, outputs);
    }
    RecordImagesSized(settings, cameraCb, composite, lineCb, firstUse, records);
  }

  /** The frame loop: frames 0 .. frames-1, each rendered and captured in order. */
  method RenderFrames(settings: RenderSettings, cameraCb: Option<CameraFn>, lineCb: LineCallback,
                      composite: Compositor, rb: PboReadback, sink: Sink, mapOk: int -> bool, ghost firstUse: bool)
    returns (records: seq<FrameRecord>, outputs: seq<FrameOutput>)
    requires settings.width > 0 && settings.height > 0
    requires AlwaysEnds(lineCb) && CompositeSized(composite, settings)
    requires InFlight(rb, settings, 0, [])
    requires firstUse ==> lineCb.PushAdapted? && lineCb.adapter.cachedFrame < 0
    modifies rb, rb.pbo, if lineCb.PushAdapted? then {lineCb.adapter} else {}
    ensures |records| == FrameCount(settings.frames)
    ensures InFlight(rb, settings, |records|, records)
    ensures Captured(settings, cameraCb, composite, lineCb, firstUse, sink, mapOk, |records|, records, outputs)
    ensures firstUse ==> AdapterRanFrames(lineCb.adapter, old(lineCb.adapter.runs), |records|)
  {
    records, outputs := [], [];
    ghost var runs0 := if lineCb.PushAdapted? then lineCb.adapter.runs else [];
    var f := 0;
    while f < settings.frames
      invariant 0 <= f <= FrameCount(settings.frames) && |records| == f
      invariant Progress(settings, cameraCb, composite, lineCb, firstUse, runs0, rb, sink, mapOk, f, records, outputs)
    {
      records, outputs := CaptureStep(settings, cameraCb, lineCb, composite, rb, sink, mapOk, firstUse, runs0, f, records, outputs);
      f := f + 1;
    }
  }

  /** After the loop, the frame still in flight is mapped and written (PBO mode). */
  method FlushInFlight(settings: RenderSettings, rb: PboReadback, sink: Sink, mapOk: int -> bool,
                       records: seq<FrameRecord>, outputs: seq<FrameOutput>)
    returns (outputs': seq<FrameOutput>)
    requires settings.width > 0 && settings.height > 0 && settings.usePbo
    requires |records| == FrameCount(settings.frames) && InFlight(rb, settings, |records|, records)
    requires forall k :: 0 <= k < |records| ==> |Images(records)[k]| == (settings.width * 4) * settings.height
    requires SinkSeen(sink, settings.width * 4, settings.height, Images(records),
                      DeliveredFrames(true, mapOk, if |records| > 0 then |records| - 1 else 0), outputs)
    ensures SinkSeen(sink, settings.width * 4, settings.height, Images(records),
                     DeliveredFrames(true, mapOk, |records|), outputs')
  {
    var w: nat, h: nat := settings.width, settings.height;
    ghost var images := Images(records);
    ghost var n := |records|;
    ghost var lastImage := if n > 0 then rb.pbo[rb.prev] else [];
    InFlightLast(rb, settings, records);
    var written := rb.FlushLast(settings.frames - 1, w, h, sink, mapOk(settings.frames));
    FlushStep(sink, w * 4, h, images, mapOk, outputs, written, lastImage);
    outputs' := outputs;
    if written.Some? {
      outputs' := outputs + [written.value];
    }
  }

  /** What the PBO pair holds once frames 0 .. n-1 are captured: frame n-1's image, if any. */
  lemma InFlightLast(rb: PboReadback, settings: RenderSettings, records: seq<FrameRecord>)
    requires settings.usePbo
    requires |records| == FrameCount(settings.frames) && InFlight(rb, settings, |records|, records)
    ensures rb.enabled && (rb.first <==> |records| == 0)
    ensures |Images(records)| == |records|
    ensures |records| > 0 ==> settings.frames == |records| && rb.pbo[rb.prev] == Images(records)[|records| - 1]
  {
  }

  /** The frame sink of a run: the output mode, the pipe if it opened, the output directory. */
  function SinkOf(settings: RenderSettings, pipeOk: bool): Sink
  {
    Sink(settings.outputMode, settings.outputMode == FFmpegVideo && pipeOk, settings.outputDir)
  }

  lemma OutputsSnoc(sink: Sink, rowBytes: nat, h: nat, images: seq<seq<bv8>>, frames: seq<nat>, k: nat)
    requires forall i :: 0 <= i < |frames| ==> frames[i] < |images|
    requires forall i :: 0 <= i < |images| ==> |images[i]| == rowBytes * h
    requires k < |images|
    ensures Outputs(sink, rowBytes, h, images, frames + [k])
         == Outputs(sink, rowBytes, h, images, frames) + [WriteFrame(sink, k, FlipRows(images[k], rowBytes, h))]
  {
  }

  lemma OutputsExtend(sink: Sink, rowBytes: nat, h: nat, images: seq<seq<bv8>>, more: seq<seq<bv8>>, frames: seq<nat>)
    requires forall i :: 0 <= i < |frames| ==> frames[i] < |images|
    requires forall i :: 0 <= i < |images| ==> |images[i]| == rowBytes * h
    requires forall i :: 0 <= i < |images + more| ==> |(images + more)[i]| == rowBytes * h
    ensures Outputs(sink, rowBytes, h, images + more, frames) == Outputs(sink, rowBytes, h, images, frames)
  {
  }

  /** One capture keeps the sink's view in step with DeliveredFrames. */
  lemma DeliveredStep(sink: Sink, rowBytes: nat, h: nat, before: seq<seq<bv8>>, after: seq<seq<bv8>>,
                      usePbo: bool, mapOk: int -> bool, f: nat, outputs: seq<FrameOutput>,
                      written: Option<FrameOutput>, prevImage: seq<bv8>)
    requires |before| == f && |after| == f + 1 && after == before + [after[f]]
    requires forall i :: 0 <= i < |before| ==> |before[i]| == rowBytes * h
    requires forall i :: 0 <= i < |after| ==> |after[i]| == rowBytes * h
    requires SinkSeen(sink, rowBytes, h, before, DeliveredFrames(usePbo, mapOk, if usePbo && f > 0 then f - 1 else f), outputs)
    requires !usePbo ==> written == Some(WriteFrame(sink, f, FlipRows(after[f], rowBytes, h)))
    requires usePbo && f > 0 ==> prevImage == before[f - 1]
    requires usePbo ==> written == (if f == 0 || !mapOk(f) then None
                                    else Some(WriteFrame(sink, f - 1, FlipRows(prevImage, rowBytes, h))))
    ensures SinkSeen(sink, rowBytes, h, after, DeliveredFrames(usePbo, mapOk, if usePbo then f else f + 1),
                     if written.Some? then outputs + [written.value] else outputs)
  {
    if !usePbo {
      CaptureWritesAtOnce(sink, rowBytes, h, before, after, mapOk, f, outputs);
    } else {
      CaptureWritesPrevious(sink, rowBytes, h, before, after, mapOk, f, outputs, written, prevImage);
    }
  }

  lemma CaptureWritesAtOnce(sink: Sink, rowBytes: nat, h: nat, before: seq<seq<bv8>>, after: seq<seq<bv8>>,
                            mapOk: int -> bool, f: nat, outputs: seq<FrameOutput>)
    requires |before| == f && |after| == f + 1 && after == before + [after[f]]
    requires forall i :: 0 <= i < |before| ==> |before[i]| == rowBytes * h
    requires forall i :: 0 <= i < |after| ==> |after[i]| == rowBytes * h
    requires SinkSeen(sink, rowBytes, h, before, DeliveredFrames(false, mapOk, f), outputs)
    ensures SinkSeen(sink, rowBytes, h, after, DeliveredFrames(false, mapOk, f + 1),
                     outputs + [WriteFrame(sink, f, FlipRows(after[f], rowBytes, h))])
  {
    var frames := DeliveredFrames(false, mapOk, f);
    OutputsExtend(sink, rowBytes, h, before, [after[f]], frames);
    OutputsSnoc(sink, rowBytes, h, after, frames, f);
  }

  lemma CaptureWritesPrevious(sink: Sink, rowBytes: nat, h: nat, before: seq<seq<bv8>>, after: seq<seq<bv8>>,
                              mapOk: int -> bool, f: nat, outputs: seq<FrameOutput>,
                              written: Option<FrameOutput>, prevImage: seq<bv8>)
    requires |before| == f && |after| == f + 1 && after == before + [after[f]]
    requires forall i :: 0 <= i < |before| ==> |before[i]| == rowBytes * h
    requires forall i :: 0 <= i < |after| ==> |after[i]| == rowBytes * h
    requires SinkSeen(sink, rowBytes, h, before, DeliveredFrames(true, mapOk, if f > 0 then f - 1 else f), outputs)
    requires f > 0 ==> prevImage == before[f - 1]
    requires written == (if f == 0 || !mapOk(f) then None
                         else Some(WriteFrame(sink, f - 1, FlipRows(prevImage, rowBytes, h))))
    ensures SinkSeen(sink, rowBytes, h, after, DeliveredFrames(true, mapOk, f),
                     if written.Some? then outputs + [written.value] else outputs)
  {
    var frames := DeliveredFrames(true, mapOk, if f > 0 then f - 1 else f);
    OutputsExtend(sink, rowBytes, h, before, [after[f]], frames);
    if f == 0 {
      assert DeliveredFrames(true, mapOk, f) == frames;
    } else if mapOk(f) {
      assert DeliveredFrames(true, mapOk, f) == frames + [f - 1];
      OutputsSnoc(sink, rowBytes, h, after, frames, f - 1);
    } else {
      assert DeliveredFrames(true, mapOk, f) == frames;
    }
  }

  /** The final flush completes the sink's view with the last frame, if its map succeeds. */
  lemma FlushStep(sink: Sink, rowBytes: nat, h: nat, images: seq<seq<bv8>>, mapOk: int -> bool,
                  outputs: seq<FrameOutput>, written: Option<FrameOutput>, lastImage: seq<bv8>)
    requires forall i :: 0 <= i < |images| ==> |images[i]| == rowBytes * h
    requires SinkSeen(sink, rowBytes, h, images, DeliveredFrames(true, mapOk, if |images| > 0 then |images| - 1 else 0), outputs)
    requires |images| > 0 ==> lastImage == images[|images| - 1]
    requires written.Some? <==> |images| > 0 && mapOk(|images|)
    requires written.Some? ==> written.value == WriteFrame(sink, |images| - 1, FlipRows(lastImage, rowBytes, h))
    ensures SinkSeen(sink, rowBytes, h, images, DeliveredFrames(true, mapOk, |images|),
                     if written.Some? then outputs + [written.value] else outputs)
  {
    if |images| == 0 {
      assert DeliveredFrames(true, mapOk, 0) == [];
    } else if mapOk(|images|) {
      var prev := DeliveredFrames(true, mapOk, |images| - 1);
      assert DeliveredFrames(true, mapOk, |images|) == prev + [|images| - 1];
      OutputsSnoc(sink, rowBytes, h, images, prev, |images| - 1);
    } else {
      assert DeliveredFrames(true, mapOk, |images|) == DeliveredFrames(true, mapOk, |images| - 1);
    }
  }

  // ---------------------------------------------------------------------------
  // The push-style entry point
  // ---------------------------------------------------------------------------

  /**
   * Runs a push callback through the engine: without a callback, every frame
   * has no segments; with one, a fresh adapter runs the callback exactly once
   * per frame, frames 0, 1, 2, ... in order, and each frame draws the segments
   * the callback added (thin ones dropped), in the order it added them.
   */
  method RenderSequencePush(settings: RenderSettings, cameraCb: Option<CameraFn>, pushCb: Option<PushFn>,
                            composite: Compositor, pipeOk: bool, mapOk: int -> bool)
    returns (records: seq<FrameRecord>, outputs: seq<FrameOutput>, ghost runs: seq<int>)
    requires forall f, c, p, s :: |composite(f, c, p, s)| == ImageBytes(settings)
    ensures settings.width > 0 && settings.height > 0 ==>
      |records| == FrameCount(settings.frames) &&
      (forall f :: 0 <= f < |records| ==> FrameMatches(settings, cameraCb, composite, f, records[f])) &&
      (forall f :: 0 <= f < |records| ==>
         records[f].segments == (if pushCb.Some? then Kept(AddedLines(pushCb.value(f, records[f].time))) else [])) &&
      outputs == Outputs(SinkOf(settings, pipeOk), settings.width * 4, settings.height, Images(records),
                         DeliveredFrames(settings.usePbo, mapOk, |records|))
    ensures settings.width <= 0 || settings.height <= 0 ==> records == [] && outputs == []
    ensures runs == if pushCb.Some? then Range(|records|) else []
  {
    if pushCb.None? {
      records, outputs := RenderSequence(settings, cameraCb, NoCallback, composite, pipeOk, mapOk);
      runs := [];
      return;
    }
    var adapter := new PushAdapter(pushCb);
    records, outputs := RenderSequence(settings, cameraCb, PushAdapted(adapter), composite, pipeOk, mapOk);
    runs := adapter.runs;
    forall f | 0 <= f < |records|
      ensures records[f].segments == Kept(AddedLines(pushCb.value(f, records[f].time)))
    {
      AdapterKeepsEmissionOrder(pushCb.value, f, records[f].time);
    }
  }
}
