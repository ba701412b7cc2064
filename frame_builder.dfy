// Per-frame segment building: the pull-style line callback, the push-to-pull
// adapter with its one-frame cache, and the builder that pulls segments by
// index 0, 1, 2, ... and keeps the ones with positive thickness.

module FrameBuilder {
  import opened EngineTypes

  /** The upload-ready record of one segment: the fields of LineParams, nothing derived. */
  datatype LineInstance = LineInstance(
    start: Vec3, end: Vec3,
    startColor: Rgb, endColor: Rgb,
    thickness: real, jitter: real, intensity: real)

  /** The builder's field-for-field copy into the GPU record. */
  function ToInstance(lp: LineParams): LineInstance
  {
    LineInstance(lp.start, lp.end, lp.startColor, lp.endColor, lp.thickness, lp.jitter, lp.intensity)
  }

  function FromInstance(s: LineInstance): LineParams
  {
    LineParams(s.start, s.end, s.startColor, s.endColor, s.thickness, s.jitter, s.intensity)
  }

  /** The copy loses nothing: it is a bijection between segments and GPU records. */
  lemma InstanceRoundTrip(lp: LineParams, s: LineInstance)
    ensures FromInstance(ToInstance(lp)) == lp
    ensures ToInstance(FromInstance(s)) == s
  {
  }

  /**
   * The GPU records a frame uploads for the segments served in order: segments
   * with thickness <= 0 are dropped, the rest are copied in order.
   */
  function Kept(lines: seq<LineParams>): (r: seq<LineInstance>)
    ensures |r| <= |lines|
    ensures forall s :: s in r ==> s.thickness > 0.0
  {
    if lines == [] then []
    else
      var last := lines[|lines| - 1];
      Kept(lines[..|lines| - 1]) + (if last.thickness > 0.0 then [ToInstance(last)] else [])
  }

  /** The segments with positive thickness, front to back (independent reference). */
  function ThickOnly(lines: seq<LineParams>): seq<LineParams>
  {
    if lines == [] then []
    else (if lines[0].thickness > 0.0 then [lines[0]] else []) + ThickOnly(lines[1..])
  }

  function MapToInstance(lines: seq<LineParams>): (r: seq<LineInstance>)
    ensures |r| == |lines|
  {
    seq(|lines|, i requires 0 <= i < |lines| => ToInstance(lines[i]))
  }

  lemma {:induction false} KeptConcat(a: seq<LineParams>, b: seq<LineParams>)
    ensures Kept(a + b) == Kept(a) + Kept(b)
    decreases |b|
  {
    if b == [] {
      assert a + b == a;
    } else {
      var b' := b[..|b| - 1];
      assert (a + b)[..|a + b| - 1] == a + b';
      assert (a + b)[|a + b| - 1] == b[|b| - 1];
      KeptConcat(a, b');
    }
  }

  /**
   * Zero-thickness filtering: the uploaded records are exactly the segments of
   * positive thickness, copied in their original order; and removing the thin
   * segments beforehand changes nothing.
   */
  lemma {:induction false} KeptIsThickOnly(lines: seq<LineParams>)
    ensures Kept(lines) == MapToInstance(ThickOnly(lines))
    ensures Kept(ThickOnly(lines)) == Kept(lines)
  {
    if lines != [] {
      var head, rest := [lines[0]], lines[1..];
      var h := if lines[0].thickness > 0.0 then [lines[0]] else [];
      assert lines == head + rest;
      assert ThickOnly(lines) == h + ThickOnly(rest);
      KeptConcat(head, rest);
      KeptConcat(h, ThickOnly(rest));
      KeptIsThickOnly(rest);
      KeptOfOne(lines[0]);
      assert Kept(h) == Kept(head);
      MapConcat(h, ThickOnly(rest));
    }
  }

  lemma KeptSnoc(lines: seq<LineParams>, lp: LineParams)
    ensures Kept(lines + [lp]) == Kept(lines) + (if lp.thickness > 0.0 then [ToInstance(lp)] else [])
  {
    assert (lines + [lp])[..|lines|] == lines;
  }

  lemma KeptOfOne(lp: LineParams)
    ensures Kept([lp]) == MapToInstance(if lp.thickness > 0.0 then [lp] else [])
    ensures Kept([]) == []
  {
    assert [lp][..0] == [];
  }

  lemma MapConcat(a: seq<LineParams>, b: seq<LineParams>)
    ensures MapToInstance(a + b) == MapToInstance(a) + MapToInstance(b)
  {
  }

  // ---------------------------------------------------------------------------
  // Line callbacks
  // ---------------------------------------------------------------------------

  /**
   * A pull-style line callback: (frame, t, segmentIndex) gives the segment, or
   * None once there are no more segments for the frame.
   */
  type PullFn = (int, real, int) -> Option<LineParams>

  /** A push-style callback: the calls it makes on its emit context for (frame, t). */
  type PushFn = (int, real) -> seq<CtxCall>

  /** The context the adapter hands to the push callback: both callbacks set. */
  const AdapterContext: LineEmitContext := LineEmitContext(true, true)

  /** The segments one run of the push callback appends to the adapter's list. */
  function FrameLines(pushCb: Option<PushFn>, frame: int, t: real): seq<LineParams>
  {
    if pushCb.Some? then EmittedLines(Perform(AdapterContext, pushCb.value(frame, t))) else []
  }

  /** The adapter's list for a frame is exactly what the scene passed to `add`, in order. */
  lemma AdapterKeepsEmissionOrder(pushCb: PushFn, frame: int, t: real)
    ensures FrameLines(Some(pushCb), frame, t) == AddedLines(pushCb(frame, t))
  {
    EmitDeliversAdds(AdapterContext, pushCb(frame, t));
  }

  /** A pull of index `index` served from a frame's list. */
  function ServeAt(lines: seq<LineParams>, index: int): (r: Option<LineParams>)
    ensures r.Some? <==> 0 <= index < |lines|
    ensures r.Some? ==> r.value == lines[index]
  {
    if 0 <= index < |lines| then Some(lines[index]) else None
  }

  /**
   * The push-to-pull adapter. It caches the segments of one frame so that the
   * push callback runs once per change of the requested frame index.
   */
  class PushAdapter {
    const pushCb: Option<PushFn>
    var cachedFrame: int
    var cachedTime: real
    var cachedLines: seq<LineParams>
    /** The frame indices for which the push callback ran, in order. */
    ghost var runs: seq<int>

    constructor (pushCb: Option<PushFn>)
      ensures this.pushCb == pushCb
      ensures cachedFrame == -1 && cachedTime == -1.0 && cachedLines == [] && runs == []
    {
      this.pushCb := pushCb;
      cachedFrame := -1;
      cachedTime := -1.0;
      cachedLines := [];
      runs := [];
    }

    /** The list a pull for `frame` will be served from. */
    ghost function Serving(frame: int, t: real): seq<LineParams>
      reads this
    {
      if frame == cachedFrame then cachedLines else FrameLines(pushCb, frame, t)
    }

    /** The pull-style callback the adapter presents to the engine. */
    method Pull(frame: int, t: real, index: int) returns (r: Option<LineParams>)
      modifies this
      ensures cachedLines == old(Serving(frame, t)) && cachedFrame == frame
      ensures frame != old(cachedFrame) ==>
        cachedTime == t && runs == old(runs) + (if pushCb.Some? then [frame] else [])
      ensures frame == old(cachedFrame) ==>
        cachedTime == old(cachedTime) && cachedLines == old(cachedLines) && runs == old(runs)
      ensures r == ServeAt(cachedLines, index)
    {
      if frame != cachedFrame {
        cachedFrame := frame;
        cachedTime := t;
        cachedLines := [];
        if pushCb.Some? {
          // The scene runs once; each `emit` it triggers appends to the list.
          var events := Perform(AdapterContext, pushCb.value(frame, t));
          var i := 0;
          while i < |events|
            invariant 0 <= i <= |events|
            invariant cachedLines == EmittedLines(events[..i])
            invariant cachedFrame == frame && cachedTime == t && runs == old(runs)
          {
            EmittedConcat(events[..i], [events[i]]);
            assert events[..i + 1] == events[..i] + [events[i]];
            if events[i].EmitCalled? {
              cachedLines := cachedLines + [events[i].line];
            }
            i := i + 1;
          }
          assert events[..|events|] == events;
          runs := runs + [frame];
        }
      }
      if index < 0 || index >= |cachedLines| {
        return None;
      }
      r := Some(cachedLines[index]);
    }
  }

  /**
   * The adapter's state while the builder pulls frame `frame`: before the
   * first pull it is untouched; after it, it caches the frame's list `target`.
   */
  ghost predicate AdapterServes(adapter: PushAdapter, frame: int, t: real, target: seq<LineParams>,
                                called: bool, idx: nat, frame0: int, runs0: seq<int>)
    reads adapter
  {
    adapter.Serving(frame, t) == target &&
    (!called ==> idx == 0 && adapter.cachedFrame == frame0 && adapter.runs == runs0) &&
    (called ==> adapter.cachedFrame == frame && adapter.cachedLines == target &&
                adapter.runs == runs0 + (if frame != frame0 && adapter.pushCb.Some? then [frame] else []))
  }

  /** The engine's line callback: absent, a pull function, or the push adapter. */
  datatype LineCallback =
    | NoCallback
    | PullStyle(fn: PullFn)
    | PushAdapted(adapter: PushAdapter)

  /**
   * The pull callback keeps its contract for this frame: at some index it says
   * there are no more segments.
   */
  ghost predicate Ends(cb: LineCallback, frame: int, t: real)
  {
    cb.PullStyle? ==> exists n: nat :: cb.fn(frame, t, n).None?
  }

  /** `served` is what `fn` answers for indices 0, 1, ... up to its first "no more". */
  ghost predicate PulledPrefix(fn: PullFn, frame: int, t: real, served: seq<LineParams>)
  {
    (forall i :: 0 <= i < |served| ==> fn(frame, t, i) == Some(served[i])) &&
    fn(frame, t, |served|).None?
  }

  /**
   * Builds the frame's GPU records: clears the output, then queries indices
   * 0, 1, 2, ... until the callback says "no more", advancing the index for
   * skipped entries too. `served` is the list of segments the callback answered.
   */
  method BuildFrameSegments(cb: LineCallback, frame: int, t: real)
    returns (out: seq<LineInstance>, ghost served: seq<LineParams>)
    requires Ends(cb, frame, t)
    modifies if cb.PushAdapted? then {cb.adapter} else {}
    ensures out == Kept(served)
    ensures cb.NoCallback? ==> served == []
    ensures cb.PullStyle? ==> PulledPrefix(cb.fn, frame, t, served)
    ensures cb.PushAdapted? ==>
      served == old(cb.adapter.Serving(frame, t)) &&
      cb.adapter.cachedFrame == frame && cb.adapter.cachedLines == served &&
      cb.adapter.runs == old(cb.adapter.runs) +
        (if frame != old(cb.adapter.cachedFrame) && cb.adapter.pushCb.Some? then [frame] else [])
  {
    match cb
    case NoCallback =>
      out, served := [], [];
    case PullStyle(fn) =>
      out, served := BuildFromPull(fn, frame, t);
    case PushAdapted(adapter) =>
      out, served := BuildFromAdapter(adapter, frame, t);
  }

  /** The builder loop over a pull function, up to its first "no more". */
  method BuildFromPull(fn: PullFn, frame: int, t: real)
    returns (out: seq<LineInstance>, served: seq<LineParams>)
    requires exists n: nat :: fn(frame, t, n).None?
    ensures out == Kept(served)
    ensures PulledPrefix(fn, frame, t, served)
  {
    out, served := [], [];
    ghost var bound: nat :| fn(frame, t, bound).None?;
    var idx := 0;
    while true
      invariant 0 <= idx <= bound && idx == |served|
      invariant out == Kept(served)
      invariant forall i :: 0 <= i < idx ==> fn(frame, t, i) == Some(served[i])
      decreases bound - idx
    {
      var r := fn(frame, t, idx);
      if r.None? {
        break;
      }
      idx := idx + 1;
      KeptSnoc(served, r.value);
      served := served + [r.value];
      if r.value.thickness <= 0.0 {
        continue;  // thin segments are skipped; the index has already advanced
      }
      out := out + [ToInstance(r.value)];
    }
  }

  /** The builder loop over the push adapter: pulls until its cached list runs out. */
  method BuildFromAdapter(adapter: PushAdapter, frame: int, t: real)
    returns (out: seq<LineInstance>, ghost served: seq<LineParams>)
    modifies adapter
    ensures out == Kept(served)
    ensures served == old(adapter.Serving(frame, t)) &&
      adapter.cachedFrame == frame && adapter.cachedLines == served &&
      adapter.runs == old(adapter.runs) +
        (if frame != old(adapter.cachedFrame) && adapter.pushCb.Some? then [frame] else [])
  {
    out, served := [], [];
    ghost var target := adapter.Serving(frame, t);
    ghost var called := false;
    var idx := 0;
    while true
      invariant 0 <= idx <= |target| && idx == |served|
      invariant out == Kept(served)
      invariant served == target[..idx]
      invariant AdapterServes(adapter, frame, t, target, called, idx, old(adapter.cachedFrame), old(adapter.runs))
      decreases |target| - idx
    {
      var r := PullServed(adapter, frame, t, idx, target, called, old(adapter.cachedFrame), old(adapter.runs));
      called := true;
      if r.None? {
        break;
      }
      idx := idx + 1;
      KeptSnoc(served, r.value);
      served := served + [r.value];
      if r.value.thickness <= 0.0 {
        continue;  // thin segments are skipped; the index has already advanced
      }
      out := out + [ToInstance(r.value)];
    }
    assert served == target;
  }

  /** One pull of the builder loop: served from `target`, and the adapter then caches it. */
  method PullServed(adapter: PushAdapter, frame: int, t: real, idx: nat, ghost target: seq<LineParams>,
                    ghost called: bool, ghost frame0: int, ghost runs0: seq<int>)
    returns (r: Option<LineParams>)
    requires AdapterServes(adapter, frame, t, target, called, idx, frame0, runs0)
    modifies adapter
    ensures AdapterServes(adapter, frame, t, target, true, idx, frame0, runs0)
    ensures r == ServeAt(target, idx)
  {
    r := adapter.Pull(frame, t, idx);
  }
}
