// The wandering-tube example: a fixed-capacity ring of path points that is
// initialised once, shifted left by one slot per new frame index, and drawn
// as a floor grid followed by rings, longitudinal bands and a core line.
// Positions of the grid and tube lines are float geometry and are not
// modelled; each emitted line is identified by its layer and loop indices.

module TubePath {
  import opened EngineTypes

  /** `TUBE_MAX_POINTS`: the capacity of the point and direction arrays. */
  const TubeMaxPoints: nat := 260

  /** The tube needs at least this many points after initialisation. */
  const TubeMinPoints: nat := 4

  /** The twist added to the rings on each advance. */
  const TwistStep: real := 0.04

  function Add(a: Vec3, b: Vec3): Vec3
  {
    Vec3(a.x + b.x, a.y + b.y, a.z + b.z)
  }

  function Scale(a: Vec3, k: real): Vec3
  {
    Vec3(a.x * k, a.y * k, a.z * k)
  }

  /** The +Z direction every point starts with. */
  const PlusZ: Vec3 := Vec3(0.0, 0.0, 1.0)

  /** The point count `init_tube_path` settles on: `tube_count` clamped into [4, 260]. */
  function ClampCount(count: int): (r: int)
    ensures TubeMinPoints <= r <= TubeMaxPoints
    ensures TubeMinPoints <= count <= TubeMaxPoints ==> r == count
    ensures count > TubeMaxPoints ==> r == TubeMaxPoints
    ensures count < TubeMinPoints ==> r == TubeMinPoints
  {
    var c := if count > TubeMaxPoints then TubeMaxPoints else count;
    if c < TubeMinPoints then TubeMinPoints else c
  }

  /** Slot z of the straight starting line: centred on the origin, `len` apart. */
  function StartZ(len: real, count: int, i: int): real
  {
    -(len * count as real * 0.5) + i as real * len
  }

  // ---------------------------------------------------------------------------
  // The ring buffer of path points
  // ---------------------------------------------------------------------------

  /**
   * One advance of the first `count` slots: every slot takes the value of
   * the next one, the last slot receives `x`, and slots from `count` on keep
   * their values.
   */
  function ShiftIn<T>(s: seq<T>, count: nat, x: T): (r: seq<T>)
    requires 1 <= count <= |s|
    ensures |r| == |s|
    ensures forall j :: 0 <= j < count - 1 ==> r[j] == s[j + 1]
    ensures r[count - 1] == x
    ensures forall j :: count <= j < |s| ==> r[j] == s[j]
  {
    s[1..count] + [x] + s[count..]
  }

  /** `xs` shifted in one after another, oldest first. */
  function ShiftAll<T>(s: seq<T>, count: nat, xs: seq<T>): (r: seq<T>)
    requires 1 <= count <= |s|
    ensures |r| == |s|
    decreases |xs|
  {
    if xs == [] then s
    else ShiftIn(ShiftAll(s, count, xs[..|xs| - 1]), count, xs[|xs| - 1])
  }

  /**
   * The path is a sliding window: after m advances, slot k < count holds the
   * head that was added m - count + k advances ago, or, while fewer than
   * count - k heads have been added, the starting value that has moved down
   * into it. Slots from `count` on are never touched.
   */
  lemma {:induction false} ShiftAllWindow<T>(s: seq<T>, count: nat, xs: seq<T>)
    requires 1 <= count <= |s|
    ensures ShiftAll(s, count, xs)[count..] == s[count..]
    ensures forall k :: 0 <= k < count ==>
              ShiftAll(s, count, xs)[k] ==
                (if k + |xs| >= count then xs[k + |xs| - count] else s[k + |xs|])
    decreases |xs|
  {
    if xs != [] {
      var m := |xs|;
      var prev := xs[..m - 1];
      var p := ShiftAll(s, count, prev);
      ShiftAllWindow(s, count, prev);
      var r := ShiftAll(s, count, xs);
      assert r == ShiftIn(p, count, xs[m - 1]);
      assert r[count..] == p[count..];
      forall k | 0 <= k < count
        ensures r[k] == (if k + m >= count then xs[k + m - count] else s[k + m])
      {
        if k < count - 1 {
          assert r[k] == p[k + 1];
          if k + m >= count {
            assert prev[k + 1 + (m - 1) - count] == xs[k + m - count];
          }
        } else {
          assert r[k] == xs[m - 1];
        }
      }
    }
  }

  /** After `count` advances or more, the window holds exactly the newest heads. */
  lemma WindowHoldsNewestHeads<T>(s: seq<T>, count: nat, xs: seq<T>)
    requires 1 <= count <= |s| && |xs| >= count
    ensures ShiftAll(s, count, xs)[..count] == xs[|xs| - count..]
  {
    ShiftAllWindow(s, count, xs);
  }

  // ---------------------------------------------------------------------------
  // The scene state
  // ---------------------------------------------------------------------------

  /** The tube part of `SceneParams`; the camera fields are not modelled. */
  class SceneParams {
    var tubeInitialized: bool
    var lastFrameIndex: int
    var tubeCount: int
    var tubeSegmentLength: real
    var tubeTwist: real
    var tubeRingSegments: int
    const tubePoints: array<Vec3>
    const tubeDirs: array<Vec3>

    /** Both arrays have the full capacity; an initialised tube has a clamped count. */
    predicate Valid()
      reads this
    {
      tubePoints.Length == TubeMaxPoints && tubeDirs.Length == TubeMaxPoints &&
      tubePoints != tubeDirs &&
      (tubeInitialized ==> TubeMinPoints <= tubeCount <= TubeMaxPoints)
    }

    /** The in-class defaults: 200 points 4 apart, 24 ring segments, not initialised. */
    constructor ()
      ensures Valid() && fresh(tubePoints) && fresh(tubeDirs)
      ensures !tubeInitialized && lastFrameIndex == -1
      ensures tubeCount == 200 && tubeSegmentLength == 4.0
      ensures tubeTwist == 0.0 && tubeRingSegments == 24
    {
      tubeInitialized := false;
      lastFrameIndex := -1;
      tubeCount := 200;
      tubeSegmentLength := 4.0;
      tubeTwist := 0.0;
      tubeRingSegments := 24;
      tubePoints := new Vec3[TubeMaxPoints](_ => Vec3(0.0, 0.0, 0.0));
      tubeDirs := new Vec3[TubeMaxPoints](_ => Vec3(0.0, 0.0, 0.0));
    }
  }

  /**
   * `init_tube_path`: nothing when already initialised. Otherwise the count
   * is clamped and the first `count` slots are laid out as a straight line
   * along +Z centred on the origin, all heading +Z; the frame guard is reset.
   */
  method InitTubePath(scene: SceneParams)
    requires scene.Valid()
    modifies scene, scene.tubePoints, scene.tubeDirs
    ensures scene.Valid()
    ensures old(scene.tubeInitialized) ==>
              unchanged(scene, scene.tubePoints, scene.tubeDirs)
    ensures !old(scene.tubeInitialized) ==>
              scene.tubeInitialized && scene.lastFrameIndex == -1 &&
              scene.tubeCount == ClampCount(old(scene.tubeCount)) &&
              scene.tubeSegmentLength == old(scene.tubeSegmentLength) &&
              scene.tubeTwist == old(scene.tubeTwist) &&
              scene.tubeRingSegments == old(scene.tubeRingSegments) &&
              (forall i :: 0 <= i < scene.tubeCount ==>
                 scene.tubeDirs[i] == PlusZ &&
                 scene.tubePoints[i] == Vec3(0.0, 0.0, StartZ(scene.tubeSegmentLength, scene.tubeCount, i))) &&
              (forall i :: scene.tubeCount <= i < TubeMaxPoints ==>
                 scene.tubeDirs[i] == old(scene.tubeDirs[i]) &&
                 scene.tubePoints[i] == old(scene.tubePoints[i]))
  {
    if scene.tubeInitialized {
      return;
    }
    if scene.tubeCount > TubeMaxPoints {
      scene.tubeCount := TubeMaxPoints;
    }
    if scene.tubeCount < TubeMinPoints {
      scene.tubeCount := TubeMinPoints;
    }
    var len := scene.tubeSegmentLength;
    var pos := Vec3(0.0, 0.0, -(len * scene.tubeCount as real * 0.5));
    var dir := PlusZ;
    var i := 0;
    label Layout:
    while i < scene.tubeCount
      invariant unchanged@Layout(scene)
      invariant 0 <= i <= scene.tubeCount
      invariant pos == Vec3(0.0, 0.0, StartZ(len, scene.tubeCount, i))
      invariant forall k :: 0 <= k < i ==>
                  scene.tubeDirs[k] == PlusZ &&
                  scene.tubePoints[k] == Vec3(0.0, 0.0, StartZ(len, scene.tubeCount, k))
      invariant forall k :: i <= k < TubeMaxPoints ==>
                  scene.tubeDirs[k] == old(scene.tubeDirs[k]) &&
                  scene.tubePoints[k] == old(scene.tubePoints[k])
    {
      scene.tubePoints[i] := pos;
      scene.tubeDirs[i] := dir;
      pos := Add(pos, Scale(dir, len));
      i := i + 1;
    }
    scene.tubeInitialized := true;
    scene.lastFrameIndex := -1;
  }

  /**
   * `advance_tube_path`: nothing when the tube is not initialised or this
   * frame index was already handled. Otherwise the frame index is recorded,
   * points and directions shift down one slot, and the head slot receives
   * the new direction and the point one segment length along it from the old
   * head. The steering that picks `newDir` (random wander and the soft
   * boundary, all float math) is a parameter.
   */
  method AdvanceTubePath(scene: SceneParams, frame: int, newDir: Vec3)
    requires scene.Valid()
    modifies scene, scene.tubePoints, scene.tubeDirs
    ensures scene.Valid()
    ensures !old(scene.tubeInitialized) || old(scene.lastFrameIndex) == frame ==>
              unchanged(scene, scene.tubePoints, scene.tubeDirs)
    ensures old(scene.tubeInitialized) && old(scene.lastFrameIndex) != frame ==>
              scene.tubeInitialized && scene.lastFrameIndex == frame &&
              scene.tubeCount == old(scene.tubeCount) &&
              scene.tubeSegmentLength == old(scene.tubeSegmentLength) &&
              scene.tubeRingSegments == old(scene.tubeRingSegments) &&
              scene.tubeTwist == old(scene.tubeTwist) + TwistStep &&
              scene.tubeDirs[..] == ShiftIn(old(scene.tubeDirs[..]), scene.tubeCount, newDir) &&
              scene.tubePoints[..] ==
                ShiftIn(old(scene.tubePoints[..]), scene.tubeCount,
                        Add(old(scene.tubePoints[scene.tubeCount - 1]), Scale(newDir, scene.tubeSegmentLength)))
  {
    if !scene.tubeInitialized {
      return;
    }
    if scene.lastFrameIndex == frame {
      return;
    }
    scene.lastFrameIndex := frame;
    var count := scene.tubeCount;
    var head := Add(scene.tubePoints[count - 1], Scale(newDir, scene.tubeSegmentLength));
    ShiftInPlace(scene.tubePoints, count, head);
    ShiftInPlace(scene.tubeDirs, count, newDir);
    scene.tubeTwist := scene.tubeTwist + TwistStep;
  }

  /**
   * The shift loop of `advance_tube_path` on one array: slots 1 .. count - 1
   * move down one place and `x` lands in slot count - 1.
   */
  method ShiftInPlace(a: array<Vec3>, count: nat, x: Vec3)
    requires 1 <= count <= a.Length
    modifies a
    ensures a[..] == ShiftIn(old(a[..]), count, x)
  {
    var i := 0;
    while i < count - 1
      invariant 0 <= i <= count - 1
      invariant forall k :: 0 <= k < i ==> a[k] == old(a[k + 1])
      invariant forall k :: i <= k < a.Length ==> a[k] == old(a[k])
    {
      a[i] := a[i + 1];
      i := i + 1;
    }
    a[count - 1] := x;
    ShiftInPointwise(old(a[..]), a[..], count, x);
  }

  /** A sequence that agrees with `ShiftIn(s, count, x)` slot by slot is it. */
  lemma ShiftInPointwise<T>(s: seq<T>, t: seq<T>, count: nat, x: T)
    requires 1 <= count <= |s| && |t| == |s|
    requires forall k :: 0 <= k < count - 1 ==> t[k] == s[k + 1]
    requires t[count - 1] == x
    requires forall k :: count <= k < |s| ==> t[k] == s[k]
    ensures t == ShiftIn(s, count, x)
  {
    var r := ShiftIn(s, count, x);
    forall k | 0 <= k < |s|
      ensures t[k] == r[k]
    {
      if k < count - 1 {
        assert r[k] == s[1..count][k];
      } else if k >= count {
        assert r[k] == s[count..][k - count];
      }
    }
  }

  // ---------------------------------------------------------------------------
  // The line layout of `line_push_callback`
  // ---------------------------------------------------------------------------

  /** One emitted line, named by its layer and loop indices. */
  datatype TubeLine =
    | GridAlongX(row: int)       // floor line parallel to X at z = i * step
    | GridAlongZ(row: int)       // floor line parallel to Z at x = i * step
    | AxisX | AxisZ | AxisUp    // the three highlighted axes
    | Ring(i: nat, j: nat)      // ring segment j around point i
    | Band(i: nat, j: nat)      // longitudinal band from point i to i + 1 at ring slot j
    | Core(i: nat)              // core line from point i to i + 1

  /** What the callback does to its context, in order. */
  datatype Emit = Line(line: TubeLine) | Flush

  /** `(int)(halfSize / step)` with halfSize 320 and step 32. */
  const GridLinesEach: nat := 10

  predicate AllLines(t: seq<Emit>)
  {
    forall k :: 0 <= k < |t| ==> t[k].Line?
  }

  /** The grid rows for i = lo .. lo + n - 1, two lines each. */
  function GridRows(lo: int, n: nat): seq<Emit>
  {
    if n == 0 then []
    else GridRows(lo, n - 1) + [Line(GridAlongX(lo + n - 1)), Line(GridAlongZ(lo + n - 1))]
  }

  /** The floor layer: rows -linesEach .. linesEach, then the three axes. */
  function GridLayer(linesEach: nat): seq<Emit>
  {
    GridRows(-(linesEach as int), 2 * linesEach + 1) + [Line(AxisX), Line(AxisZ), Line(AxisUp)]
  }

  /** Ring slots 0 .. n - 1 of point i: a ring segment, then a band unless i is last. */
  function RingSlots(i: nat, pointCount: nat, n: nat): seq<Emit>
  {
    if n == 0 then []
    else RingSlots(i, pointCount, n - 1) + [Line(Ring(i, n - 1))] +
         (if i < pointCount - 1 then [Line(Band(i, n - 1))] else [])
  }

  /** The rings of points 0 .. n - 1. */
  function Rings(pointCount: nat, ringSegments: nat, n: nat): seq<Emit>
  {
    if n == 0 then []
    else Rings(pointCount, ringSegments, n - 1) + RingSlots(n - 1, pointCount, ringSegments)
  }

  /** The core lines 0 .. n - 1. */
  function CoreLines(n: nat): seq<Emit>
  {
    if n == 0 then [] else CoreLines(n - 1) + [Line(Core(n - 1))]
  }

  /** The tube layer and its flush; nothing at all with fewer than two points. */
  function TubeLayer(pointCount: int, ringSegments: nat): seq<Emit>
  {
    if pointCount < 2 then []
    else Rings(pointCount, ringSegments, pointCount) + CoreLines(pointCount - 1) + [Flush]
  }

  /** The grid loop and the axes of `line_push_callback`. */
  method EmitGrid(linesEach: nat) returns (trace: seq<Emit>)
    ensures trace == GridLayer(linesEach)
  {
    trace := [];
    var i := -(linesEach as int);
    while i <= linesEach
      invariant -(linesEach as int) <= i <= linesEach + 1
      invariant trace == GridRows(-(linesEach as int), i + linesEach)
    {
      trace := trace + [Line(GridAlongX(i)), Line(GridAlongZ(i))];
      i := i + 1;
    }
    trace := trace + [Line(AxisX), Line(AxisZ), Line(AxisUp)];
  }

  /** The ring/band loops and the core loop, then the flush. */
  method EmitTube(pointCount: int, ringSegments: nat) returns (trace: seq<Emit>)
    ensures trace == TubeLayer(pointCount, ringSegments)
  {
    if pointCount < 2 {
      return [];
    }
    trace := [];
    var i := 0;
    while i < pointCount
      invariant 0 <= i <= pointCount
      invariant trace == Rings(pointCount, ringSegments, i)
    {
      var slots := EmitRing(i, pointCount, ringSegments);
      trace := trace + slots;
      i := i + 1;
    }
    var core := EmitCore(pointCount - 1);
    trace := trace + core + [Flush];
  }

  /** The inner loop for point i: each ring segment, and its band unless i is last. */
  method EmitRing(i: nat, pointCount: nat, ringSegments: nat) returns (slots: seq<Emit>)
    ensures slots == RingSlots(i, pointCount, ringSegments)
  {
    slots := [];
    var j := 0;
    while j < ringSegments
      invariant 0 <= j <= ringSegments
      invariant slots == RingSlots(i, pointCount, j)
    {
      slots := slots + [Line(Ring(i, j))];
      if i < pointCount - 1 {
        slots := slots + [Line(Band(i, j))];
      }
      j := j + 1;
    }
  }

  /** The core loop: one line from each point to the next. */
  method EmitCore(n: nat) returns (core: seq<Emit>)
    ensures core == CoreLines(n)
  {
    core := [];
    var c := 0;
    while c < n
      invariant 0 <= c <= n
      invariant core == CoreLines(c)
    {
      core := core + [Line(Core(c))];
      c := c + 1;
    }
  }

  /**
   * The two state updates of `line_push_callback`: initialise on first use,
   * then advance for this frame. The count is clamped once at initialisation
   * and the ring segment setting is never changed.
   */
  method UpdateTube(scene: SceneParams, frame: int, newDir: Vec3)
    requires scene.Valid()
    modifies scene, scene.tubePoints, scene.tubeDirs
    ensures scene.Valid() && scene.tubeInitialized
    ensures scene.tubeRingSegments == old(scene.tubeRingSegments)
    ensures scene.tubeCount == if old(scene.tubeInitialized) then old(scene.tubeCount) else ClampCount(old(scene.tubeCount))
  {
    InitTubePath(scene);
    AdvanceTubePath(scene, frame, newDir);
  }

  /**
   * `line_push_callback`: no scene, no output. Otherwise the grid layer and
   * a flush, then the tube is initialised and advanced for this frame and
   * its layer is emitted with at least three ring segments.
   */
  method LinePushCallback(scene: SceneParams?, frame: int, newDir: Vec3) returns (trace: seq<Emit>)
    requires scene != null ==> scene.Valid()
    modifies if scene != null then {scene, scene.tubePoints, scene.tubeDirs} else {}
    ensures scene == null ==> trace == []
    ensures scene != null ==>
              scene.Valid() && scene.tubeInitialized &&
              trace == GridLayer(GridLinesEach) + [Flush] +
                       TubeLayer(scene.tubeCount, if scene.tubeRingSegments < 3 then 3 else scene.tubeRingSegments)
  {
    if scene == null {
      return [];
    }
    var grid := EmitGrid(GridLinesEach);
    trace := grid + [Flush];
    UpdateTube(scene, frame, newDir);
    var pointCount := scene.tubeCount;
    var ringSegments := scene.tubeRingSegments;
    if ringSegments < 3 {
      ringSegments := 3;
    }
    var tube := EmitTube(pointCount, ringSegments);
    trace := trace + tube;
  }

  // ---------------------------------------------------------------------------
  // Line counts
  // ---------------------------------------------------------------------------

  lemma {:induction false} GridRowsShape(lo: int, n: nat)
    ensures |GridRows(lo, n)| == 2 * n && AllLines(GridRows(lo, n))
  {
    if n > 0 {
      GridRowsShape(lo, n - 1);
    }
  }

  /** The floor layer is 2 * (2 * linesEach + 1) + 3 lines and no flush. */
  lemma GridLayerCount(linesEach: nat)
    ensures |GridLayer(linesEach)| == 2 * (2 * linesEach + 1) + 3
    ensures AllLines(GridLayer(linesEach))
  {
    GridRowsShape(-(linesEach as int), 2 * linesEach + 1);
  }

  lemma {:induction false} RingSlotsShape(i: nat, pointCount: nat, n: nat)
    ensures |RingSlots(i, pointCount, n)| == n * (if i < pointCount - 1 then 2 else 1)
    ensures AllLines(RingSlots(i, pointCount, n))
  {
    if n > 0 {
      RingSlotsShape(i, pointCount, n - 1);
    }
  }

  lemma {:induction false} RingsShape(pointCount: nat, ringSegments: nat, n: nat)
    requires 1 <= n <= pointCount
    ensures |Rings(pointCount, ringSegments, n)| ==
              n * ringSegments + (if n < pointCount then n else pointCount - 1) * ringSegments
    ensures AllLines(Rings(pointCount, ringSegments, n))
  {
    var R := ringSegments;
    RingSlotsShape(n - 1, pointCount, R);
    if n == 1 {
      assert Rings(pointCount, R, 1) == RingSlots(0, pointCount, R);
    } else {
      RingsShape(pointCount, R, n - 1);
      var prev := Rings(pointCount, R, n - 1);
      assert |prev| == (n - 1) * R + (n - 1) * R;
      if n < pointCount {
        assert |RingSlots(n - 1, pointCount, R)| == 2 * R;
        calc {
          (n - 1) * R + (n - 1) * R + 2 * R;
          n * R + n * R;
        }
      } else {
        assert |RingSlots(n - 1, pointCount, R)| == R;
        calc {
          (n - 1) * R + (n - 1) * R + R;
          n * R + (n - 1) * R;
        }
      }
    }
  }

  lemma {:induction false} CoreLinesShape(n: nat)
    ensures |CoreLines(n)| == n && AllLines(CoreLines(n))
  {
    if n > 0 {
      CoreLinesShape(n - 1);
    }
  }

  /**
   * With two points or more the tube layer is count * R ring segments,
   * (count - 1) * R bands and count - 1 core lines, then one flush.
   */
  lemma TubeLayerCount(pointCount: int, ringSegments: nat)
    requires pointCount >= 2
    ensures var t := TubeLayer(pointCount, ringSegments);
            |t| == pointCount * ringSegments + (pointCount - 1) * ringSegments + (pointCount - 1) + 1 &&
            t[|t| - 1] == Flush && AllLines(t[..|t| - 1])
  {
    RingsShape(pointCount, ringSegments, pointCount);
    CoreLinesShape(pointCount - 1);
    var body := Rings(pointCount, ringSegments, pointCount) + CoreLines(pointCount - 1);
    var t := TubeLayer(pointCount, ringSegments);
    assert t == body + [Flush];
    assert t[..|t| - 1] == body;
  }

  /** A band is emitted only from a point that has a successor. */
  lemma {:induction false} BandsOnlyBeforeLast(pointCount: nat, ringSegments: nat, n: nat, i: nat, j: nat)
    ensures Line(Band(i, j)) in Rings(pointCount, ringSegments, n) ==>
              i < n && i < pointCount - 1 && j < ringSegments
    decreases n
  {
    if n > 0 && Line(Band(i, j)) in Rings(pointCount, ringSegments, n) {
      if Line(Band(i, j)) in Rings(pointCount, ringSegments, n - 1) {
        BandsOnlyBeforeLast(pointCount, ringSegments, n - 1, i, j);
      } else {
        BandInLastRing(pointCount, ringSegments, n, i, j);
      }
    }
  }

  /** A band that the last ring added belongs to point n - 1. */
  lemma BandInLastRing(pointCount: nat, ringSegments: nat, n: nat, i: nat, j: nat)
    requires n > 0 && Line(Band(i, j)) in Rings(pointCount, ringSegments, n)
    requires Line(Band(i, j)) !in Rings(pointCount, ringSegments, n - 1)
    ensures i == n - 1 && i < pointCount - 1 && j < ringSegments
  {
    var prev := Rings(pointCount, ringSegments, n - 1);
    var slots := RingSlots(n - 1, pointCount, ringSegments);
    assert Rings(pointCount, ringSegments, n) == prev + slots;
    assert Line(Band(i, j)) in slots;
    BandInSlots(n - 1, pointCount, ringSegments, i, j);
  }

  lemma {:induction false} BandInSlots(p: nat, pointCount: nat, n: nat, i: nat, j: nat)
    requires Line(Band(i, j)) in RingSlots(p, pointCount, n)
    ensures i == p && p < pointCount - 1 && j < n
    decreases n
  {
    if n > 0 {
      var prev := RingSlots(p, pointCount, n - 1);
      var tail := [Line(Ring(p, n - 1))] + (if p < pointCount - 1 then [Line(Band(p, n - 1))] else []);
      assert RingSlots(p, pointCount, n) == prev + tail;
      if Line(Band(i, j)) in prev {
        BandInSlots(p, pointCount, n - 1, i, j);
      } else {
        assert Line(Band(i, j)) in tail;
      }
    }
  }

  /**
   * Once initialised, the tube always has at least four points, so every
   * frame of the callback emits both layers: 45 grid lines, a flush, the
   * tube lines and a second flush.
   */
  lemma CallbackEmitsBothLayers(pointCount: int, ringSegments: nat)
    requires TubeMinPoints <= pointCount <= TubeMaxPoints && ringSegments >= 3
    ensures |GridLayer(GridLinesEach)| == 45
    ensures var t := GridLayer(GridLinesEach) + [Flush] + TubeLayer(pointCount, ringSegments);
            |t| == 45 + 1 + pointCount * ringSegments + (pointCount - 1) * ringSegments + (pointCount - 1) + 1 &&
            t[45] == Flush && t[|t| - 1] == Flush
  {
    GridLayerCount(GridLinesEach);
    TubeLayerCount(pointCount, ringSegments);
  }
}
