// The accumulation draw scheduler and the per-instance jitter seed of the
// scene vertex shader. GL calls are modelled as a list of events: an upload of
// a range of the frame's segments into the instance buffer, and an instanced
// draw of one pass with a segment offset.

module DrawSchedule {
  import opened EngineTypes

  // ---------------------------------------------------------------------------
  // The 32-bit seed arithmetic of the scene vertex shader
  // ---------------------------------------------------------------------------

  const TwoTo32: int := 0x1_0000_0000

  /** The residue of `x` modulo 2^32: the bits a 32-bit int or uint holds, read unsigned. */
  function Wrap32(x: int): (r: int)
    ensures 0 <= r < TwoTo32
    ensures (x - r) % TwoTo32 == 0
  {
    x % TwoTo32
  }

  /** Reinterprets an integer as an unsigned 32-bit value (two's complement wrap). */
  function U32(x: int): bv32
  {
    Wrap32(x) as bv32
  }

  /** `uSegmentOffset + gl_InstanceID`: the shader's 32-bit int addition, which wraps. */
  function SegIndex(segmentOffset: int, instanceId: int): int
  {
    Wrap32(Wrap32(segmentOffset) + Wrap32(instanceId))
  }

  /**
   * The shader's seed for instance `instanceId` of a draw whose segment offset
   * uniform is `segmentOffset`: uint(segIndex) ^ pass * 2654435761
   * ^ frame * 2246822519, all in unsigned 32-bit arithmetic.
   */
  function ShaderSeed(segmentOffset: int, instanceId: int, pass: int, frame: int): bv32
  {
    MixSeed(SegIndex(segmentOffset, instanceId), pass, frame)
  }

  /** The mixing step after the segment index has been formed. */
  function MixSeed(index: int, pass: int, frame: int): bv32
  {
    U32(index) ^ (U32(pass) * 2654435761) ^ (U32(frame) * 2246822519)
  }

  /** The seed of global segment `g` in pass `pass` of frame `frame`. */
  function GlobalSeed(g: int, pass: int, frame: int): bv32
  {
    MixSeed(g, pass, frame)
  }

  // ---------------------------------------------------------------------------
  // Instance-buffer capacity and the draw schedule
  // ---------------------------------------------------------------------------

  const FallbackCapacity: nat := 1024 * 1024

  /** The instance buffer's capacity in segments: the hint when positive, else 1024 * 1024. */
  function Capacity(hint: int): (c: nat)
    ensures c > 0
    ensures hint > 0 ==> c == hint
    ensures hint <= 0 ==> c == FallbackCapacity
  {
    if hint <= 0 then FallbackCapacity else hint
  }

  datatype GlCall =
    | Upload(srcOffset: nat, count: nat)          // segments [srcOffset, srcOffset+count) into the buffer
    | Draw(pass: int, segmentOffset: nat, instances: nat)  // one instanced draw of the buffer

  function Min(a: nat, b: nat): nat { if a <= b then a else b }

  /** One streamed pass: capacity-sized chunks from `offset` to the end, each uploaded then drawn. */
  function PassChunks(pass: int, total: nat, cap: nat, offset: nat): seq<GlCall>
    requires cap > 0
    decreases total - offset
  {
    if offset >= total then []
    else
      var c := Min(cap, total - offset);
      [Upload(offset, c), Draw(pass, offset, c)] + PassChunks(pass, total, cap, offset + c)
  }

  /** The streamed schedule for passes 0 .. n-1. */
  function Streamed(total: nat, cap: nat, n: nat): seq<GlCall>
    requires cap > 0
  {
    if n == 0 then [] else Streamed(total, cap, n - 1) + PassChunks(n - 1, total, cap, 0)
  }

  /** The single-upload schedule's draws for passes 0 .. n-1. */
  function Resident(total: nat, n: nat): seq<GlCall>
  {
    if n == 0 then [] else Resident(total, n - 1) + [Draw(n - 1, 0, total)]
  }

  function PassCount(passes: int): nat { if passes < 0 then 0 else passes }

  /** The GL calls of one frame's accumulation, by the scheduling rule. */
  function Schedule(total: nat, cap: nat, passes: int): seq<GlCall>
    requires cap > 0
  {
    if total == 0 then []
    else if total <= cap then [Upload(0, total)] + Resident(total, PassCount(passes))
    else Streamed(total, cap, PassCount(passes))
  }

  /**
   * The scheduling part of accumulating one frame: nothing for no segments;
   * one upload then `passes` full draws when the segments fit; otherwise, per
   * pass, capacity-sized chunks uploaded and drawn in order.
   */
  method AccumulateScene(total: nat, capacity: nat, passes: int) returns (calls: seq<GlCall>)
    requires capacity > 0
    ensures calls == Schedule(total, capacity, passes)
  {
    calls := [];
    if total == 0 {
      return;
    }
    if total <= capacity {
      calls := [Upload(0, total)];
      var pass := 0;
      while pass < passes
        invariant 0 <= pass <= PassCount(passes)
        invariant calls == [Upload(0, total)] + Resident(total, pass)
      {
        calls := calls + [Draw(pass, 0, total)];
        pass := pass + 1;
      }
    } else {
      var pass := 0;
      while pass < passes
        invariant 0 <= pass <= PassCount(passes)
        invariant calls == Streamed(total, capacity, pass)
      {
        var offset: nat := 0;
        while offset < total
          invariant offset <= total
          invariant calls + PassChunks(pass, total, capacity, offset) == Streamed(total, capacity, pass + 1)
          decreases total - offset
        {
          var chunk := capacity;
          if chunk > total - offset {
            chunk := total - offset;
          }
          assert PassChunks(pass, total, capacity, offset)
              == [Upload(offset, chunk), Draw(pass, offset, chunk)] + PassChunks(pass, total, capacity, offset + chunk);
          calls := calls + [Upload(offset, chunk), Draw(pass, offset, chunk)];
          offset := offset + chunk;
        }
        pass := pass + 1;
      }
    }
  }

  // ---------------------------------------------------------------------------
  // What the schedule draws
  // ---------------------------------------------------------------------------

  /** One drawn ribbon: its pass and its global segment index (offset + instance). */
  datatype Instance = Instance(pass: int, global: int)

  /** The instances one GL call draws: none for an upload. */
  function CallInstances(c: GlCall): seq<Instance>
  {
    match c
    case Upload(_, _) => []
    case Draw(p, o, n) => seq(n, i requires 0 <= i < n => Instance(p, o + i))
  }

  /** The seeds the shader computes for the instances of one GL call. */
  function CallSeeds(c: GlCall, frame: int): seq<bv32>
  {
    match c
    case Upload(_, _) => []
    case Draw(p, o, n) => seq(n, i requires 0 <= i < n => ShaderSeed(o, i, p, frame))
  }

  /** The instances the draw calls produce, in order. */
  function DrawnInstances(calls: seq<GlCall>): seq<Instance>
  {
    if calls == [] then [] else CallInstances(calls[0]) + DrawnInstances(calls[1..])
  }

  /** The seeds the shader computes for the instances of the draw calls, in order. */
  function DrawnSeeds(calls: seq<GlCall>, frame: int): seq<bv32>
  {
    if calls == [] then [] else CallSeeds(calls[0], frame) + DrawnSeeds(calls[1..], frame)
  }

  /** The instances of one pass over [0, total), in index order. */
  function PassInstances(pass: int, total: nat): seq<Instance>
  {
    seq(total, g requires 0 <= g < total => Instance(pass, g))
  }

  /** Every segment index of [0, total) in every pass 0 .. n-1, pass by pass, in index order. */
  function AllInstances(total: nat, n: nat): seq<Instance>
  {
    if n == 0 then [] else AllInstances(total, n - 1) + PassInstances(n - 1, total)
  }

  function SeedsOf(insts: seq<Instance>, frame: int): (r: seq<bv32>)
    ensures |r| == |insts|
  {
    seq(|insts|, k requires 0 <= k < |insts| => GlobalSeed(insts[k].global, insts[k].pass, frame))
  }

  lemma {:induction false} DrawnConcat(a: seq<GlCall>, b: seq<GlCall>)
    ensures DrawnInstances(a + b) == DrawnInstances(a) + DrawnInstances(b)
  {
    if a == [] {
      assert a + b == b;
    } else {
      assert (a + b)[0] == a[0];
      assert (a + b)[1..] == a[1..] + b;
      DrawnConcat(a[1..], b);
    }
  }

  lemma DrawnSingle(c: GlCall)
    ensures DrawnInstances([c]) == CallInstances(c)
  {
    assert [c][1..] == [];
  }

  /** The instances of pass `pass` for indices offset .. total-1, in index order. */
  function PassTail(pass: int, total: nat, offset: nat): seq<Instance>
    requires offset <= total
  {
    seq(total - offset, k requires 0 <= k < total - offset => Instance(pass, offset + k))
  }

  /** One streamed pass draws indices offset .. total-1 of that pass, once each, in order. */
  lemma {:induction false} PassChunksCover(pass: int, total: nat, cap: nat, offset: nat)
    requires cap > 0 && offset <= total
    ensures DrawnInstances(PassChunks(pass, total, cap, offset)) == PassTail(pass, total, offset)
    decreases total - offset
  {
    if offset < total {
      var c := Min(cap, total - offset);
      var rest := PassChunks(pass, total, cap, offset + c);
      assert PassChunks(pass, total, cap, offset) == [Upload(offset, c), Draw(pass, offset, c)] + rest;
      DrawnUploadDraw(Upload(offset, c), Draw(pass, offset, c), rest);
      PassChunksCover(pass, total, cap, offset + c);
      PassTailSplit(pass, total, offset, c);
    } else {
      assert PassTail(pass, total, offset) == [];
    }
  }

  /** An upload draws nothing; the draw after it draws its own instances. */
  lemma DrawnUploadDraw(up: GlCall, dr: GlCall, rest: seq<GlCall>)
    requires up.Upload?
    ensures DrawnInstances([up, dr] + rest) == CallInstances(dr) + DrawnInstances(rest)
  {
    var s := [up, dr] + rest;
    assert s[0] == up && s[1..] == [dr] + rest;
    assert ([dr] + rest)[0] == dr && ([dr] + rest)[1..] == rest;
  }

  lemma PassTailFromStart(pass: int, total: nat)
    ensures PassTail(pass, total, 0) == PassInstances(pass, total)
  {
    var a, b := PassTail(pass, total, 0), PassInstances(pass, total);
    forall k | 0 <= k < total
      ensures a[k] == b[k]
    {
      assert a[k] == Instance(pass, 0 + k);
    }
  }

  lemma PassTailSplit(pass: int, total: nat, offset: nat, c: nat)
    requires offset + c <= total
    ensures CallInstances(Draw(pass, offset, c)) + PassTail(pass, total, offset + c) == PassTail(pass, total, offset)
  {
    var a, b := CallInstances(Draw(pass, offset, c)), PassTail(pass, total, offset + c);
    var t := PassTail(pass, total, offset);
    assert |a + b| == |t|;
    forall k | 0 <= k < |t|
      ensures (a + b)[k] == t[k]
    {
      if k < c {
        assert (a + b)[k] == a[k];
      } else {
        assert (a + b)[k] == b[k - c];
      }
    }
  }

  lemma {:induction false} StreamedCover(total: nat, cap: nat, n: nat)
    requires cap > 0
    ensures DrawnInstances(Streamed(total, cap, n)) == AllInstances(total, n)
  {
    if n > 0 {
      var prev, last := Streamed(total, cap, n - 1), PassChunks(n - 1, total, cap, 0);
      calc {
        DrawnInstances(Streamed(total, cap, n));
        DrawnInstances(prev + last);
        { DrawnConcat(prev, last); }
        DrawnInstances(prev) + DrawnInstances(last);
        { StreamedCover(total, cap, n - 1); PassChunksCover(n - 1, total, cap, 0); }
        AllInstances(total, n - 1) + PassTail(n - 1, total, 0);
        { PassTailFromStart(n - 1, total); }
        AllInstances(total, n);
      }
    }
  }

  lemma {:induction false} ResidentCover(total: nat, n: nat)
    ensures DrawnInstances(Resident(total, n)) == AllInstances(total, n)
  {
    if n > 0 {
      var d := Draw(n - 1, 0, total);
      DrawnConcat(Resident(total, n - 1), [d]);
      DrawnSingle(d);
      ResidentCover(total, n - 1);
      assert CallInstances(d) == PassInstances(n - 1, total);
    }
  }

  lemma {:induction false} AllInstancesEmpty(n: nat)
    ensures AllInstances(0, n) == []
  {
    if n > 0 {
      AllInstancesEmpty(n - 1);
    }
  }

  /**
   * Coverage: whatever the capacity, one frame draws every segment index of
   * [0, total) exactly once per pass, passes in increasing order and indices
   * in increasing order within a pass.
   */
  lemma ScheduleCoversEachSegmentOncePerPass(total: nat, cap: nat, passes: int)
    requires cap > 0
    ensures DrawnInstances(Schedule(total, cap, passes)) == AllInstances(total, PassCount(passes))
  {
    if total == 0 {
      AllInstancesEmpty(PassCount(passes));
    } else if total <= cap {
      DrawnConcat([Upload(0, total)], Resident(total, PassCount(passes)));
      DrawnSingle(Upload(0, total));
      ResidentCover(total, PassCount(passes));
    } else {
      StreamedCover(total, cap, PassCount(passes));
    }
  }

  lemma SeedsOfConcat(a: seq<Instance>, b: seq<Instance>, frame: int)
    ensures SeedsOf(a + b, frame) == SeedsOf(a, frame) + SeedsOf(b, frame)
  {
    assert forall k :: 0 <= k < |a| ==> (a + b)[k] == a[k];
    assert forall k :: |a| <= k < |a| + |b| ==> (a + b)[k] == b[k - |a|];
  }

  /**
   * Wrapping the offset and the instance to 32 bits before adding, and the sum
   * after, gives the 32 bits of the exact sum.
   */
  lemma SegIndexIsWrappedSum(o: int, i: int)
    ensures SegIndex(o, i) == Wrap32(o + i)
  {
    var a, b := Wrap32(o), Wrap32(i);
    assert (o + i) - (a + b) == (o - a) + (i - b);
    assert ((o + i) - (a + b)) % TwoTo32 == 0;
  }

  /**
   * The seed of global segment g is the same in a streamed chunk starting at
   * o (instance g - o) as in the single-upload path (offset 0, instance g),
   * even where the shader's 32-bit addition wraps.
   */
  lemma ChunkSeedIsGlobalSeed(o: int, i: int, pass: int, frame: int)
    ensures ShaderSeed(o, i, pass, frame) == GlobalSeed(o + i, pass, frame)
  {
    SegIndexIsWrappedSum(o, i);
    assert U32(SegIndex(o, i)) == U32(o + i);
  }

  lemma CallSeedsFollowInstances(c: GlCall, frame: int)
    ensures CallSeeds(c, frame) == SeedsOf(CallInstances(c), frame)
  {
    if c.Draw? {
      var seeds, global := CallSeeds(c, frame), SeedsOf(CallInstances(c), frame);
      forall i | 0 <= i < c.instances
        ensures seeds[i] == global[i]
      {
        DrawSeedAt(c, i, frame);
      }
    }
  }

  lemma DrawSeedAt(c: GlCall, i: nat, frame: int)
    requires c.Draw? && i < c.instances
    ensures CallSeeds(c, frame)[i] == SeedsOf(CallInstances(c), frame)[i]
  {
    var o, p := c.segmentOffset, c.pass;
    assert CallInstances(c)[i] == Instance(p, o + i);
    ChunkSeedIsGlobalSeed(o, i, p, frame);
  }

  /** A draw's shader seeds are the global seeds of the instances it draws. */
  lemma {:induction false} SeedsFollowInstances(calls: seq<GlCall>, frame: int)
    ensures DrawnSeeds(calls, frame) == SeedsOf(DrawnInstances(calls), frame)
  {
    if calls != [] {
      SeedsFollowInstances(calls[1..], frame);
      CallSeedsFollowInstances(calls[0], frame);
      SeedsOfConcat(CallInstances(calls[0]), DrawnInstances(calls[1..]), frame);
    }
  }

  /**
   * Chunk invariance of the jitter: the seeds a frame's draws compute are the
   * same whatever the instance-buffer capacity, in particular the same as in
   * the single-upload path with segment offset 0.
   */
  lemma SeedsIndependentOfCapacity(total: nat, cap1: nat, cap2: nat, passes: int, frame: int)
    requires cap1 > 0 && cap2 > 0
    ensures DrawnSeeds(Schedule(total, cap1, passes), frame) == DrawnSeeds(Schedule(total, cap2, passes), frame)
    ensures DrawnSeeds(Schedule(total, cap1, passes), frame)
         == SeedsOf(AllInstances(total, PassCount(passes)), frame)
  {
    SeedsFollowInstances(Schedule(total, cap1, passes), frame);
    SeedsFollowInstances(Schedule(total, cap2, passes), frame);
    ScheduleCoversEachSegmentOncePerPass(total, cap1, passes);
    ScheduleCoversEachSegmentOncePerPass(total, cap2, passes);
  }

  // ---------------------------------------------------------------------------
  // Data residency and chunk sizes
  // ---------------------------------------------------------------------------

  /**
   * Each draw finds in the instance buffer exactly the range it draws: the
   * latest upload before it covered [segmentOffset, segmentOffset+instances).
   * Every upload is non-empty and fits the buffer's capacity.
   */
  ghost predicate DrawsResident(calls: seq<GlCall>, loaded: Option<(nat, nat)>, cap: nat)
  {
    if calls == [] then true
    else match calls[0]
      case Upload(o, c) => 0 < c <= cap && DrawsResident(calls[1..], Some((o, c)), cap)
      case Draw(_, o, c) => loaded == Some((o, c)) && DrawsResident(calls[1..], loaded, cap)
  }

  /** The buffer contents after the calls, starting from `loaded`. */
  function LoadedAfter(calls: seq<GlCall>, loaded: Option<(nat, nat)>): Option<(nat, nat)>
  {
    if calls == [] then loaded
    else match calls[0]
      case Upload(o, c) => LoadedAfter(calls[1..], Some((o, c)))
      case Draw(_, _, _) => LoadedAfter(calls[1..], loaded)
  }

  lemma {:induction false} ResidentConcat(a: seq<GlCall>, b: seq<GlCall>, loaded: Option<(nat, nat)>, cap: nat)
    requires DrawsResident(a, loaded, cap)
    requires DrawsResident(b, LoadedAfter(a, loaded), cap)
    ensures DrawsResident(a + b, loaded, cap)
  {
    if a == [] {
      assert a + b == b;
    } else {
      assert (a + b)[0] == a[0] && (a + b)[1..] == a[1..] + b;
      match a[0]
      case Upload(o, c) => ResidentConcat(a[1..], b, Some((o, c)), cap);
      case Draw(_, o, c) => ResidentConcat(a[1..], b, loaded, cap);
    }
  }

  lemma {:induction false} PassChunksResident(pass: int, total: nat, cap: nat, offset: nat, loaded: Option<(nat, nat)>)
    requires cap > 0
    ensures DrawsResident(PassChunks(pass, total, cap, offset), loaded, cap)
    decreases total - offset
  {
    if offset < total {
      var c := Min(cap, total - offset);
      var rest := PassChunks(pass, total, cap, offset + c);
      PassChunksResident(pass, total, cap, offset + c, Some((offset, c)));
      var s := [Upload(offset, c), Draw(pass, offset, c)] + rest;
      assert s[0] == Upload(offset, c) && s[1..][0] == Draw(pass, offset, c) && s[1..][1..] == rest;
    }
  }

  lemma {:induction false} StreamedResident(total: nat, cap: nat, n: nat, loaded: Option<(nat, nat)>)
    requires cap > 0
    ensures DrawsResident(Streamed(total, cap, n), loaded, cap)
  {
    if n > 0 {
      StreamedResident(total, cap, n - 1, loaded);
      PassChunksResident(n - 1, total, cap, 0, LoadedAfter(Streamed(total, cap, n - 1), loaded));
      ResidentConcat(Streamed(total, cap, n - 1), PassChunks(n - 1, total, cap, 0), loaded, cap);
    }
  }

  /** After the single upload, every pass's draw finds the whole frame resident. */
  lemma {:induction false} ResidentDrawsResident(total: nat, n: nat, cap: nat)
    ensures DrawsResident(Resident(total, n), Some((0, total)), cap)
    ensures LoadedAfter(Resident(total, n), Some((0, total))) == Some((0, total))
    ensures |Resident(total, n)| == n
  {
    if n > 0 {
      ResidentDrawsResident(total, n - 1, cap);
      var d := [Draw(n - 1, 0, total)];
      assert d[1..] == [];
      ResidentConcat(Resident(total, n - 1), d, Some((0, total)), cap);
      LoadedAfterConcat(Resident(total, n - 1), d, Some((0, total)));
    }
  }

  lemma {:induction false} LoadedAfterConcat(a: seq<GlCall>, b: seq<GlCall>, loaded: Option<(nat, nat)>)
    ensures LoadedAfter(a + b, loaded) == LoadedAfter(b, LoadedAfter(a, loaded))
  {
    if a == [] {
      assert a + b == b;
    } else {
      assert (a + b)[0] == a[0] && (a + b)[1..] == a[1..] + b;
      match a[0]
      case Upload(o, c) => LoadedAfterConcat(a[1..], b, Some((o, c)));
      case Draw(_, _, _) => LoadedAfterConcat(a[1..], b, loaded);
    }
  }

  /**
   * Every draw of a frame's schedule finds its own segments resident in the
   * buffer and every upload fits the capacity; the single-upload path makes
   * exactly one upload followed by one draw per pass.
   */
  lemma ScheduleKeepsDrawsResident(total: nat, cap: nat, passes: int)
    requires cap > 0
    ensures DrawsResident(Schedule(total, cap, passes), None, cap)
    ensures 0 < total <= cap ==> |Schedule(total, cap, passes)| == 1 + PassCount(passes)
  {
    if 0 < total <= cap {
      var n := PassCount(passes);
      ResidentDrawsResident(total, n, cap);
      var s := [Upload(0, total)] + Resident(total, n);
      assert s[0] == Upload(0, total) && s[1..] == Resident(total, n);
    } else if total > cap {
      StreamedResident(total, cap, PassCount(passes), None);
    }
  }
}
