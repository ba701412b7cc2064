// Frame readback from the offscreen LDR target: the vertical row flip, the
// synchronous path, the double-buffered pixel-pack-buffer (PBO) path with its
// one-frame delay, the flush of the last frame, and the frame sink (FFmpeg
// pipe or numbered PNG file).

module Readback {
  import opened EngineTypes
  import opened Decimal

  // ---------------------------------------------------------------------------
  // Rows and the vertical flip
  // ---------------------------------------------------------------------------

  /** An RGBA8 image, `h` rows of `rowBytes` bytes, bottom row first as GL reads it. */
  function Rows(px: seq<bv8>, rowBytes: nat, h: nat): (rs: seq<seq<bv8>>)
    requires |px| == rowBytes * h
    ensures |rs| == h
    ensures forall i :: 0 <= i < h ==> |rs[i]| == rowBytes
  {
    if h == 0 then [] else [px[..rowBytes]] + Rows(px[rowBytes..], rowBytes, h - 1)
  }

  function Flatten(rs: seq<seq<bv8>>): seq<bv8>
  {
    if rs == [] then [] else rs[0] + Flatten(rs[1..])
  }

  function Reverse<T>(s: seq<T>): (r: seq<T>)
    ensures |r| == |s|
    ensures forall i :: 0 <= i < |s| ==> r[i] == s[|s| - 1 - i]
  {
    seq(|s|, i requires 0 <= i < |s| => s[|s| - 1 - i])
  }

  /** The image with its rows in the opposite order: row y comes from row h-1-y. */
  function FlipRows(px: seq<bv8>, rowBytes: nat, h: nat): seq<bv8>
    requires |px| == rowBytes * h
  {
    Flatten(Reverse(Rows(px, rowBytes, h)))
  }

  lemma RowsSplit(rowBytes: nat, h: nat)
    requires h > 0
    ensures rowBytes * h == rowBytes + rowBytes * (h - 1)
  {
  }

  lemma {:induction false} FlattenRows(px: seq<bv8>, rowBytes: nat, h: nat)
    requires |px| == rowBytes * h
    ensures Flatten(Rows(px, rowBytes, h)) == px
  {
    if h > 0 {
      RowsSplit(rowBytes, h);
      var tail := px[rowBytes..];
      var rs := Rows(px, rowBytes, h);
      assert rs == [px[..rowBytes]] + Rows(tail, rowBytes, h - 1);
      assert rs[1..] == Rows(tail, rowBytes, h - 1);
      FlattenRows(tail, rowBytes, h - 1);
      assert px[..rowBytes] + tail == px;
    }
  }

  lemma {:induction false} FlattenLength(rs: seq<seq<bv8>>, rowBytes: nat)
    requires forall i :: 0 <= i < |rs| ==> |rs[i]| == rowBytes
    ensures |Flatten(rs)| == rowBytes * |rs|
  {
    if rs != [] {
      FlattenLength(rs[1..], rowBytes);
    }
  }

  lemma {:induction false} RowsFlatten(rs: seq<seq<bv8>>, rowBytes: nat)
    requires forall i :: 0 <= i < |rs| ==> |rs[i]| == rowBytes
    ensures |Flatten(rs)| == rowBytes * |rs|
    ensures Rows(Flatten(rs), rowBytes, |rs|) == rs
  {
    FlattenLength(rs, rowBytes);
    if rs != [] {
      RowsFlatten(rs[1..], rowBytes);
      var f := Flatten(rs);
      assert f == rs[0] + Flatten(rs[1..]);
      assert f[..rowBytes] == rs[0];
      assert f[rowBytes..] == Flatten(rs[1..]);
    }
  }

  /** The flip keeps the image's size. */
  lemma FlipRowsLength(px: seq<bv8>, rowBytes: nat, h: nat)
    requires |px| == rowBytes * h
    ensures |FlipRows(px, rowBytes, h)| == |px|
    ensures Rows(FlipRows(px, rowBytes, h), rowBytes, h) == Reverse(Rows(px, rowBytes, h))
  {
    RowsFlatten(Reverse(Rows(px, rowBytes, h)), rowBytes);
  }

  /** Row y of the flipped image is row h-1-y of the image read back. */
  lemma FlipRowsMovesRows(px: seq<bv8>, rowBytes: nat, h: nat, y: nat)
    requires |px| == rowBytes * h && y < h
    ensures |FlipRows(px, rowBytes, h)| == |px|
    ensures Rows(FlipRows(px, rowBytes, h), rowBytes, h)[y] == Rows(px, rowBytes, h)[h - 1 - y]
  {
    FlipRowsLength(px, rowBytes, h);
  }

  /** Flipping twice gives the original image back. */
  lemma FlipRowsInvolution(px: seq<bv8>, rowBytes: nat, h: nat)
    requires |px| == rowBytes * h
    ensures |FlipRows(px, rowBytes, h)| == |px|
    ensures FlipRows(FlipRows(px, rowBytes, h), rowBytes, h) == px
  {
    FlipRowsLength(px, rowBytes, h);
    var rs := Rows(px, rowBytes, h);
    assert Reverse(Reverse(rs)) == rs;
    FlattenRows(px, rowBytes, h);
  }

  /** The row of the image starting at byte `sy * rowBytes`. */
  lemma {:induction false} RowIsSlice(px: seq<bv8>, rowBytes: nat, h: nat, sy: nat)
    requires |px| == rowBytes * h && sy < h
    ensures sy * rowBytes + rowBytes <= |px|
    ensures Rows(px, rowBytes, h)[sy] == px[sy * rowBytes .. sy * rowBytes + rowBytes]
  {
    assert rowBytes * h == rowBytes * (h - 1) + rowBytes;
    assert rowBytes * (h - 1) >= 0;
    if sy > 0 {
      var rest := px[rowBytes..];
      RowIsSlice(rest, rowBytes, h - 1, sy - 1);
      var lo := (sy - 1) * rowBytes;
      assert lo + rowBytes == sy * rowBytes;
      assert Rows(px, rowBytes, h)[sy] == Rows(rest, rowBytes, h - 1)[sy - 1];
      assert rest[lo .. lo + rowBytes] == px[sy * rowBytes .. sy * rowBytes + rowBytes];
    }
  }

  lemma {:induction false} FlattenSnoc(rs: seq<seq<bv8>>, r: seq<bv8>)
    ensures Flatten(rs + [r]) == Flatten(rs) + r
  {
    if rs == [] {
      assert rs + [r] == [r];
    } else {
      assert (rs + [r])[1..] == rs[1..] + [r];
      FlattenSnoc(rs[1..], r);
    }
  }

  /**
   * Copies the rows of `src` into a new buffer from the last to the first,
   * `rowBytes` bytes at a time.
   */
  method FlipRowsCopy(src: seq<bv8>, rowBytes: nat, h: nat) returns (flipped: seq<bv8>)
    requires |src| == rowBytes * h
    ensures flipped == FlipRows(src, rowBytes, h)
  {
    ghost var rev := Reverse(Rows(src, rowBytes, h));
    flipped := [];
    var y := 0;
    while y < h
      invariant 0 <= y <= h
      invariant flipped == Flatten(rev[..y])
    {
      var sy := h - 1 - y;
      RowIsSlice(src, rowBytes, h, sy);
      FlattenSnoc(rev[..y], rev[y]);
      assert rev[..y + 1] == rev[..y] + [rev[y]];
      flipped := flipped + src[sy * rowBytes .. sy * rowBytes + rowBytes];
      y := y + 1;
    }
    assert rev[..h] == rev;
  }

  // ---------------------------------------------------------------------------
  // The frame sink
  // ---------------------------------------------------------------------------

  /** Where finished frames go: the output mode, whether the FFmpeg pipe is open, the PNG directory. */
  datatype Sink = Sink(outputMode: OutputMode, ffmpegOpen: bool, outDir: string)

  /** One written frame: bytes on the FFmpeg pipe, or a PNG file of the given path. */
  datatype FrameOutput =
    | ToFfmpeg(pixels: seq<bv8>)
    | PngFile(path: string, pixels: seq<bv8>)

  /** `<outDir>/frame_<index, zero-padded to width 4>.png` */
  function FramePath(outDir: string, index: int): string
  {
    outDir + "/frame_" + Pad4(index) + ".png"
  }

  /** Distinct frame indices are written to distinct files. */
  lemma FramePathInjective(outDir: string, a: int, b: int)
    requires FramePath(outDir, a) == FramePath(outDir, b)
    ensures a == b
  {
    var pa, pb := FramePath(outDir, a), FramePath(outDir, b);
    var k := |outDir| + 7;
    assert pa[k..|pa| - 4] == Pad4(a);
    assert pb[k..|pb| - 4] == Pad4(b);
    Pad4Injective(a, b);
  }

  /** The frame writer: to the pipe in video mode with the pipe open, else to a PNG file. */
  function WriteFrame(sink: Sink, index: int, flipped: seq<bv8>): (o: FrameOutput)
    ensures o.pixels == flipped
    ensures o.ToFfmpeg? <==> sink.outputMode == FFmpegVideo && sink.ffmpegOpen
    ensures o.PngFile? ==> o.path == FramePath(sink.outDir, index)
  {
    if sink.outputMode == FFmpegVideo && sink.ffmpegOpen then ToFfmpeg(flipped)
    else PngFile(FramePath(sink.outDir, index), flipped)
  }

  // ---------------------------------------------------------------------------
  // The readback state
  // ---------------------------------------------------------------------------

  /**
   * The readback state. `pbo` holds the contents of the two pixel-pack
   * buffers; the GL buffer names are not modelled.
   */
  class PboReadback {
    var enabled: bool
    const pbo: array<seq<bv8>>
    var curr: int
    var prev: int
    var first: bool
    var bytes: int

    /** The two buffers exist, `curr` and `prev` name one each, and a pending capture is full-size. */
    predicate Valid()
      reads this, pbo
    {
      pbo.Length == 2 &&
      ((curr == 0 && prev == 1) || (curr == 1 && prev == 0)) &&
      (enabled && !first ==> |pbo[prev]| == bytes)
    }

    /** The struct's member defaults. */
    constructor ()
      ensures Valid() && fresh(pbo)
      ensures !enabled && curr == 0 && prev == 1 && first && bytes == 0
    {
      enabled := false;
      pbo := new seq<bv8>[2](_ => []);
      curr := 0;
      prev := 1;
      first := true;
      bytes := 0;
    }

    /** Resets the pipeline; when enabled, both buffers are sized for one w x h RGBA8 frame. */
    method InitPbo(enabled: bool, w: nat, h: nat)
      requires pbo.Length == 2
      modifies this
      ensures Valid()
      ensures this.enabled == enabled && first && curr == 0 && prev == 1
      ensures bytes == if enabled then w * h * 4 else 0
    {
      this.enabled := enabled;
      first := true;
      curr := 0;
      prev := 1;
      bytes := 0;
      if !enabled {
        return;
      }
      bytes := w * h * 4;
    }

    /**
     * Reads back frame `frameIndex` whose composited image is `image`.
     * Without PBOs the frame is flipped and written at once. With PBOs the
     * image is captured into the current buffer; from the second call on,
     * the previous buffer is mapped and, if the map succeeds, written as
     * frame `frameIndex - 1`; then the buffers swap roles.
     */
    method SaveOrStream(frameIndex: int, w: nat, h: nat, sink: Sink, image: seq<bv8>, mapOk: bool)
      returns (written: Option<FrameOutput>)
      requires Valid()
      requires |image| == (w * 4) * h
      requires enabled ==> bytes == (w * 4) * h
      modifies this, pbo
      ensures Valid()
      ensures enabled == old(enabled) && bytes == old(bytes)
      ensures !enabled ==>
        written == Some(WriteFrame(sink, frameIndex, FlipRows(image, w * 4, h))) &&
        curr == old(curr) && prev == old(prev) && first == old(first) &&
        pbo[0] == old(pbo[0]) && pbo[1] == old(pbo[1])
      ensures enabled ==>
        curr == old(prev) && prev == old(curr) && !first &&
        pbo[old(curr)] == image && pbo[old(prev)] == old(pbo[prev]) &&
        written == (if old(first) || !mapOk then None
                    else Some(WriteFrame(sink, frameIndex - 1, FlipRows(old(pbo[prev]), w * 4, h))))
    {
      if !enabled {
        var flipped := FlipRowsCopy(image, w * 4, h);
        written := Some(WriteFrame(sink, frameIndex, flipped));
        return;
      }
      pbo[curr] := image;
      written := None;
      if !first {
        if mapOk {
          var flipped := FlipRowsCopy(pbo[prev], w * 4, h);
          written := Some(WriteFrame(sink, frameIndex - 1, flipped));
        }
      } else {
        first := false;
      }
      curr, prev := prev, curr;
    }

    /** Writes the frame still waiting in the previous buffer, if there is one and the map succeeds. */
    method FlushLast(lastFrameIndex: int, w: nat, h: nat, sink: Sink, mapOk: bool)
      returns (written: Option<FrameOutput>)
      requires Valid()
      requires enabled ==> bytes == (w * 4) * h
      ensures written.Some? <==> enabled && !first && mapOk
      ensures written.Some? ==>
        written.value == WriteFrame(sink, lastFrameIndex, FlipRows(pbo[prev], w * 4, h))
    {
      if !enabled || first {
        return None;
      }
      written := None;
      if mapOk {
        var flipped := FlipRowsCopy(pbo[prev], w * 4, h);
        written := Some(WriteFrame(sink, lastFrameIndex, flipped));
      }
    }
  }
}
