/**
  The pixel counting of PixelClassificationMeasurementManager.calculateMeasurements,
  as values: the binary tile mask the ROI is drawn into, the class chosen for a
  masked pixel, the row-major scan of one tile (ended early by an exception) and
  the fold over all tiles of a request.
*/
module PixelCounting {
  import opened Common
  import opened ClassifierMeasurements

  /** ImageServerMetadata.ChannelType, with the types that reach the default branch collapsed into OtherType. */
  datatype ChannelType = Classification | Probability | Feature | OtherType

  /** Whether a ROI is a point set, a line or an area (ROI.isPoint / isLine / isArea). */
  datatype RoiKind = PointRoi | LineRoi | AreaRoi

  type Downsample = r: real | r > 0.0 witness 1.0

  /** A tile request: the tile's origin in full-resolution image coordinates and its downsample. */
  datatype TileRequest = TileRequest(imageX: real, imageY: real, downsample: Downsample)

  /**
    A classifier output tile: its size, its number of bands, the integer sample of
    band 0 (Raster.getSample) and the double samples of every band (getSampleDouble).
  */
  datatype Tile = Tile(width: nat, height: nat, numBands: nat,
                       classIndex: (int, int) -> int, sample: (int, int, int) -> real)

  type Pixel = (int, int)

  predicate InRect(p: Pixel, w: int, h: int) {
    0 <= p.0 < w && 0 <= p.1 < h
  }

  // ---------------------------------------------------------------------------
  // The tile mask
  // ---------------------------------------------------------------------------

  /** The byte-gray mask buffer as a value: its size and the pixels that are not 0. */
  datatype MaskImage = MaskImage(width: nat, height: nat, on: set<Pixel>)

  predicate InBounds(m: MaskImage) {
    forall p :: p in m.on ==> InRect(p, m.width, m.height)
  }

  /** Java's (int) cast of a double: truncation toward zero. */
  function Trunc(r: real): (i: int)
    ensures r >= 0.0 ==> 0 <= i && i as real <= r < i as real + 1.0
    ensures r < 0.0 ==> i <= 0 && i as real - 1.0 < r <= i as real
  {
    if r >= 0.0 then r.Floor else -((-r).Floor)
  }

  /** The mask pixel a point of a point ROI is written to, relative to the tile's origin. */
  function PointPixel(p: Point, req: TileRequest): Pixel {
    (Trunc((p.x - req.imageX) / req.downsample), Trunc((p.y - req.imageY) / req.downsample))
  }

  /** The pixels the points mark in a w x h buffer: those that fall inside it. */
  function PointPixels(points: seq<Point>, req: TileRequest, w: int, h: int): set<Pixel> {
    if points == [] then {}
    else PointPixels(points[..|points| - 1], req, w, h)
         + (var q := PointPixel(points[|points| - 1], req); if InRect(q, w, h) then {q} else {})
  }

  /** The buffer is replaced by a blank one of exactly the tile's size when it is too small in either direction. */
  function Realloc(m: MaskImage, tile: Tile): (r: MaskImage)
    ensures r.width >= tile.width && r.height >= tile.height
    ensures m.width >= tile.width && m.height >= tile.height ==> r == m
    ensures !(m.width >= tile.width && m.height >= tile.height) ==>
              r == MaskImage(tile.width, tile.height, {})
  {
    if m.width < tile.width || m.height < tile.height then MaskImage(tile.width, tile.height, {}) else m
  }

  /** A line or area ROI: the tile's rectangle blacked out, then the rendered shape drawn, clipped to the buffer. */
  function DrawnShape(b: MaskImage, tile: Tile, rendered: set<Pixel>): MaskImage {
    b.(on := (set p | p in b.on && !InRect(p, tile.width, tile.height))
             + (set p | p in rendered && InRect(p, b.width, b.height)))
  }

  /** A point ROI: the pixels of its points set, nothing cleared. */
  function MarkedPoints(b: MaskImage, points: seq<Point>, req: TileRequest): MaskImage {
    b.(on := b.on + PointPixels(points, req, b.width, b.height))
  }

  /**
    The mask for one tile. A line or area ROI redraws the tile's rectangle; a point
    ROI only sets the pixels of its points, so marks left by earlier tiles stay.
  */
  function PrepareMask(m: MaskImage, roiKind: RoiKind, points: seq<Point>, req: TileRequest,
                       tile: Tile, rendered: set<Pixel>): MaskImage
  {
    var b := Realloc(m, tile);
    if roiKind.PointRoi? then MarkedPoints(b, points, req) else DrawnShape(b, tile, rendered)
  }

  // ---------------------------------------------------------------------------
  // Counting one tile
  // ---------------------------------------------------------------------------

  /** The per-channel counts, the running total, and whether the tile's loop threw. */
  datatype Tally = Tally(counts: seq<int>, total: int, failed: bool)

  /** The probability branch's inner loop: the first channel among the first n with the largest sample. */
  function FirstMax(tile: Tile, x: int, y: int, n: nat): (r: nat)
    requires n >= 1
    ensures r < n
    ensures forall i :: 0 <= i < n ==> tile.sample(x, y, i) <= tile.sample(x, y, r)
    ensures forall i :: 0 <= i < r ==> tile.sample(x, y, i) < tile.sample(x, y, r)
  {
    if n == 1 then 0
    else
      var m := FirstMax(tile, x, y, n - 1);
      if tile.sample(x, y, n - 1) > tile.sample(x, y, m) then n - 1 else m
  }

  /** The probability branch's inner loop, as written: keep the first strictly larger sample. */
  method MaxChannel(tile: Tile, x: int, y: int, n: nat) returns (ind: nat)
    requires n >= 1
    ensures ind == FirstMax(tile, x, y, n)
  {
    var maxValue := tile.sample(x, y, 0);
    ind := 0;
    for i := 1 to n
      invariant ind == FirstMax(tile, x, y, i) && maxValue == tile.sample(x, y, ind)
    {
      var val := tile.sample(x, y, i);
      if val > maxValue {
        maxValue := val;
        ind := i;
      }
    }
  }

  function Min(a: nat, b: nat): nat {
    if a < b then a else b
  }

  /**
    The channel a masked pixel is counted in, or None where the source throws:
    a class index outside the counts array, or a probability tile with no band
    or no channel to read.
  */
  function PixelClass(tile: Tile, kind: ChannelType, nCh: nat, x: int, y: int): (r: Option<nat>)
    requires kind.Classification? || kind.Probability?
    ensures r.Some? ==> r.value < nCh
    ensures kind.Classification? ==> (r.Some? <==> 0 <= tile.classIndex(x, y) < nCh)
    ensures kind.Classification? && r.Some? ==> r.value == tile.classIndex(x, y)
    ensures kind.Probability? ==> (r.Some? <==> nCh > 0 && tile.numBands > 0)
    ensures kind.Probability? && r.Some? ==>
              r.value < Min(nCh, tile.numBands) &&
              (forall i :: 0 <= i < Min(nCh, tile.numBands) ==> tile.sample(x, y, i) <= tile.sample(x, y, r.value)) &&
              (forall i :: 0 <= i < r.value ==> tile.sample(x, y, i) < tile.sample(x, y, r.value))
  {
    if kind.Classification? then
      var i := tile.classIndex(x, y);
      if 0 <= i < nCh then Some(i) else None
    else
      var n := Min(nCh, tile.numBands);
      if n == 0 then None else Some(FirstMax(tile, x, y, n))
  }

  /** One pixel of the scan: skipped when not masked, counted, or the exception. */
  function Step(s: Tally, tile: Tile, mask: set<Pixel>, kind: ChannelType, x: int, y: int): (r: Tally)
    requires kind.Classification? || kind.Probability?
    ensures |r.counts| == |s.counts|
  {
    if s.failed || (x, y) !in mask then s
    else match PixelClass(tile, kind, |s.counts|, x, y)
      case None => s.(failed := true)
      case Some(i) => Tally(s.counts[i := s.counts[i] + 1], s.total + 1, false)
  }

  /** The first x pixels of row y. */
  function RowScan(s: Tally, tile: Tile, mask: set<Pixel>, kind: ChannelType, y: int, x: nat): (r: Tally)
    requires kind.Classification? || kind.Probability?
    ensures |r.counts| == |s.counts|
  {
    if x == 0 then s else Step(RowScan(s, tile, mask, kind, y, x - 1), tile, mask, kind, x - 1, y)
  }

  /** The first y rows of the tile. */
  function TileScan(s: Tally, tile: Tile, mask: set<Pixel>, kind: ChannelType, y: nat): (r: Tally)
    requires kind.Classification? || kind.Probability?
    ensures |r.counts| == |s.counts|
  {
    if y == 0 then s else RowScan(TileScan(s, tile, mask, kind, y - 1), tile, mask, kind, y - 1, tile.width)
  }

  /** A fresh long[n]. */
  function Zeros(n: nat): (r: seq<int>)
    ensures |r| == n && Sum(r) == 0
    ensures forall i :: 0 <= i < n ==> r[i] == 0
  {
    if n == 0 then []
    else
      var z := Zeros(n - 1);
      assert (z + [0])[..n - 1] == z;
      z + [0]
  }

  /** The fold over the requested tiles, in order: prepare the mask, then scan the tile with a fresh try block. */
  function CountTiles(mask: MaskImage, counts: seq<int>, total: int, roiKind: RoiKind, points: seq<Point>,
                      reqs: seq<TileRequest>, tiles: seq<Tile>, render: TileRequest -> set<Pixel>,
                      kind: ChannelType): (r: (MaskImage, seq<int>, int))
    requires |reqs| == |tiles|
    requires kind.Classification? || kind.Probability?
    ensures |r.1| == |counts|
  {
    if reqs == [] then (mask, counts, total)
    else
      var n := |reqs| - 1;
      var prev := CountTiles(mask, counts, total, roiKind, points, reqs[..n], tiles[..n], render, kind);
      var m := PrepareMask(prev.0, roiKind, points, reqs[n], tiles[n], render(reqs[n]));
      var s := TileScan(Tally(prev.1, prev.2, false), tiles[n], m.on, kind, tiles[n].height);
      (m, s.counts, s.total)
  }

  // ---------------------------------------------------------------------------
  // Properties of the mask
  // ---------------------------------------------------------------------------

  /** A point marks exactly its truncated pixel, when that pixel is inside the buffer. */
  lemma {:induction false} PointPixelsExact(points: seq<Point>, req: TileRequest, w: int, h: int, q: Pixel)
    ensures q in PointPixels(points, req, w, h) <==>
              InRect(q, w, h) && exists i :: 0 <= i < |points| && PointPixel(points[i], req) == q
  {
    if points != [] {
      var n := |points| - 1;
      PointPixelsExact(points[..n], req, w, h, q);
      if q in PointPixels(points, req, w, h) && q !in PointPixels(points[..n], req, w, h) {
        assert PointPixel(points[n], req) == q;
      }
      if InRect(q, w, h) && q !in PointPixels(points[..n], req, w, h) {
        forall i | 0 <= i < n
          ensures PointPixel(points[i], req) != q
        {
          assert points[..n][i] == points[i];
        }
      }
      if InRect(q, w, h) && q in PointPixels(points[..n], req, w, h) {
        var i :| 0 <= i < n && PointPixel(points[..n][i], req) == q;
        assert points[i] == points[..n][i];
      }
    }
  }

  /** Truncation toward zero: a point less than one tile pixel left of (or above) the tile still lands in column (row) 0. */
  lemma PointJustOutsideLandsOnEdge(p: Point, req: TileRequest)
    requires 0.0 - req.downsample < p.x - req.imageX < 0.0
    requires 0.0 - req.downsample < p.y - req.imageY < 0.0
    ensures PointPixel(p, req) == (0, 0)
  {
    ShortOffsetTruncatesToZero(p.x - req.imageX, req.downsample);
    ShortOffsetTruncatesToZero(p.y - req.imageY, req.downsample);
  }

  lemma ShortOffsetTruncatesToZero(a: real, d: real)
    requires d > 0.0 && -d < a < 0.0
    ensures Trunc(a / d) == 0
  {
    var q := a / d;
    assert q * d == a;
    if q <= -1.0 {
      assert false;
    }
    if q >= 0.0 {
      assert false;
    }
  }

  /** Whatever the ROI, the mask only holds pixels of the buffer. */
  lemma PrepareMaskInBounds(m: MaskImage, roiKind: RoiKind, points: seq<Point>, req: TileRequest,
                            tile: Tile, rendered: set<Pixel>)
    requires InBounds(m)
    ensures InBounds(PrepareMask(m, roiKind, points, req, tile, rendered))
  {
    var b := Realloc(m, tile);
    if roiKind.PointRoi? {
      forall q | q in PointPixels(points, req, b.width, b.height)
        ensures InRect(q, b.width, b.height)
      {
        PointPixelsExact(points, req, b.width, b.height, q);
      }
    }
  }

  /** Inside the tile, a line or area mask is exactly the rendered shape: nothing of earlier tiles survives. */
  lemma AreaMaskIsRendered(m: MaskImage, roiKind: RoiKind, points: seq<Point>, req: TileRequest,
                           tile: Tile, rendered: set<Pixel>, p: Pixel)
    requires !roiKind.PointRoi? && InRect(p, tile.width, tile.height)
    ensures p in PrepareMask(m, roiKind, points, req, tile, rendered).on <==> p in rendered
  {
  }

  /** A point mask is never cleared: unless the buffer is replaced, every earlier mark stays, and the points are added. */
  lemma PointMaskKeepsMarks(m: MaskImage, points: seq<Point>, req: TileRequest, tile: Tile, rendered: set<Pixel>)
    requires m.width >= tile.width && m.height >= tile.height
    ensures PrepareMask(m, PointRoi, points, req, tile, rendered)
              == m.(on := m.on + PointPixels(points, req, m.width, m.height))
  {
  }

  // ---------------------------------------------------------------------------
  // Properties of the counting
  // ---------------------------------------------------------------------------

  lemma {:induction false} SumIncrement(s: seq<int>, i: int)
    requires 0 <= i < |s|
    ensures Sum(s[i := s[i] + 1]) == Sum(s) + 1
  {
    var n := |s| - 1;
    assert s[i := s[i] + 1][..n] == if i < n then s[..n][i := s[..n][i] + 1] else s[..n];
    if i < n {
      SumIncrement(s[..n], i);
    }
  }

  /** The balance a scan keeps: the counts grow exactly as the total, stay non-negative, and the total never falls. */
  predicate Keeps(s: Tally, r: Tally) {
    Sum(r.counts) - r.total == Sum(s.counts) - s.total
    && s.total <= r.total
    && (NonNegative(s.counts) ==> NonNegative(r.counts))
  }

  lemma StepKeeps(s: Tally, tile: Tile, mask: set<Pixel>, kind: ChannelType, x: int, y: int)
    requires kind.Classification? || kind.Probability?
    ensures Keeps(s, Step(s, tile, mask, kind, x, y))
  {
    if !s.failed && (x, y) in mask {
      var c := PixelClass(tile, kind, |s.counts|, x, y);
      if c.Some? {
        SumIncrement(s.counts, c.value);
      }
    }
  }

  lemma {:induction false} RowScanKeeps(s: Tally, tile: Tile, mask: set<Pixel>, kind: ChannelType, y: int, x: nat)
    requires kind.Classification? || kind.Probability?
    ensures Keeps(s, RowScan(s, tile, mask, kind, y, x))
  {
    if x > 0 {
      RowScanKeeps(s, tile, mask, kind, y, x - 1);
      StepKeeps(RowScan(s, tile, mask, kind, y, x - 1), tile, mask, kind, x - 1, y);
    }
  }

  lemma {:induction false} TileScanKeeps(s: Tally, tile: Tile, mask: set<Pixel>, kind: ChannelType, y: nat)
    requires kind.Classification? || kind.Probability?
    ensures Keeps(s, TileScan(s, tile, mask, kind, y))
  {
    if y > 0 {
      TileScanKeeps(s, tile, mask, kind, y - 1);
      RowScanKeeps(TileScan(s, tile, mask, kind, y - 1), tile, mask, kind, y - 1, tile.width);
    }
  }

  /** Started from zero counts, the fold ends with non-negative counts whose sum is the total. */
  lemma {:induction false} CountTilesBalance(mask: MaskImage, counts: seq<int>, total: int, roiKind: RoiKind,
                                             points: seq<Point>, reqs: seq<TileRequest>, tiles: seq<Tile>,
                                             render: TileRequest -> set<Pixel>, kind: ChannelType)
    requires |reqs| == |tiles|
    requires kind.Classification? || kind.Probability?
    requires NonNegative(counts) && Sum(counts) == total
    ensures var r := CountTiles(mask, counts, total, roiKind, points, reqs, tiles, render, kind);
            NonNegative(r.1) && Sum(r.1) == r.2 && total <= r.2
  {
    if reqs != [] {
      var n := |reqs| - 1;
      CountTilesBalance(mask, counts, total, roiKind, points, reqs[..n], tiles[..n], render, kind);
      var prev := CountTiles(mask, counts, total, roiKind, points, reqs[..n], tiles[..n], render, kind);
      var m := PrepareMask(prev.0, roiKind, points, reqs[n], tiles[n], render(reqs[n]));
      TileScanKeeps(Tally(prev.1, prev.2, false), tiles[n], m.on, kind, tiles[n].height);
    }
  }

  /** The mask of the fold stays inside its buffer. */
  lemma {:induction false} CountTilesMaskInBounds(mask: MaskImage, counts: seq<int>, total: int, roiKind: RoiKind,
                                                  points: seq<Point>, reqs: seq<TileRequest>, tiles: seq<Tile>,
                                                  render: TileRequest -> set<Pixel>, kind: ChannelType)
    requires |reqs| == |tiles|
    requires kind.Classification? || kind.Probability?
    requires InBounds(mask)
    ensures InBounds(CountTiles(mask, counts, total, roiKind, points, reqs, tiles, render, kind).0)
  {
    if reqs != [] {
      var n := |reqs| - 1;
      CountTilesMaskInBounds(mask, counts, total, roiKind, points, reqs[..n], tiles[..n], render, kind);
      var prev := CountTiles(mask, counts, total, roiKind, points, reqs[..n], tiles[..n], render, kind);
      PrepareMaskInBounds(prev.0, roiKind, points, reqs[n], tiles[n], render(reqs[n]));
    }
  }

  /** A row (a tile) with no masked pixel leaves the tally as it was. */
  lemma {:induction false} RowScanUnmasked(s: Tally, tile: Tile, mask: set<Pixel>, kind: ChannelType, y: int, x: nat)
    requires kind.Classification? || kind.Probability?
    requires forall p :: p in mask ==> !(p.1 == y && 0 <= p.0 < x)
    ensures RowScan(s, tile, mask, kind, y, x) == s
  {
    if x > 0 {
      RowScanUnmasked(s, tile, mask, kind, y, x - 1);
    }
  }

  lemma {:induction false} TileScanUnmasked(s: Tally, tile: Tile, mask: set<Pixel>, kind: ChannelType, y: nat)
    requires kind.Classification? || kind.Probability?
    requires forall p :: p in mask ==> !InRect(p, tile.width, y)
    ensures TileScan(s, tile, mask, kind, y) == s
  {
    if y > 0 {
      assert forall p :: p in mask ==> !InRect(p, tile.width, y - 1);
      TileScanUnmasked(s, tile, mask, kind, y - 1);
      RowScanUnmasked(s, tile, mask, kind, y - 1, tile.width);
    }
  }

  /** Once the tile's loop has thrown, the rest of the row leaves the tally alone. */
  lemma {:induction false} RowScanStaysFailed(s: Tally, tile: Tile, mask: set<Pixel>, kind: ChannelType,
                                              y: int, x0: nat, x: nat)
    requires kind.Classification? || kind.Probability?
    requires x0 <= x && RowScan(s, tile, mask, kind, y, x0).failed
    ensures RowScan(s, tile, mask, kind, y, x) == RowScan(s, tile, mask, kind, y, x0)
  {
    if x > x0 {
      RowScanStaysFailed(s, tile, mask, kind, y, x0, x - 1);
    }
  }

  lemma {:induction false} RowScanFromFailed(s: Tally, tile: Tile, mask: set<Pixel>, kind: ChannelType, y: int, x: nat)
    requires kind.Classification? || kind.Probability?
    requires s.failed
    ensures RowScan(s, tile, mask, kind, y, x) == s
  {
    if x > 0 {
      RowScanFromFailed(s, tile, mask, kind, y, x - 1);
    }
  }

  /** ... and so do the remaining rows: an exception ends the tile's counting with what was counted so far. */
  lemma {:induction false} TileScanStaysFailed(s: Tally, tile: Tile, mask: set<Pixel>, kind: ChannelType, y0: nat, y: nat)
    requires kind.Classification? || kind.Probability?
    requires y0 <= y && TileScan(s, tile, mask, kind, y0).failed
    ensures TileScan(s, tile, mask, kind, y) == TileScan(s, tile, mask, kind, y0)
  {
    if y > y0 {
      TileScanStaysFailed(s, tile, mask, kind, y0, y - 1);
      RowScanFromFailed(TileScan(s, tile, mask, kind, y - 1), tile, mask, kind, y - 1, tile.width);
    }
  }

  /** The exception at pixel (x, y) is the tile's result. */
  lemma FailureEndsTile(s: Tally, tile: Tile, mask: set<Pixel>, kind: ChannelType, y: nat, x: nat)
    requires kind.Classification? || kind.Probability?
    requires y < tile.height && x < tile.width
    requires RowScan(TileScan(s, tile, mask, kind, y), tile, mask, kind, y, x + 1).failed
    ensures TileScan(s, tile, mask, kind, tile.height)
              == RowScan(TileScan(s, tile, mask, kind, y), tile, mask, kind, y, x + 1)
  {
    var f := RowScan(TileScan(s, tile, mask, kind, y), tile, mask, kind, y, x + 1);
    RowScanStaysFailed(TileScan(s, tile, mask, kind, y), tile, mask, kind, y, x + 1, tile.width);
    assert TileScan(s, tile, mask, kind, y + 1) == f;
    TileScanStaysFailed(s, tile, mask, kind, y + 1, tile.height);
  }
}
