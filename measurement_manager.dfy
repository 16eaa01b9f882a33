/**
  PixelClassificationMeasurementManager: area measurements of ROIs from the
  tiles of a pixel classifier's output, computed once per ROI and cached.
*/
module MeasurementManager {
  import opened Common
  import opened ClassifierMeasurements
  import opened PixelCounting

  /** A region of interest; the cache is keyed by its identity. */
  class Roi {
    const kind: RoiKind
    /** getPolygonPoints(), read for point ROIs. */
    const points: seq<Point>
    /** ROI.isEmpty(). */
    const empty: bool

    constructor(kind: RoiKind, points: seq<Point>, empty: bool)
      ensures this.kind == kind && this.points == points && this.empty == empty
    {
      this.kind := kind;
      this.points := points;
      this.empty := empty;
    }
  }

  /** PixelCalibration: whether the pixel size is known in microns, and that size. */
  datatype Calibration = Calibration(hasPixelSizeMicrons: bool, pixelWidthMicrons: Value, pixelHeightMicrons: Value)

  /**
    The classifier's ImageServer as far as the manager uses it. tileRequests is the
    tile request manager asked for the tiles of a region request around a ROI at a
    downsample; cachedTile is getCachedTile and readTile is readBufferedImage, with
    None for null and for an IOException.
  */
  datatype Server = Server(
    channels: seq<Channel>,
    channelType: ChannelType,
    downsample0: Downsample,
    calibration: Calibration,
    width: nat,
    height: nat,
    nZSlices: nat,
    nTimepoints: nat,
    allTileRequests: seq<TileRequest>,
    tileRequests: (Roi, real) -> seq<TileRequest>,
    cachedTile: TileRequest -> Option<Tile>,
    readTile: TileRequest -> Option<Tile>)

  /** The per-channel pixel counts and the number of pixels counted. */
  datatype Histogram = Histogram(counts: seq<int>, total: int)

  /** The parts of a PathObject the manager reads. */
  datatype PathObject = PathObject(roi: Option<Roi>, isRoot: bool)

  /** The area of one pixel at downsample ds: in mm^2 when the pixel size is known, in px^2 otherwise. */
  function PixelArea(cal: Calibration, ds: real): Value {
    if cal.hasPixelSizeMicrons then
      var scale := ds / 1000.0;
      Mul(Mul(cal.pixelWidthMicrons, Val(scale)), Mul(cal.pixelHeightMicrons, Val(scale)))
    else
      Val(ds * ds)
  }

  function PixelAreaUnits(cal: Calibration): string {
    if cal.hasPixelSizeMicrons then "mm^2" else "px^2"
  }

  /** The calibrated pixel area is the area in square microns of a downsampled pixel, converted to mm^2. */
  lemma PixelAreaInSquareMillimetres(cal: Calibration, ds: real)
    requires cal.hasPixelSizeMicrons && cal.pixelWidthMicrons.Val? && cal.pixelHeightMicrons.Val?
    ensures PixelArea(cal, ds)
            == Val((cal.pixelWidthMicrons.v * ds) * (cal.pixelHeightMicrons.v * ds) / 1000000.0)
  {
    var w := cal.pixelWidthMicrons.v;
    var h := cal.pixelHeightMicrons.v;
    assert (w * (ds / 1000.0)) * (h * (ds / 1000.0)) == (w * ds) * (h * ds) / 1000000.0;
  }

  /** The pixel area is NaN exactly when a calibrated width or height is NaN. */
  lemma PixelAreaNaN(cal: Calibration, ds: real)
    ensures PixelArea(cal, ds).NaN? <==>
              cal.hasPixelSizeMicrons && (cal.pixelWidthMicrons.NaN? || cal.pixelHeightMicrons.NaN?)
  {
  }

  /** getCachedTile when only cached tiles may be used, readBufferedImage otherwise. */
  function Fetch(server: Server, req: TileRequest, cachedOnly: bool): Option<Tile> {
    if cachedOnly then server.cachedTile(req) else server.readTile(req)
  }

  /** All tiles of the requests, or nothing if any one is missing. */
  function FetchAll(server: Server, reqs: seq<TileRequest>, cachedOnly: bool): (r: Option<seq<Tile>>)
    ensures r.Some? <==> forall i :: 0 <= i < |reqs| ==> Fetch(server, reqs[i], cachedOnly).Some?
    ensures r.Some? ==> |r.value| == |reqs|
    ensures r.Some? ==> forall i :: 0 <= i < |reqs| ==> Fetch(server, reqs[i], cachedOnly) == Some(r.value[i])
  {
    if reqs == [] then Some([])
    else
      var n := |reqs| - 1;
      assert forall i :: 0 <= i < n ==> reqs[..n][i] == reqs[i];
      var prev := FetchAll(server, reqs[..n], cachedOnly);
      var last := Fetch(server, reqs[n], cachedOnly);
      if prev.None? || last.None? then None else Some(prev.value + [last.value])
  }

  /** The byte-gray mask buffer as a value. */
  ghost function Snapshot(a: array2<bool>): MaskImage
    reads a
  {
    MaskImage(a.Length0, a.Length1, set x: int, y: int | 0 <= x < a.Length0 && 0 <= y < a.Length1 && a[x, y] :: (x, y))
  }

  lemma SnapshotAt(a: array2<bool>, x: int, y: int)
    ensures (x, y) in Snapshot(a).on <==> 0 <= x < a.Length0 && 0 <= y < a.Length1 && a[x, y]
  {
    if 0 <= x < a.Length0 && 0 <= y < a.Length1 && a[x, y] {
      assert (x, y) in Snapshot(a).on;
    }
  }

  lemma SnapshotInBounds(a: array2<bool>)
    ensures InBounds(Snapshot(a))
  {
  }

  /** A buffer whose pixels agree with a mask value of its size has that value as its snapshot. */
  lemma SnapshotIs(a: array2<bool>, m: MaskImage)
    requires a.Length0 == m.width && a.Length1 == m.height && InBounds(m)
    requires forall x, y :: 0 <= x < a.Length0 && 0 <= y < a.Length1 ==> (a[x, y] <==> (x, y) in m.on)
    ensures Snapshot(a) == m
  {
    forall p | p in m.on
      ensures p in Snapshot(a).on
    {
      SnapshotAt(a, p.0, p.1);
    }
    forall p | p in Snapshot(a).on
      ensures p in m.on
    {
      SnapshotAt(a, p.0, p.1);
    }
  }

  class Manager {
    const server: Server
    /** The AWT rasterisation of a line or area ROI into the mask of a tile request (pixels relative to the tile). */
    const render: (Roi, TileRequest) -> set<Pixel>
    const requestedDownsample: Downsample
    const pixelArea: Value
    const pixelAreaUnits: string
    /** The whole-image rectangle standing in for the root object's ROI. */
    const rootROI: Option<Roi>
    var measurementNames: Option<seq<string>>
    /** The lists computed so far, by ROI. */
    var measuredROIs: map<Roi, MeasurementList>
    /** The reused mask buffer (created on first use, hence empty at first). */
    var imgMask: array2<bool>

    /**
      The names are frozen, and every cached list carries exactly them (or, with
      an unknown pixel area, only the percentage names).
    */
    ghost predicate Valid()
      reads this
    {
      measurementNames == Some(MeasurementNamesFor(server.channels, pixelArea, pixelAreaUnits))
      && forall roi :: roi in measuredROIs ==>
           (pixelArea.Val? ==> Names(measuredROIs[roi]) == measurementNames.value)
           && (pixelArea.NaN? ==> Names(measuredROIs[roi]) == PercentNames(server.channels))
    }

    constructor(server: Server, render: (Roi, TileRequest) -> set<Pixel>)
      ensures this.server == server && this.render == render
      ensures requestedDownsample == server.downsample0
      ensures pixelArea == PixelArea(server.calibration, server.downsample0)
      ensures pixelAreaUnits == PixelAreaUnits(server.calibration)
      ensures rootROI.Some? <==> server.nZSlices == 1 || server.nTimepoints == 1
      ensures rootROI.Some? ==> fresh(rootROI.value) && rootROI.value.kind == AreaRoi
      ensures measuredROIs == map[]
      ensures Valid()
    {
      this.server := server;
      this.render := render;
      var ds: real := server.downsample0;
      requestedDownsample := ds;
      pixelArea := PixelArea(server.calibration, ds);
      pixelAreaUnits := PixelAreaUnits(server.calibration);
      if server.nZSlices == 1 || server.nTimepoints == 1 {
        var w := server.width as real;
        var h := server.height as real;
        var rect := new Roi(AreaRoi, [Point(0.0, 0.0), Point(w, 0.0), Point(w, h), Point(0.0, h)],
                            server.width == 0 || server.height == 0);
        rootROI := Some(rect);
      } else {
        rootROI := None;
      }
      measurementNames := None;
      measuredROIs := map[];
      imgMask := new bool[0, 0];
      new;
      var _ := UpdateMeasurements(server.channels, Zeros(|server.channels|), 0);
    }

    /** getMeasurementNames: the frozen names, or none before they are set. */
    function MeasurementNames(): (r: seq<string>)
      reads this
      ensures Valid() ==> r == MeasurementNamesFor(server.channels, pixelArea, pixelAreaUnits)
      ensures measurementNames.None? ==> r == []
    {
      if measurementNames.None? then [] else measurementNames.value
    }

    /** updateMeasurements: the list for a histogram; the first call also freezes the names. */
    method UpdateMeasurements(channels: seq<Channel>, counts: seq<int>, total: int) returns (ml: MeasurementList)
      requires |counts| == |channels|
      modifies this`measurementNames
      ensures ml == MeasurementsFor(channels, counts, total, pixelArea, pixelAreaUnits)
      ensures measurementNames == if old(measurementNames).None?
                                  then Some(MeasurementNamesFor(channels, pixelArea, pixelAreaUnits))
                                  else old(measurementNames)
    {
      var addNames := measurementNames.None?;
      var totalWithoutIgnored := TotalWithoutIgnored(channels, counts);
      var entries, names := BuildChannelEntries(channels, counts, totalWithoutIgnored, pixelArea, pixelAreaUnits);
      var nameArea := TotalAnnotatedName(pixelAreaUnits);
      var nameAreaWithoutIgnored := TotalQuantifiedName(pixelAreaUnits);
      var totals: MeasurementList := [];
      if !pixelArea.NaN? {
        names := names + [nameArea, nameAreaWithoutIgnored];
        totals := [Measurement(nameArea, Mul(Val(totalWithoutIgnored as real), pixelArea)),
                   Measurement(nameAreaWithoutIgnored, Mul(Val(total as real), pixelArea))];
      }
      assert names == MeasurementNamesFor(channels, pixelArea, pixelAreaUnits);
      if addNames {
        measurementNames := Some(names);
      }
      ml := entries + totals;
    }

    /** The tiles a ROI needs: all of them for the root ROI, none for an empty ROI. */
    function RequestsFor(roi: Roi): seq<TileRequest> {
      if rootROI == Some(roi) then server.allTileRequests
      else if !roi.empty then server.tileRequests(roi, requestedDownsample)
      else []
    }

    function Rendering(roi: Roi): TileRequest -> set<Pixel> {
      req => render(roi, req)
    }

    /**
      The histogram calculateMeasurements measures for a ROI, and what it leaves
      in the mask buffer: nothing for feature output, for a ROI without tiles and
      when any tile is missing; for other output types the all-zero counts once
      the first tile's mask is drawn; otherwise the counts over every tile.
    */
    function HistogramOf(roi: Roi, cachedOnly: bool, mask: MaskImage): (r: (Option<Histogram>, MaskImage))
      ensures r.0.Some? ==> |r.0.value.counts| == |server.channels|
    {
      var n := |server.channels|;
      var kind := server.channelType;
      var reqs := RequestsFor(roi);
      if kind == Feature || reqs == [] then (None, mask)
      else
        var tiles := FetchAll(server, reqs, cachedOnly);
        if tiles.None? then (None, mask)
        else if kind == OtherType then
          (Some(Histogram(Zeros(n), 0)),
           PrepareMask(mask, roi.kind, roi.points, reqs[0], tiles.value[0], render(roi, reqs[0])))
        else
          var r := CountTiles(mask, Zeros(n), 0, roi.kind, roi.points, reqs, tiles.value, Rendering(roi), kind);
          (Some(Histogram(r.1, r.2)), r.0)
    }

    /** The measurement list of that histogram, and the mask buffer left behind. */
    function CalculationOf(roi: Roi, cachedOnly: bool, mask: MaskImage): (Option<MeasurementList>, MaskImage) {
      var h := HistogramOf(roi, cachedOnly, mask);
      if h.0.None? then (None, h.1)
      else (Some(MeasurementsFor(server.channels, h.0.value.counts, h.0.value.total, pixelArea, pixelAreaUnits)), h.1)
    }

    /** All or nothing: a list comes back exactly when the output is not a feature map, the ROI has tiles and every tile is available. */
    lemma CalculationAllOrNothing(roi: Roi, cachedOnly: bool, mask: MaskImage)
      ensures var reqs := RequestsFor(roi);
              CalculationOf(roi, cachedOnly, mask).0.Some?
              <==> server.channelType != Feature && reqs != []
                   && forall i :: 0 <= i < |reqs| ==> Fetch(server, reqs[i], cachedOnly).Some?
      ensures CalculationOf(roi, cachedOnly, mask).0.None? ==> CalculationOf(roi, cachedOnly, mask).1 == mask
    {
    }

    /** The histogram's counts are non-negative and add up to its total. */
    lemma HistogramBalance(roi: Roi, cachedOnly: bool, mask: MaskImage)
      ensures var h := HistogramOf(roi, cachedOnly, mask).0;
              h.Some? ==> NonNegative(h.value.counts) && Sum(h.value.counts) == h.value.total
    {
      var n := |server.channels|;
      var reqs := RequestsFor(roi);
      var kind := server.channelType;
      if kind != Feature && reqs != [] && kind != OtherType {
        var tiles := FetchAll(server, reqs, cachedOnly);
        if tiles.Some? {
          CountTilesBalance(mask, Zeros(n), 0, roi.kind, roi.points, reqs, tiles.value, Rendering(roi), kind);
        }
      }
    }

    /** The mask buffer only ever holds pixels inside it. */
    lemma HistogramMaskInBounds(roi: Roi, cachedOnly: bool, mask: MaskImage)
      requires InBounds(mask)
      ensures InBounds(HistogramOf(roi, cachedOnly, mask).1)
    {
      var n := |server.channels|;
      var reqs := RequestsFor(roi);
      var kind := server.channelType;
      if kind != Feature && reqs != [] {
        var tiles := FetchAll(server, reqs, cachedOnly);
        if tiles.Some? {
          if kind == OtherType {
            PrepareMaskInBounds(mask, roi.kind, roi.points, reqs[0], tiles.value[0], render(roi, reqs[0]));
          } else {
            CountTilesMaskInBounds(mask, Zeros(n), 0, roi.kind, roi.points, reqs, tiles.value, Rendering(roi), kind);
          }
        }
      }
    }

    /** Every list carries the frozen names (only the percentage names when the pixel area is unknown). */
    lemma CalculationNames(roi: Roi, cachedOnly: bool, mask: MaskImage)
      ensures var c := CalculationOf(roi, cachedOnly, mask).0;
              c.Some? ==>
                (pixelArea.Val? ==> Names(c.value) == MeasurementNamesFor(server.channels, pixelArea, pixelAreaUnits))
                && (pixelArea.NaN? ==> Names(c.value) == PercentNames(server.channels))
    {
      var h := HistogramOf(roi, cachedOnly, mask).0;
      if h.Some? {
        MeasurementNamesMatch(server.channels, h.value.counts, h.value.total, pixelArea, pixelAreaUnits);
      }
    }

    /** Without transparent channels the annotated and the quantified totals are the same area. */
    lemma TotalsAgreeWithoutTransparent(roi: Roi, cachedOnly: bool, mask: MaskImage)
      requires pixelArea.Val?
      requires forall c :: 0 <= c < |server.channels| ==> !server.channels[c].transparent
      ensures var h := HistogramOf(roi, cachedOnly, mask).0;
              var c := CalculationOf(roi, cachedOnly, mask).0;
              h.Some? ==>
                Measurement(TotalAnnotatedName(pixelAreaUnits), Mul(Val(h.value.total as real), pixelArea)) in c.value
                && Measurement(TotalQuantifiedName(pixelAreaUnits), Mul(Val(h.value.total as real), pixelArea)) in c.value
    {
      var h := HistogramOf(roi, cachedOnly, mask).0;
      if h.Some? {
        HistogramBalance(roi, cachedOnly, mask);
        TotalsAgree(server.channels, h.value.counts, h.value.total, pixelArea, pixelAreaUnits);
      }
    }

    /** The default branch measures nothing: every percentage it reports is NaN and every area zero. */
    lemma DefaultBranchCountsNothing(roi: Roi, cachedOnly: bool, mask: MaskImage, c: nat)
      requires server.channelType == OtherType
      requires c < |server.channels| && !server.channels[c].transparent
      ensures var r := CalculationOf(roi, cachedOnly, mask).0;
              r.Some? ==> Measurement(PercentName(server.channels[c]), NaN) in r.value
      ensures var r := CalculationOf(roi, cachedOnly, mask).0;
              r.Some? && pixelArea.Val? ==> Measurement(AreaName(server.channels[c], pixelAreaUnits), Val(0.0)) in r.value
    {
      var h := HistogramOf(roi, cachedOnly, mask).0;
      if h.Some? {
        NoCountsNoPercentages(server.channels, h.value.counts, h.value.total, pixelArea, pixelAreaUnits, c);
      }
    }

    /** The loop that gets every tile, giving up at the first one missing. */
    method FetchTiles(reqs: seq<TileRequest>, cachedOnly: bool) returns (tiles: Option<seq<Tile>>)
      ensures tiles == FetchAll(server, reqs, cachedOnly)
    {
      var acc: seq<Tile> := [];
      for i := 0 to |reqs|
        invariant FetchAll(server, reqs[..i], cachedOnly) == Some(acc)
      {
        assert reqs[..i + 1][..i] == reqs[..i];
        var tile := if cachedOnly then server.cachedTile(reqs[i]) else server.readTile(reqs[i]);
        if tile.None? {
          return None;
        }
        acc := acc + [tile.value];
      }
      assert reqs[..|reqs|] == reqs;
      tiles := Some(acc);
    }

    /** Draws the ROI into the mask buffer for one tile, replacing the buffer when it is too small. */
    method PrepareMaskBuffer(roi: Roi, req: TileRequest, tile: Tile)
      modifies this`imgMask, imgMask
      ensures imgMask == old(imgMask) || fresh(imgMask)
      ensures Snapshot(imgMask)
              == PrepareMask(old(Snapshot(imgMask)), roi.kind, roi.points, req, tile, render(roi, req))
    {
      if imgMask.Length0 < tile.width || imgMask.Length1 < tile.height {
        imgMask := new bool[tile.width, tile.height]((x, y) => false);
        SnapshotIs(imgMask, MaskImage(tile.width, tile.height, {}));
      }
      assert Snapshot(imgMask) == Realloc(old(Snapshot(imgMask)), tile);
      if roi.kind != PointRoi {
        DrawShape(tile, render(roi, req));
      } else {
        MarkPoints(roi.points, req);
      }
    }

    /** fillRect over the tile in black, then the shape filled (or stroked) in white. */
    method DrawShape(tile: Tile, rendered: set<Pixel>)
      requires imgMask.Length0 >= tile.width && imgMask.Length1 >= tile.height
      modifies imgMask
      ensures Snapshot(imgMask) == DrawnShape(old(Snapshot(imgMask)), tile, rendered)
    {
      ghost var b := Snapshot(imgMask);
      forall x, y | 0 <= x < imgMask.Length0 && 0 <= y < imgMask.Length1
        ensures imgMask[x, y] <==> (x, y) in b.on
      {
        SnapshotAt(imgMask, x, y);
      }
      forall x, y | 0 <= x < tile.width && 0 <= y < tile.height {
        imgMask[x, y] := false;
      }
      forall x, y | 0 <= x < imgMask.Length0 && 0 <= y < imgMask.Length1 && (x, y) in rendered {
        imgMask[x, y] := true;
      }
      ghost var target := DrawnShape(b, tile, rendered);
      forall x, y | 0 <= x < imgMask.Length0 && 0 <= y < imgMask.Length1
        ensures imgMask[x, y] <==> (x, y) in target.on
      {
      }
      SnapshotInBounds(imgMask);
      assert InBounds(target);
      SnapshotIs(imgMask, target);
    }

    /** The loop over the points of a point ROI, setting each pixel that falls inside the buffer. */
    method MarkPoints(points: seq<Point>, req: TileRequest)
      modifies imgMask
      ensures Snapshot(imgMask) == MarkedPoints(old(Snapshot(imgMask)), points, req)
    {
      ghost var b := Snapshot(imgMask);
      forall x, y | 0 <= x < imgMask.Length0 && 0 <= y < imgMask.Length1
        ensures imgMask[x, y] <==> (x, y) in b.on
      {
        SnapshotAt(imgMask, x, y);
      }
      assert b.on + PointPixels(points[..0], req, b.width, b.height) == b.on;
      for i := 0 to |points|
        invariant forall x, y :: 0 <= x < imgMask.Length0 && 0 <= y < imgMask.Length1 ==>
                    (imgMask[x, y] <==> (x, y) in b.on + PointPixels(points[..i], req, b.width, b.height))
      {
        assert points[..i + 1][..i] == points[..i];
        var q := PointPixel(points[i], req);
        if q.0 >= 0 && q.1 >= 0 && q.0 < imgMask.Length0 && q.1 < imgMask.Length1 {
          imgMask[q.0, q.1] := true;
        }
      }
      assert points[..|points|] == points;
      ghost var target := MarkedPoints(b, points, req);
      SnapshotInBounds(imgMask);
      forall q | q in PointPixels(points, req, b.width, b.height)
        ensures InRect(q, b.width, b.height)
      {
        PointPixelsExact(points, req, b.width, b.height, q);
      }
      SnapshotIs(imgMask, target);
    }

    /** The body of the counting loops for one masked pixel; true when it throws (a missing class, band or channel). */
    method CountPixel(counts: array<int>, tile: Tile, kind: ChannelType, x: int, y: int) returns (failed: bool)
      requires kind.Classification? || kind.Probability?
      modifies counts
      ensures var c := PixelClass(tile, kind, counts.Length, x, y);
              (failed <==> c.None?)
              && (c.None? ==> counts[..] == old(counts[..]))
              && (c.Some? ==> counts[..] == old(counts[..])[c.value := old(counts[c.value]) + 1])
    {
      var ind: nat;
      if kind == Classification {
        var sample := tile.classIndex(x, y);
        if !(0 <= sample < counts.Length) {
          // counts[ind]++ throws
          return true;
        }
        ind := sample;
      } else {
        var nChannels := Min(counts.Length, tile.numBands);
        if nChannels == 0 {
          // band 0 or counts[0] does not exist
          return true;
        }
        ind := MaxChannel(tile, x, y, nChannels);
      }
      counts[ind] := counts[ind] + 1;
      failed := false;
    }

    /** The counting loops of one tile under the try block; an exception ends them with the counts so far. */
    method CountTile(counts: array<int>, total: int, tile: Tile, kind: ChannelType) returns (newTotal: int)
      requires kind.Classification? || kind.Probability?
      requires imgMask.Length0 >= tile.width && imgMask.Length1 >= tile.height
      modifies counts
      ensures var s := TileScan(Tally(old(counts[..]), total, false), tile, Snapshot(imgMask).on, kind, tile.height);
              counts[..] == s.counts && newTotal == s.total
    {
      ghost var s0 := Tally(counts[..], total, false);
      ghost var mask := Snapshot(imgMask).on;
      newTotal := total;
      for y := 0 to tile.height
        invariant Tally(counts[..], newTotal, false) == TileScan(s0, tile, mask, kind, y)
      {
        for x := 0 to tile.width
          invariant Tally(counts[..], newTotal, false)
                    == RowScan(TileScan(s0, tile, mask, kind, y), tile, mask, kind, y, x)
        {
          SnapshotAt(imgMask, x, y);
          if !imgMask[x, y] {
            continue;
          }
          var failed := CountPixel(counts, tile, kind, x, y);
          if failed {
            // the exception is caught for the whole tile
            FailureEndsTile(s0, tile, mask, kind, y, x);
            return;
          }
          newTotal := newTotal + 1;
        }
      }
    }

    /** One pass of the tile loop for a classification or probability output: draw the tile's mask, then count the tile. */
    method CountNextTile(roi: Roi, req: TileRequest, tile: Tile, kind: ChannelType, counts: array<int>, total: int)
      returns (newTotal: int)
      requires kind.Classification? || kind.Probability?
      modifies this`imgMask, imgMask, counts
      ensures imgMask == old(imgMask) || fresh(imgMask)
      ensures var m := PrepareMask(old(Snapshot(imgMask)), roi.kind, roi.points, req, tile, render(roi, req));
              var s := TileScan(Tally(old(counts[..]), total, false), tile, m.on, kind, tile.height);
              Snapshot(imgMask) == m && counts[..] == s.counts && newTotal == s.total
    {
      PrepareMaskBuffer(roi, req, tile);
      newTotal := CountTile(counts, total, tile, kind);
    }

    /**
      The loop over the tiles: draw the mask, then count the tile; for an output
      type without a case the loop returns right after the first tile's mask.
    */
    method TallyTiles(roi: Roi, requests: seq<TileRequest>, tiles: seq<Tile>, kind: ChannelType)
      returns (counts: seq<int>, total: int)
      requires |requests| == |tiles| && requests != [] && kind != Feature
      modifies this`imgMask, imgMask
      ensures imgMask == old(imgMask) || fresh(imgMask)
      ensures kind == OtherType ==>
                counts == Zeros(|server.channels|) && total == 0
                && Snapshot(imgMask) == PrepareMask(old(Snapshot(imgMask)), roi.kind, roi.points, requests[0], tiles[0],
                                                    render(roi, requests[0]))
      ensures kind != OtherType ==>
                (Snapshot(imgMask), counts, total)
                == CountTiles(old(Snapshot(imgMask)), Zeros(|server.channels|), 0, roi.kind, roi.points, requests, tiles,
                              Rendering(roi), kind)
    {
      var buffer := new int[|server.channels|](_ => 0);
      total := 0;
      ghost var mask0 := Snapshot(imgMask);
      assert buffer[..] == Zeros(|server.channels|);
      for i := 0 to |requests|
        invariant imgMask == old(imgMask) || fresh(imgMask)
        invariant kind == OtherType ==> i == 0 && Snapshot(imgMask) == mask0
        invariant kind == OtherType ==> buffer[..] == Zeros(|server.channels|) && total == 0
        invariant kind != OtherType ==>
                    CountTiles(mask0, Zeros(|server.channels|), 0, roi.kind, roi.points, requests[..i], tiles[..i],
                               Rendering(roi), kind)
                    == (Snapshot(imgMask), buffer[..], total)
      {
        assert requests[..i + 1][..i] == requests[..i] && tiles[..i + 1][..i] == tiles[..i];
        match kind {
          case Classification =>
            total := CountNextTile(roi, requests[i], tiles[i], kind, buffer, total);
          case Probability =>
            total := CountNextTile(roi, requests[i], tiles[i], kind, buffer, total);
          case OtherType =>
            // the default branch: the (still zero) counts after the first tile's mask
            PrepareMaskBuffer(roi, requests[i], tiles[i]);
            return buffer[..], total;
        }
      }
      assert requests[..|requests|] == requests && tiles[..|requests|] == tiles;
      counts := buffer[..];
    }

    /** calculateMeasurements: the measurement list of a ROI, if every tile it needs is available. */
    method CalculateMeasurements(roi: Roi, cachedOnly: bool) returns (ml: Option<MeasurementList>)
      requires Valid()
      modifies this`imgMask, imgMask, this`measurementNames
      ensures measurementNames == old(measurementNames)
      ensures imgMask == old(imgMask) || fresh(imgMask)
      ensures (ml, Snapshot(imgMask)) == CalculationOf(roi, cachedOnly, old(Snapshot(imgMask)))
    {
      var channels := server.channels;
      var kind := server.channelType;
      if kind == Feature {
        return None;
      }
      var requests := RequestsFor(roi);
      if requests == [] {
        return None;
      }
      var fetched := FetchTiles(requests, cachedOnly);
      if fetched.None? {
        return None;
      }
      var counts, total := TallyTiles(roi, requests, fetched.value, kind);
      var list := UpdateMeasurements(channels, counts, total);
      ml := Some(list);
    }

    /** What getMeasurementValue answers and leaves behind, for a ROI (None standing for null). */
    twostate predicate Answered(roi: Option<Roi>, name: string, cachedOnly: bool, new r: Option<Value>)
      reads this, imgMask
    {
      measurementNames == old(measurementNames)
      && if roi.None? then
           r.None? && measuredROIs == old(measuredROIs) && Snapshot(imgMask) == old(Snapshot(imgMask))
         else if roi.value in old(measuredROIs) then
           r == Some(ValueOf(old(measuredROIs)[roi.value], name))
           && measuredROIs == old(measuredROIs) && Snapshot(imgMask) == old(Snapshot(imgMask))
         else
           var c := CalculationOf(roi.value, cachedOnly, old(Snapshot(imgMask)));
           Snapshot(imgMask) == c.1
           && (c.0.None? ==> r.None? && measuredROIs == old(measuredROIs))
           && (c.0.Some? ==> r == Some(ValueOf(c.0.value, name)) && measuredROIs == old(measuredROIs)[roi.value := c.0.value])
    }

    /** getMeasurementValue(ROI, ...): the cached list's value, else the list is computed and, if there is one, cached. */
    method GetMeasurementValue(roi: Option<Roi>, name: string, cachedOnly: bool) returns (r: Option<Value>)
      requires Valid()
      modifies this`measuredROIs, this`imgMask, imgMask, this`measurementNames
      ensures Valid()
      ensures Answered(roi, name, cachedOnly, r)
    {
      if roi.None? {
        return None;
      }
      var key := roi.value;
      if key in measuredROIs {
        return Some(ValueOf(measuredROIs[key], name));
      }
      ghost var mask0 := Snapshot(imgMask);
      var ml := CalculateMeasurements(key, cachedOnly);
      if ml.None? {
        return None;
      }
      CalculationNames(key, cachedOnly, mask0);
      measuredROIs := measuredROIs[key := ml.value];
      r := Some(ValueOf(ml.value, name));
    }

    /** The ROI measured for a path object: the root ROI for the root object or an object without ROI. */
    function RoiOf(pathObject: PathObject): Option<Roi> {
      if pathObject.roi.None? || pathObject.isRoot then rootROI else pathObject.roi
    }

    /** getMeasurementValue(PathObject, ...). */
    method GetMeasurementValueFor(pathObject: PathObject, name: string, cachedOnly: bool) returns (r: Option<Value>)
      requires Valid()
      modifies this`measuredROIs, this`imgMask, imgMask, this`measurementNames
      ensures Valid()
      ensures Answered(RoiOf(pathObject), name, cachedOnly, r)
    {
      var roi := pathObject.roi;
      if roi.None? || pathObject.isRoot {
        roi := rootROI;
      }
      r := GetMeasurementValue(roi, name, cachedOnly);
    }
  }
}
