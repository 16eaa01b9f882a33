/**
  An area ROI backed by a path (AWTAreaROI): the vertex lists it was built
  from, its path, and shape statistics computed on first use and kept.
*/
module AwtAreaRoi {
  import opened Common
  import opened AreaPaths

  /** Channel, z-slice and timepoint of a ROI. */
  datatype ImagePlane = ImagePlane(c: int, z: int, t: int)

  /** What ClosedShapeStatistics reports; a NaN centroid means the centroid was too hard to compute. */
  datatype ShapeStats = ShapeStats(
    nVertices: int,
    area: real,
    perimeter: real,
    centroidX: Value,
    centroidY: Value,
    boundsX: real,
    boundsY: real,
    boundsWidth: real,
    boundsHeight: real)

  /**
    The collaborators this model does not look inside: ClosedShapeStatistics
    for a path, ClosedShapeStatistics for a path under per-axis pixel scales,
    GeneralTools.almostTheSame(a, b, tolerance), and what
    DefaultMutableVertices.close() does to a vertex list.
  */
  datatype Collaborators = Collaborators(
    statistics: Path -> ShapeStats,
    scaledStatistics: (Path, real, real) -> ShapeStats,
    almostTheSame: (real, real, real) -> bool,
    closeVertices: Closer)

  /** The relative tolerance of the equal-scale shortcut. */
  const ScaleTolerance: real := 0.0001

  /** getCentroidX's answer for given statistics: the centroid, or the centre of the bounds when it is NaN. */
  function CentroidX(s: ShapeStats): (r: real)
    ensures s.centroidX.Val? ==> r == s.centroidX.v
    ensures s.centroidX.NaN? && s.boundsWidth >= 0.0 ==> s.boundsX <= r <= s.boundsX + s.boundsWidth
    ensures s.centroidX.NaN? ==> r - s.boundsX == s.boundsX + s.boundsWidth - r
  {
    match s.centroidX
    case Val(c) => c
    case NaN => s.boundsX + 0.5 * s.boundsWidth
  }

  /** getCentroidY's answer for given statistics: the centroid, or the centre of the bounds when it is NaN. */
  function CentroidY(s: ShapeStats): (r: real)
    ensures s.centroidY.Val? ==> r == s.centroidY.v
    ensures s.centroidY.NaN? && s.boundsHeight >= 0.0 ==> s.boundsY <= r <= s.boundsY + s.boundsHeight
    ensures s.centroidY.NaN? ==> r - s.boundsY == s.boundsY + s.boundsHeight - r
  {
    match s.centroidY
    case Val(c) => c
    case NaN => s.boundsY + 0.5 * s.boundsHeight
  }

  class AWTAreaROI {
    /** The vertex lists held by the AreaROI superclass. */
    const vertices: SubPaths
    const plane: ImagePlane
    /** The path, as its flattening iterator yields it. */
    const shape: Path
    const collab: Collaborators

    /** The lazily computed statistics (null until first needed). */
    var stats: Option<ShapeStats>
    /** How many times the statistics have been computed. */
    ghost var computations: nat

    ghost predicate Valid()
      reads this
    {
      && VerticesOf(collab.closeVertices, shape).Ok?
      && (stats.Some? ==> stats.value == collab.statistics(shape))
      && (stats.None? <==> computations == 0)
      && computations <= 1
    }

    /** AWTAreaROI(Shape, ImagePlane): the vertices are getVertices of the path. */
    constructor FromShape(shape: Path, plane: ImagePlane, collab: Collaborators)
      requires VerticesOf(collab.closeVertices, shape).Ok?
      ensures Valid()
      ensures this.shape == shape && this.plane == plane && this.collab == collab
      ensures vertices == VerticesOf(collab.closeVertices, shape).value
      ensures stats.None?
    {
      var vs := GetVertices(collab.closeVertices, shape);
      this.vertices := vs.value;
      this.plane := plane;
      this.shape := shape;
      this.collab := collab;
      this.stats := None;
      this.computations := 0;
    }

    /** AWTAreaROI(AreaROI): keeps the vertex lists and rebuilds a closed sub-path for each non-empty one. */
    constructor FromAreaRoi(roiVertices: SubPaths, plane: ImagePlane, collab: Collaborators)
      ensures Valid()
      ensures vertices == roiVertices && this.plane == plane && this.collab == collab
      ensures shape == PathOf(roiVertices)
      ensures VerticesOf(collab.closeVertices, shape) == Ok(CloseAll(collab.closeVertices, NonEmpty(roiVertices)))
      ensures AllLinear(shape) && PointsOf(shape) == Flatten(roiVertices)
      ensures stats.None?
    {
      var path := BuildPath(roiVertices);
      VerticesOfPathOf(collab.closeVertices, roiVertices);
      LinearPointsOfPathOf(roiVertices);
      this.vertices := roiVertices;
      this.plane := plane;
      this.shape := path;
      this.collab := collab;
      this.stats := None;
      this.computations := 0;
    }

    /** The statistics are this path's, and they were computed now iff they had not been before. */
    twostate predicate ComputedLazily()
      reads this
    {
      && stats == Some(collab.statistics(shape))
      && computations == old(computations) + (if old(stats).None? then 1 else 0)
    }

    /** calculateShapeMeasurements */
    method CalculateShapeMeasurements()
      requires Valid() && stats.None?
      modifies this`stats, this`computations
      ensures Valid()
      ensures stats == Some(collab.statistics(shape))
      ensures computations == old(computations) + 1
    {
      stats := Some(collab.statistics(shape));
      computations := computations + 1;
    }

    /** The `if (stats == null) calculateShapeMeasurements()` guard every accessor starts with. */
    method EnsureStats()
      requires Valid()
      modifies this`stats, this`computations
      ensures Valid() && ComputedLazily()
    {
      if stats.None? {
        CalculateShapeMeasurements();
      }
    }

    method NVertices() returns (n: int)
      requires Valid()
      modifies this`stats, this`computations
      ensures Valid() && ComputedLazily()
      ensures n == collab.statistics(shape).nVertices
    {
      EnsureStats();
      n := stats.value.nVertices;
    }

    method GetArea() returns (a: real)
      requires Valid()
      modifies this`stats, this`computations
      ensures Valid() && ComputedLazily()
      ensures a == collab.statistics(shape).area
    {
      EnsureStats();
      a := stats.value.area;
    }

    method GetPerimeter() returns (p: real)
      requires Valid()
      modifies this`stats, this`computations
      ensures Valid() && ComputedLazily()
      ensures p == collab.statistics(shape).perimeter
    {
      EnsureStats();
      p := stats.value.perimeter;
    }

    method GetBoundsX() returns (x: real)
      requires Valid()
      modifies this`stats, this`computations
      ensures Valid() && ComputedLazily()
      ensures x == collab.statistics(shape).boundsX
    {
      EnsureStats();
      x := stats.value.boundsX;
    }

    method GetBoundsY() returns (y: real)
      requires Valid()
      modifies this`stats, this`computations
      ensures Valid() && ComputedLazily()
      ensures y == collab.statistics(shape).boundsY
    {
      EnsureStats();
      y := stats.value.boundsY;
    }

    method GetBoundsWidth() returns (w: real)
      requires Valid()
      modifies this`stats, this`computations
      ensures Valid() && ComputedLazily()
      ensures w == collab.statistics(shape).boundsWidth
    {
      EnsureStats();
      w := stats.value.boundsWidth;
    }

    method GetBoundsHeight() returns (h: real)
      requires Valid()
      modifies this`stats, this`computations
      ensures Valid() && ComputedLazily()
      ensures h == collab.statistics(shape).boundsHeight
    {
      EnsureStats();
      h := stats.value.boundsHeight;
    }

    method GetCentroidX() returns (cx: real)
      requires Valid()
      modifies this`stats, this`computations
      ensures Valid() && ComputedLazily()
      ensures cx == CentroidX(collab.statistics(shape))
    {
      EnsureStats();
      var centroidX := stats.value.centroidX;
      if centroidX.NaN? {
        var bx := GetBoundsX();
        var bw := GetBoundsWidth();
        cx := bx + 0.5 * bw;
      } else {
        cx := centroidX.v;
      }
    }

    method GetCentroidY() returns (cy: real)
      requires Valid()
      modifies this`stats, this`computations
      ensures Valid() && ComputedLazily()
      ensures cy == CentroidY(collab.statistics(shape))
    {
      EnsureStats();
      var centroidY := stats.value.centroidY;
      if centroidY.NaN? {
        var boundsY := GetBoundsY();
        var bh := GetBoundsHeight();
        cy := boundsY + 0.5 * bh;
      } else {
        cy := centroidY.v;
      }
    }

    /** getScaledArea: the equal-scale shortcut uses the (lazily computed) area; otherwise fresh scaled statistics. */
    method GetScaledArea(pixelWidth: real, pixelHeight: real) returns (a: real)
      requires Valid()
      modifies this`stats, this`computations
      ensures Valid()
      ensures collab.almostTheSame(pixelWidth, pixelHeight, ScaleTolerance) ==>
                ComputedLazily() && a == collab.statistics(shape).area * pixelWidth * pixelHeight
      ensures !collab.almostTheSame(pixelWidth, pixelHeight, ScaleTolerance) ==>
                stats == old(stats) && computations == old(computations)
                && a == collab.scaledStatistics(shape, pixelWidth, pixelHeight).area
    {
      if collab.almostTheSame(pixelWidth, pixelHeight, ScaleTolerance) {
        var area := GetArea();
        a := area * pixelWidth * pixelHeight;
      } else {
        a := collab.scaledStatistics(shape, pixelWidth, pixelHeight).area;
      }
    }

    /** getScaledPerimeter: the equal-scale shortcut scales by the mean of the two pixel sizes. */
    method GetScaledPerimeter(pixelWidth: real, pixelHeight: real) returns (p: real)
      requires Valid()
      modifies this`stats, this`computations
      ensures Valid()
      ensures collab.almostTheSame(pixelWidth, pixelHeight, ScaleTolerance) ==>
                ComputedLazily() && p == collab.statistics(shape).perimeter * (pixelWidth + pixelHeight) * 0.5
      ensures !collab.almostTheSame(pixelWidth, pixelHeight, ScaleTolerance) ==>
                stats == old(stats) && computations == old(computations)
                && p == collab.scaledStatistics(shape, pixelWidth, pixelHeight).perimeter
    {
      if collab.almostTheSame(pixelWidth, pixelHeight, ScaleTolerance) {
        var perimeter := GetPerimeter();
        p := perimeter * (pixelWidth + pixelHeight) * 0.5;
      } else {
        p := collab.scaledStatistics(shape, pixelWidth, pixelHeight).perimeter;
      }
    }

    /** translate: the same instance for a zero offset, otherwise a new ROI on the same plane with the path shifted. */
    method Translate(dx: real, dy: real) returns (r: AWTAreaROI)
      requires Valid()
      ensures dx == 0.0 && dy == 0.0 ==> r == this
      ensures !(dx == 0.0 && dy == 0.0) ==>
                && fresh(r) && r.Valid() && r.stats.None?
                && r.shape == TranslatePath(shape, dx, dy)
                && r.plane == plane && r.collab == collab
                && r.vertices == VerticesOf(collab.closeVertices, TranslatePath(shape, dx, dy)).value
      ensures !(dx == 0.0 && dy == 0.0) && TranslationInvariant(collab.closeVertices) ==>
                r.vertices == TranslateSubPaths(VerticesOf(collab.closeVertices, shape).value, dx, dy)
    {
      if dx == 0.0 && dy == 0.0 {
        return this;
      }
      VerticesOkTranslate(collab.closeVertices, shape, dx, dy);
      if TranslationInvariant(collab.closeVertices) {
        VerticesOfTranslate(collab.closeVertices, shape, dx, dy);
      }
      r := new AWTAreaROI.FromShape(TranslatePath(shape, dx, dy), plane, collab);
    }

    /** duplicate: a new ROI from the same path and plane, with its own (not yet computed) statistics. */
    method Duplicate() returns (r: AWTAreaROI)
      requires Valid()
      ensures fresh(r) && r.Valid() && r.stats.None?
      ensures r.shape == shape && r.plane == plane && r.collab == collab
      ensures r.vertices == VerticesOf(collab.closeVertices, shape).value
    {
      r := new AWTAreaROI.FromShape(shape, plane, collab);
    }

    /** getPolygonPoints: the MOVETO/LINETO points of the path; never throws for a valid ROI. */
    method GetPolygonPoints() returns (points: seq<Point>)
      requires Valid()
      ensures points == PointsOf(shape)
    {
      VerticesOkIff(collab.closeVertices, shape);
      var r := GetLinearPathPoints(shape);
      points := r.value;
    }
  }

  /** The throwing AWTAreaROI(Shape, ImagePlane) constructor, with the exception as an error value. */
  method CreateFromShape(shape: Path, plane: ImagePlane, collab: Collaborators) returns (r: Result<AWTAreaROI, PathError>)
    ensures r.Ok? <==> VerticesOf(collab.closeVertices, shape).Ok?
    ensures r.Err? ==> r.error == VerticesOf(collab.closeVertices, shape).error
    ensures r.Ok? ==> fresh(r.value) && r.value.Valid() && r.value.shape == shape && r.value.plane == plane
  {
    var vs := GetVertices(collab.closeVertices, shape);
    if vs.Err? {
      return Err(vs.error);
    }
    var roi := new AWTAreaROI.FromShape(shape, plane, collab);
    r := Ok(roi);
  }

  /** Translating by an offset and back gives a path equal to the original, so the same statistics. */
  lemma TranslateRoundTripStats(collab: Collaborators, shape: Path, dx: real, dy: real)
    ensures collab.statistics(TranslatePath(TranslatePath(shape, dx, dy), -dx, -dy)) == collab.statistics(shape)
  {
    TranslateInverse(shape, dx, dy);
  }
}
