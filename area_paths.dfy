/**
  The segment streams of an area ROI's path: splitting a stream into closed
  sub-paths (AWTAreaROI.getVertices), flattening it to a point list
  (AWTAreaROI.getLinearPathPoints), rebuilding a path from vertex lists (the
  AWTAreaROI(AreaROI) constructor) and translating a path.

  A path is the sequence of segments its flattening path iterator yields.
*/
module AreaPaths {
  import opened Common

  /** One segment of a path iterator (SEG_MOVETO, SEG_LINETO, SEG_QUADTO, SEG_CUBICTO, SEG_CLOSE). */
  datatype Segment =
    | MoveTo(p: Point)
    | LineTo(p: Point)
    | QuadTo(c: Point, p: Point)
    | CubicTo(c1: Point, c2: Point, p: Point)
    | Close

  /** The two ways a path stream can make the source throw. */
  datatype PathError =
    | InvalidPolygon     // a segment kind other than MOVETO, LINETO or CLOSE
    | NoCurrentSubPath   // LINETO or CLOSE before any MOVETO (a null vertex list)

  type Path = seq<Segment>
  type SubPaths = seq<seq<Point>>

  /**
    DefaultMutableVertices.close() followed by getVertices(): the vertex list a
    CLOSE turns the list being built into. That class is not part of this model,
    so the splitter takes it as a parameter.
  */
  type Closer = seq<Point> -> seq<Point>

  predicate IsLinear(s: Segment) {
    s.MoveTo? || s.LineTo? || s.Close?
  }

  predicate AllLinear(segs: Path) {
    forall i :: 0 <= i < |segs| ==> IsLinear(segs[i])
  }

  /** Number of CLOSE segments in a stream. */
  function CountClose(segs: Path): nat {
    if segs == [] then 0 else (if segs[0].Close? then 1 else 0) + CountClose(segs[1..])
  }

  // ---------------------------------------------------------------------------
  // Splitting into sub-paths (getVertices)
  // ---------------------------------------------------------------------------

  /** The splitter's state: sub-paths closed so far and the vertex list being built (null before any MOVETO). */
  datatype Splitter = Splitter(closed: SubPaths, current: Option<seq<Point>>)

  /** One iteration of getVertices' loop. */
  function SplitStep(close: Closer, st: Splitter, s: Segment): Result<Splitter, PathError> {
    match s
    case MoveTo(p) => Ok(Splitter(st.closed, Some([p])))
    case LineTo(p) =>
      if st.current.None? then Err(NoCurrentSubPath)
      else Ok(Splitter(st.closed, Some(st.current.value + [p])))
    case Close =>
      if st.current.None? then Err(NoCurrentSubPath)
      else
        var c := close(st.current.value);
        Ok(Splitter(st.closed + [c], Some(c)))
    case _ => Err(InvalidPolygon)
  }

  /** Runs the splitter over a segment stream, stopping at the first error. */
  function Split(close: Closer, st: Splitter, segs: Path): Result<Splitter, PathError>
    decreases |segs|
  {
    if segs == [] then Ok(st)
    else
      match SplitStep(close, st, segs[0])
      case Err(e) => Err(e)
      case Ok(st') => Split(close, st', segs[1..])
  }

  /** The sub-paths getVertices returns for a stream. */
  function VerticesOf(close: Closer, segs: Path): Result<SubPaths, PathError> {
    match Split(close, Splitter([], None), segs)
    case Ok(st) => Ok(st.closed)
    case Err(e) => Err(e)
  }

  /** getVertices: MOVETO starts a fresh vertex list, LINETO appends, CLOSE closes the current list and emits it. */
  method GetVertices(close: Closer, segs: Path) returns (r: Result<SubPaths, PathError>)
    ensures r == VerticesOf(close, segs)
  {
    var verticesList: SubPaths := [];
    var vertices: Option<seq<Point>> := None;
    var i := 0;
    while i < |segs|
      invariant 0 <= i <= |segs|
      invariant Split(close, Splitter([], None), segs) == Split(close, Splitter(verticesList, vertices), segs[i..])
    {
      assert segs[i..][1..] == segs[i + 1..];
      match segs[i] {
        case MoveTo(p) =>
          vertices := Some([p]);
        case LineTo(p) =>
          if vertices.None? {
            return Err(NoCurrentSubPath);
          }
          vertices := Some(vertices.value + [p]);
        case Close =>
          if vertices.None? {
            return Err(NoCurrentSubPath);
          }
          vertices := Some(close(vertices.value));
          verticesList := verticesList + [vertices.value];
        case _ =>
          return Err(InvalidPolygon);
      }
      i := i + 1;
    }
    r := Ok(verticesList);
  }

  /** Split succeeds exactly when every segment is linear and the stream does not start without a MOVETO. */
  lemma {:induction false} SplitOkIff(close: Closer, st: Splitter, segs: Path)
    ensures Split(close, st, segs).Ok? <==>
            AllLinear(segs) && (st.current.None? && segs != [] ==> segs[0].MoveTo?)
    decreases |segs|
  {
    if segs != [] {
      var s := segs[0];
      if IsLinear(s) && !(st.current.None? && !s.MoveTo?) {
        var st' := SplitStep(close, st, s).value;
        SplitOkIff(close, st', segs[1..]);
        assert st'.current.Some?;
        if AllLinear(segs[1..]) {
          forall i | 0 <= i < |segs| ensures IsLinear(segs[i]) {
            if i > 0 { assert segs[i] == segs[1..][i - 1]; }
          }
        }
        assert AllLinear(segs) ==> AllLinear(segs[1..]) by {
          if AllLinear(segs) {
            forall i | 0 <= i < |segs[1..]| ensures IsLinear(segs[1..][i]) {
              assert segs[1..][i] == segs[i + 1];
            }
          }
        }
      }
    }
  }

  /** getVertices throws exactly on a non-linear segment or on a stream that does not open with MOVETO. */
  lemma VerticesOkIff(close: Closer, segs: Path)
    ensures VerticesOf(close, segs).Ok? <==> AllLinear(segs) && (segs != [] ==> segs[0].MoveTo?)
  {
    SplitOkIff(close, Splitter([], None), segs);
  }

  /** Each CLOSE adds exactly one sub-path, nothing else does, and closed sub-paths are never changed. */
  lemma {:induction false} SplitCountsCloses(close: Closer, st: Splitter, segs: Path)
    requires Split(close, st, segs).Ok?
    ensures |Split(close, st, segs).value.closed| == |st.closed| + CountClose(segs)
    ensures st.closed <= Split(close, st, segs).value.closed
    decreases |segs|
  {
    if segs != [] {
      var st' := SplitStep(close, st, segs[0]).value;
      SplitCountsCloses(close, st', segs[1..]);
      assert |st'.closed| == |st.closed| + (if segs[0].Close? then 1 else 0);
      assert st.closed <= st'.closed;
    }
  }

  /** Number of sub-paths getVertices returns is the number of CLOSE segments. */
  lemma VerticesCountIsCloseCount(close: Closer, segs: Path)
    requires VerticesOf(close, segs).Ok?
    ensures |VerticesOf(close, segs).value| == CountClose(segs)
  {
    SplitCountsCloses(close, Splitter([], None), segs);
  }

  /** Running the splitter over a concatenation runs it over each part in turn. */
  lemma {:induction false} SplitAppend(close: Closer, st: Splitter, a: Path, b: Path)
    ensures Split(close, st, a + b) ==
            match Split(close, st, a)
            case Ok(s) => Split(close, s, b)
            case Err(e) => Err(e)
    decreases |a|
  {
    if a != [] {
      assert (a + b)[0] == a[0];
      assert (a + b)[1..] == a[1..] + b;
      match SplitStep(close, st, a[0])
      case Err(e) =>
      case Ok(st') => SplitAppend(close, st', a[1..], b);
    } else {
      assert a + b == b;
    }
  }

  /** A trailing part with no CLOSE closes nothing: an unclosed last sub-path is not returned. */
  lemma TrailingUnclosedDropped(close: Closer, a: Path, t: Path)
    requires VerticesOf(close, a + t).Ok?
    requires CountClose(t) == 0
    ensures VerticesOf(close, a).Ok?
    ensures VerticesOf(close, a + t) == VerticesOf(close, a)
  {
    SplitAppend(close, Splitter([], None), a, t);
    var s := Split(close, Splitter([], None), a).value;
    SplitCountsCloses(close, s, t);
    var r := Split(close, s, t).value.closed;
    assert s.closed <= r && |s.closed| == |r|;
    assert s.closed == r;
  }

  // ---------------------------------------------------------------------------
  // Flattening to points (getLinearPathPoints)
  // ---------------------------------------------------------------------------

  /** The MOVETO and LINETO points of a stream, in order. */
  function PointsOf(segs: Path): seq<Point> {
    if segs == [] then []
    else (if segs[0].MoveTo? || segs[0].LineTo? then [segs[0].p] else []) + PointsOf(segs[1..])
  }

  lemma {:induction false} PointsOfAppend(a: Path, b: Path)
    ensures PointsOf(a + b) == PointsOf(a) + PointsOf(b)
  {
    if a != [] {
      assert (a + b)[0] == a[0];
      assert (a + b)[1..] == a[1..] + b;
      PointsOfAppend(a[1..], b);
    } else {
      assert a + b == b;
    }
  }

  /** getLinearPathPoints: the point list, or the error for a non-linear segment. */
  method GetLinearPathPoints(segs: Path) returns (r: Result<seq<Point>, PathError>)
    ensures r.Ok? <==> AllLinear(segs)
    ensures r.Ok? ==> r.value == PointsOf(segs)
  {
    var points: seq<Point> := [];
    var i := 0;
    while i < |segs|
      invariant 0 <= i <= |segs|
      invariant AllLinear(segs[..i])
      invariant points == PointsOf(segs[..i])
    {
      assert segs[..i + 1] == segs[..i] + [segs[i]];
      PointsOfAppend(segs[..i], [segs[i]]);
      match segs[i] {
        case MoveTo(p) =>
          points := points + [p];
        case LineTo(p) =>
          points := points + [p];
        case Close =>
        case _ =>
          assert !IsLinear(segs[i]);
          return Err(InvalidPolygon);
      }
      i := i + 1;
    }
    assert segs[..i] == segs;
    r := Ok(points);
  }

  // ---------------------------------------------------------------------------
  // Rebuilding a path from vertex lists (the AWTAreaROI(AreaROI) constructor)
  // ---------------------------------------------------------------------------

  /** lineTo for each point. */
  function Lines(ps: seq<Point>): Path {
    if ps == [] then [] else [LineTo(ps[0])] + Lines(ps[1..])
  }

  /** moveTo(first), lineTo(rest), closePath() for a non-empty vertex list; nothing for an empty one. */
  function SubPath(v: seq<Point>): Path {
    if v == [] then [] else [MoveTo(v[0])] + Lines(v[1..]) + [Close]
  }

  /** The path the constructor builds from a list of vertex lists. */
  function PathOf(vs: SubPaths): Path {
    if vs == [] then [] else PathOf(vs[..|vs| - 1]) + SubPath(vs[|vs| - 1])
  }

  /** The non-empty vertex lists, in order. */
  function NonEmpty(vs: SubPaths): SubPaths {
    if vs == [] then []
    else NonEmpty(vs[..|vs| - 1]) + (if vs[|vs| - 1] == [] then [] else [vs[|vs| - 1]])
  }

  /** All vertex lists concatenated. */
  function Flatten(vs: SubPaths): seq<Point> {
    if vs == [] then [] else Flatten(vs[..|vs| - 1]) + vs[|vs| - 1]
  }

  /** The constructor's loops: one sub-path per non-empty vertex list. */
  method BuildPath(vs: SubPaths) returns (path: Path)
    ensures path == PathOf(vs)
  {
    path := [];
    for k := 0 to |vs|
      invariant path == PathOf(vs[..k])
    {
      PathOfSnoc(vs, k);
      var vertices := vs[k];
      if vertices == [] {
        continue;
      }
      var sub := [MoveTo(vertices[0])];
      for i := 1 to |vertices|
        invariant sub == [MoveTo(vertices[0])] + Lines(vertices[1..i])
      {
        LinesSnoc(vertices, i);
        sub := sub + [LineTo(vertices[i])];
      }
      assert vertices[1..|vertices|] == vertices[1..];
      path := path + (sub + [Close]);
    }
    assert vs[..|vs|] == vs;
  }

  lemma PathOfSnoc(vs: SubPaths, k: nat)
    requires k < |vs|
    ensures PathOf(vs[..k + 1]) == PathOf(vs[..k]) + SubPath(vs[k])
  {
    assert vs[..k + 1][..k] == vs[..k];
  }

  lemma LinesSnoc(v: seq<Point>, i: nat)
    requires 1 <= i < |v|
    ensures Lines(v[1..i + 1]) == Lines(v[1..i]) + [LineTo(v[i])]
  {
    assert v[1..i + 1] == v[1..i] + [v[i]];
    LinesAppend(v[1..i], v[i]);
  }

  lemma {:induction false} LinesAppend(ps: seq<Point>, q: Point)
    ensures Lines(ps + [q]) == Lines(ps) + [LineTo(q)]
  {
    if ps != [] {
      assert (ps + [q])[1..] == ps[1..] + [q];
      LinesAppend(ps[1..], q);
    }
  }

  lemma {:induction false} LinesAreLinear(ps: seq<Point>)
    ensures AllLinear(Lines(ps))
    ensures PointsOf(Lines(ps)) == ps
    ensures CountClose(Lines(ps)) == 0
  {
    if ps != [] {
      LinesAreLinear(ps[1..]);
      var l := Lines(ps);
      assert l[1..] == Lines(ps[1..]);
      forall i | 0 <= i < |l| ensures IsLinear(l[i]) {
        if i > 0 { assert l[i] == Lines(ps[1..])[i - 1]; }
      }
    }
  }

  lemma AllLinearAppend(a: Path, b: Path)
    requires AllLinear(a) && AllLinear(b)
    ensures AllLinear(a + b)
  {
    forall i | 0 <= i < |a + b| ensures IsLinear((a + b)[i]) {
      if i >= |a| { assert (a + b)[i] == b[i - |a|]; }
    }
  }

  lemma SubPathFacts(v: seq<Point>)
    ensures AllLinear(SubPath(v))
    ensures PointsOf(SubPath(v)) == v
  {
    if v != [] {
      LinesAreLinear(v[1..]);
      AllLinearAppend([MoveTo(v[0])], Lines(v[1..]));
      AllLinearAppend([MoveTo(v[0])] + Lines(v[1..]), [Close]);
      PointsOfAppend([MoveTo(v[0])], Lines(v[1..]));
      PointsOfAppend([MoveTo(v[0])] + Lines(v[1..]), [Close]);
      assert PointsOf([Close]) == [];
      assert PointsOf([MoveTo(v[0])]) == [v[0]];
      assert [v[0]] + v[1..] == v;
    }
  }

  /** Flattening a rebuilt path gives back the concatenated vertex lists: CLOSE repeats no point. */
  lemma {:induction false} LinearPointsOfPathOf(vs: SubPaths)
    ensures AllLinear(PathOf(vs))
    ensures PointsOf(PathOf(vs)) == Flatten(vs)
  {
    if vs != [] {
      var init, last := vs[..|vs| - 1], vs[|vs| - 1];
      LinearPointsOfPathOf(init);
      SubPathFacts(last);
      AllLinearAppend(PathOf(init), SubPath(last));
      PointsOfAppend(PathOf(init), SubPath(last));
    }
  }

  /** Splitting a chain of LINETOs extends the current vertex list. */
  lemma {:induction false} SplitLines(close: Closer, closed: SubPaths, cur: seq<Point>, ps: seq<Point>)
    ensures Split(close, Splitter(closed, Some(cur)), Lines(ps)) == Ok(Splitter(closed, Some(cur + ps)))
    decreases |ps|
  {
    if ps == [] {
      assert cur + ps == cur;
    } else {
      var l := Lines(ps);
      assert l[0] == LineTo(ps[0]) && l[1..] == Lines(ps[1..]);
      SplitLines(close, closed, cur + [ps[0]], ps[1..]);
      assert cur + [ps[0]] + ps[1..] == cur + ps;
    }
  }

  /** Each vertex list as close() leaves it. */
  function CloseAll(close: Closer, vs: SubPaths): (r: SubPaths)
    ensures |r| == |vs|
  {
    seq(|vs|, i requires 0 <= i < |vs| => close(vs[i]))
  }

  /** A rebuilt sub-path, whatever the splitter held before, closes exactly its vertex list. */
  lemma SplitSubPath(close: Closer, st: Splitter, v: seq<Point>)
    requires v != []
    ensures Split(close, st, SubPath(v)).Ok?
    ensures Split(close, st, SubPath(v)).value.closed == st.closed + [close(v)]
  {
    var head := [MoveTo(v[0])];
    SplitAppend(close, st, head + Lines(v[1..]), [Close]);
    SplitAppend(close, st, head, Lines(v[1..]));
    assert Split(close, st, head) == Ok(Splitter(st.closed, Some([v[0]])));
    SplitLines(close, st.closed, [v[0]], v[1..]);
    assert [v[0]] + v[1..] == v;
  }

  /** Splitting a rebuilt path closes one sub-path per non-empty vertex list. */
  lemma {:induction false} SplitPathOf(close: Closer, vs: SubPaths)
    ensures Split(close, Splitter([], None), PathOf(vs)).Ok?
    ensures Split(close, Splitter([], None), PathOf(vs)).value.closed == CloseAll(close, NonEmpty(vs))
  {
    if vs != [] {
      var init, last := vs[..|vs| - 1], vs[|vs| - 1];
      SplitPathOf(close, init);
      SplitAppend(close, Splitter([], None), PathOf(init), SubPath(last));
      if last != [] {
        SplitSubPath(close, Split(close, Splitter([], None), PathOf(init)).value, last);
        assert CloseAll(close, NonEmpty(init) + [last]) == CloseAll(close, NonEmpty(init)) + [close(last)];
      }
    }
  }

  /** getVertices on a rebuilt path returns the non-empty vertex lists as close() leaves them, and never throws. */
  lemma VerticesOfPathOf(close: Closer, vs: SubPaths)
    ensures VerticesOf(close, PathOf(vs)) == Ok(CloseAll(close, NonEmpty(vs)))
  {
    SplitPathOf(close, vs);
  }

  // ---------------------------------------------------------------------------
  // Translation (new Path2D.Float(shape, translateInstance(dx, dy)))
  // ---------------------------------------------------------------------------

  function TranslatePoint(p: Point, dx: real, dy: real): Point {
    Point(p.x + dx, p.y + dy)
  }

  function TranslateSegment(s: Segment, dx: real, dy: real): Segment {
    match s
    case MoveTo(p) => MoveTo(TranslatePoint(p, dx, dy))
    case LineTo(p) => LineTo(TranslatePoint(p, dx, dy))
    case QuadTo(c, p) => QuadTo(TranslatePoint(c, dx, dy), TranslatePoint(p, dx, dy))
    case CubicTo(c1, c2, p) => CubicTo(TranslatePoint(c1, dx, dy), TranslatePoint(c2, dx, dy), TranslatePoint(p, dx, dy))
    case Close => Close
  }

  function TranslatePath(segs: Path, dx: real, dy: real): (r: Path)
    ensures |r| == |segs|
  {
    seq(|segs|, i requires 0 <= i < |segs| => TranslateSegment(segs[i], dx, dy))
  }

  function TranslatePoints(ps: seq<Point>, dx: real, dy: real): (r: seq<Point>)
    ensures |r| == |ps|
  {
    seq(|ps|, i requires 0 <= i < |ps| => TranslatePoint(ps[i], dx, dy))
  }

  function TranslateSubPaths(vs: SubPaths, dx: real, dy: real): (r: SubPaths)
    ensures |r| == |vs|
  {
    seq(|vs|, i requires 0 <= i < |vs| => TranslatePoints(vs[i], dx, dy))
  }

  /** Translating back by the opposite offset restores the path. */
  lemma TranslateInverse(segs: Path, dx: real, dy: real)
    ensures TranslatePath(TranslatePath(segs, dx, dy), -dx, -dy) == segs
  {
    var r := TranslatePath(TranslatePath(segs, dx, dy), -dx, -dy);
    forall i | 0 <= i < |segs| ensures r[i] == segs[i] {
      match segs[i]
      case MoveTo(p) =>
      case LineTo(p) =>
      case QuadTo(c, p) =>
      case CubicTo(c1, c2, p) =>
      case Close =>
    }
  }

  /** A zero offset leaves the path as it is. The shortcut in translate(0, 0) keeps the ROI's own vertex lists, which the general case would rebuild with getVertices. */
  lemma TranslateZero(segs: Path)
    ensures TranslatePath(segs, 0.0, 0.0) == segs
  {
    var r := TranslatePath(segs, 0.0, 0.0);
    forall i | 0 <= i < |segs| ensures r[i] == segs[i] {
      match segs[i]
      case MoveTo(p) =>
      case LineTo(p) =>
      case QuadTo(c, p) =>
      case CubicTo(c1, c2, p) =>
      case Close =>
    }
  }

  function TranslateSplitter(st: Splitter, dx: real, dy: real): Splitter {
    Splitter(TranslateSubPaths(st.closed, dx, dy),
             if st.current.None? then None else Some(TranslatePoints(st.current.value, dx, dy)))
  }

  /** A close() that does not depend on where the vertex list lies: it commutes with every translation. */
  ghost predicate TranslationInvariant(close: Closer) {
    forall ps: seq<Point>, dx: real, dy: real :: close(TranslatePoints(ps, dx, dy)) == TranslatePoints(close(ps), dx, dy)
  }

  /** close() leaves the list as it is. */
  function KeepOpen(ps: seq<Point>): seq<Point> {
    ps
  }

  /** close() appends the first point again, as the comment above the call in getVertices suggests. */
  function RepeatFirst(ps: seq<Point>): seq<Point> {
    if ps == [] then [] else ps + [ps[0]]
  }

  /** Both readings of close() commute with translation. */
  lemma CandidateClosersTranslate()
    ensures TranslationInvariant(KeepOpen)
    ensures TranslationInvariant(RepeatFirst)
  {
    forall ps: seq<Point>, dx: real, dy: real
      ensures RepeatFirst(TranslatePoints(ps, dx, dy)) == TranslatePoints(RepeatFirst(ps), dx, dy)
    {
      if ps != [] {
        assert TranslatePoints(ps + [ps[0]], dx, dy) == TranslatePoints(ps, dx, dy) + [TranslatePoint(ps[0], dx, dy)];
      }
    }
  }

  /** With a close() that changes nothing, the rebuilt path splits back into exactly its non-empty vertex lists. */
  lemma VerticesOfPathOfKeepOpen(vs: SubPaths)
    ensures VerticesOf(KeepOpen, PathOf(vs)) == Ok(NonEmpty(vs))
  {
    VerticesOfPathOf(KeepOpen, vs);
    assert CloseAll(KeepOpen, NonEmpty(vs)) == NonEmpty(vs);
  }

  /** Splitting a translated stream gives the translated outcome of splitting the original (errors alike). */
  lemma {:induction false} SplitTranslate(close: Closer, st: Splitter, segs: Path, dx: real, dy: real)
    requires TranslationInvariant(close)
    ensures Split(close, TranslateSplitter(st, dx, dy), TranslatePath(segs, dx, dy)) ==
            match Split(close, st, segs)
            case Ok(s) => Ok(TranslateSplitter(s, dx, dy))
            case Err(e) => Err(e)
    decreases |segs|
  {
    if segs != [] {
      var t := TranslatePath(segs, dx, dy);
      assert t[0] == TranslateSegment(segs[0], dx, dy);
      assert t[1..] == TranslatePath(segs[1..], dx, dy);
      var tst := TranslateSplitter(st, dx, dy);
      match SplitStep(close, st, segs[0])
      case Err(e) =>
        assert SplitStep(close, tst, t[0]) == Err(e);
      case Ok(st') =>
        assert SplitStep(close, tst, t[0]) == Ok(TranslateSplitter(st', dx, dy)) by {
          match segs[0]
          case MoveTo(p) =>
            assert TranslatePoints([p], dx, dy) == [TranslatePoint(p, dx, dy)];
          case LineTo(p) =>
            assert TranslatePoints(st.current.value + [p], dx, dy)
                == TranslatePoints(st.current.value, dx, dy) + [TranslatePoint(p, dx, dy)];
          case Close =>
            var c := close(st.current.value);
            assert close(TranslatePoints(st.current.value, dx, dy)) == TranslatePoints(c, dx, dy);
            assert TranslateSubPaths(st.closed + [c], dx, dy)
                == TranslateSubPaths(st.closed, dx, dy) + [TranslatePoints(c, dx, dy)];
        }
        SplitTranslate(close, st', segs[1..], dx, dy);
    }
  }

  /** The vertices of a translated path are the translated vertices; it throws exactly when the original does. */
  lemma VerticesOfTranslate(close: Closer, segs: Path, dx: real, dy: real)
    requires TranslationInvariant(close)
    ensures VerticesOf(close, TranslatePath(segs, dx, dy)) ==
            match VerticesOf(close, segs)
            case Ok(vs) => Ok(TranslateSubPaths(vs, dx, dy))
            case Err(e) => Err(e)
  {
    SplitTranslate(close, Splitter([], None), segs, dx, dy);
    assert TranslateSplitter(Splitter([], None), dx, dy) == Splitter([], None);
  }

  /** Whatever close() does, a translated path throws in getVertices exactly when the original does. */
  lemma VerticesOkTranslate(close: Closer, segs: Path, dx: real, dy: real)
    ensures VerticesOf(close, TranslatePath(segs, dx, dy)).Ok? <==> VerticesOf(close, segs).Ok?
  {
    var t := TranslatePath(segs, dx, dy);
    VerticesOkIff(close, segs);
    VerticesOkIff(close, t);
    forall i | 0 <= i < |segs| ensures IsLinear(t[i]) <==> IsLinear(segs[i]) {
      assert t[i] == TranslateSegment(segs[i], dx, dy);
    }
    if segs != [] {
      assert t[0] == TranslateSegment(segs[0], dx, dy);
    }
  }
}
