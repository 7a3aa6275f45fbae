/**
 * OpenElevationService::enrichGeometry: backfills the missing elevations of
 * a LineString or of every line of a MultiLineString, then smooths every
 * line. Any other geometry is returned untouched and costs no request.
 */
module OpenElevationService {
  import opened Common
  import opened GeoJson
  import opened ElevationLookup
  import opened ElevationBackfill
  import opened ElevationSmoothing

  /** A line after both steps. */
  function EnrichLine(line: Line, lookup: Lookup): (r: Line)
    ensures |r| == |line|
    ensures forall i :: 0 <= i < |r| ==> r[i].x == line[i].x && r[i].y == line[i].y && r[i].z.Some?
  {
    var filled := Backfill(line, lookup);
    forall i | 0 <= i < |filled| ensures Smooth(filled)[i].z.Some? {
      KeepsElevation(filled, i);
    }
    Smooth(filled)
  }

  /** The geometry enrichGeometry returns. */
  function Enriched(geometry: Geometry, lookup: Lookup): (r: Geometry)
    ensures geometry.LineString? ==> r.LineString? && |r.line| == |geometry.line|
    ensures geometry.MultiLineString? ==> r.MultiLineString? && |r.lines| == |geometry.lines|
    ensures geometry.OtherGeometry? ==> r == geometry
  {
    match geometry
    case LineString(line) => LineString(EnrichLine(line, lookup))
    case MultiLineString(lines) =>
      MultiLineString(seq(|lines|, k requires 0 <= k < |lines| => EnrichLine(lines[k], lookup)))
    case OtherGeometry(_) => geometry
  }

  /** The requests enrichGeometry sends: those of each line, line after line. */
  function EnrichRequests(geometry: Geometry): seq<seq<Location>> {
    match geometry
    case LineString(line) => BackfillRequests(line)
    case MultiLineString(lines) => LinesRequests(lines)
    case OtherGeometry(_) => []
  }

  /** The requests of a list of lines, line after line. */
  function LinesRequests(lines: seq<Line>): seq<seq<Location>> {
    Concat(seq(|lines|, k requires 0 <= k < |lines| => BackfillRequests(lines[k])))
  }

  /** The first `foreach` of enrichGeometry on a MultiLineString: every line backfilled. */
  method BackfillLines(lines: seq<Line>, lookup: Lookup)
      returns (coords: seq<Line>, requests: seq<seq<Location>>)
    ensures |coords| == |lines|
    ensures forall k :: 0 <= k < |lines| ==> coords[k] == Backfill(lines[k], lookup)
    ensures requests == LinesRequests(lines)
  {
    coords := lines;
    requests := [];
    var index := 0;
    while index < |lines|
      invariant 0 <= index <= |lines| && |coords| == |lines|
      invariant forall k :: 0 <= k < index ==> coords[k] == Backfill(lines[k], lookup)
      invariant requests == LinesRequests(lines[..index])
    {
      var filled, sent := ProcessPoints(lines[index], lookup);
      LinesRequestsPrefix(lines, index);
      coords := coords[index := filled];
      requests := requests + sent;
      index := index + 1;
    }
    assert lines[..index] == lines;
  }

  lemma LinesRequestsPrefix(lines: seq<Line>, index: nat)
    requires index < |lines|
    ensures LinesRequests(lines[..index + 1]) == LinesRequests(lines[..index]) + BackfillRequests(lines[index])
  {
    LinesRequestsSnoc(lines[..index], lines[index]);
    assert lines[..index + 1] == lines[..index] + [lines[index]];
  }

  lemma LinesRequestsSnoc(lines: seq<Line>, line: Line)
    ensures LinesRequests(lines + [line]) == LinesRequests(lines) + BackfillRequests(line)
  {
    var each := seq(|lines|, k requires 0 <= k < |lines| => BackfillRequests(lines[k]));
    ConcatAppend(each, [BackfillRequests(line)]);
    assert each + [BackfillRequests(line)]
        == seq(|lines + [line]|, k requires 0 <= k < |lines + [line]| => BackfillRequests((lines + [line])[k]));
  }

  /** The second `foreach` of enrichGeometry on a MultiLineString: every line smoothed. */
  method SmoothLines(coords: seq<Line>) returns (out: seq<Line>)
    ensures |out| == |coords|
    ensures forall k :: 0 <= k < |coords| ==> out[k] == Smooth(coords[k])
  {
    out := coords;
    var index := 0;
    while index < |coords|
      invariant 0 <= index <= |coords| && |out| == |coords|
      invariant forall k :: 0 <= k < index ==> out[k] == Smooth(coords[k])
    {
      var smoothed := ApplySmoothing(coords[index]);
      out := out[index := smoothed];
      index := index + 1;
    }
  }

  /** enrichGeometry: first every line is backfilled, then every line is smoothed. */
  method EnrichGeometry(geometry: Geometry, lookup: Lookup)
      returns (result: Geometry, requests: seq<seq<Location>>)
    ensures result == Enriched(geometry, lookup)
    ensures requests == EnrichRequests(geometry)
  {
    match geometry {
      case LineString(line) =>
        var filled;
        filled, requests := ProcessPoints(line, lookup);
        var smoothed := ApplySmoothing(filled);
        result := LineString(smoothed);
      case MultiLineString(lines) =>
        var coords;
        coords, requests := BackfillLines(lines, lookup);
        var out := SmoothLines(coords);
        assert out == seq(|lines|, k requires 0 <= k < |lines| => EnrichLine(lines[k], lookup));
        result := MultiLineString(out);
      case OtherGeometry(_) =>
        result, requests := geometry, [];
    }
  }

  // ---------------------------------------------------------------------
  // Properties of the specification
  // ---------------------------------------------------------------------

  /** After enrichment every point of a LineString or MultiLineString has an elevation. */
  lemma FullyElevated(geometry: Geometry, lookup: Lookup)
    ensures Enriched(geometry, lookup).LineString? ==>
      forall i :: 0 <= i < |Enriched(geometry, lookup).line| ==> Enriched(geometry, lookup).line[i].z.Some?
    ensures Enriched(geometry, lookup).MultiLineString? ==>
      forall k, i :: 0 <= k < |Enriched(geometry, lookup).lines| && 0 <= i < |Enriched(geometry, lookup).lines[k]| ==>
        Enriched(geometry, lookup).lines[k][i].z.Some?
  {
  }

  /** Enriching an enriched geometry sends no request at all. */
  lemma ReEnrichSendsNothing(geometry: Geometry, lookup: Lookup)
    ensures EnrichRequests(Enriched(geometry, lookup)) == []
  {
    match geometry {
      case LineString(line) =>
        NothingMissing(EnrichLine(line, lookup));
      case MultiLineString(lines) =>
        var out := Enriched(geometry, lookup).lines;
        var each := seq(|out|, k requires 0 <= k < |out| => BackfillRequests(out[k]));
        forall k | 0 <= k < |out| ensures each[k] == [] {
          NothingMissing(out[k]);
        }
        AllEmptyConcat(each);
      case OtherGeometry(_) =>
    }
  }

  lemma {:induction false} AllEmptyConcat<T>(ss: seq<seq<T>>)
    requires forall k :: 0 <= k < |ss| ==> ss[k] == []
    ensures Concat(ss) == []
  {
    if ss != [] {
      AllEmptyConcat(ss[1..]);
    }
  }
}
