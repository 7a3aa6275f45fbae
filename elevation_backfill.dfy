/**
 * OpenElevationService::processPoints: fills in the elevation of the points
 * of one line that have none, keeping every other point as it is.
 */
module ElevationBackfill {
  import opened Common
  import opened GeoJson
  import opened ElevationLookup

  /** The points that lack an elevation, in line order. */
  function Missing(points: seq<Point>): (r: seq<Point>)
    ensures |r| <= |points|
    ensures forall k :: 0 <= k < |r| ==> r[k].z.None?
  {
    if points == [] then []
    else
      var last := points[|points| - 1];
      Missing(points[..|points| - 1]) + (if last.z.None? then [last] else [])
  }

  lemma {:induction false} MissingAppend(a: seq<Point>, b: seq<Point>)
    ensures Missing(a + b) == Missing(a) + Missing(b)
    decreases |b|
  {
    if b == [] {
      assert a + b == a;
    } else {
      var c := b[..|b| - 1];
      assert (a + b)[..|a + b| - 1] == a + c;
      MissingAppend(a, c);
    }
  }

  lemma MissingStep(points: seq<Point>, j: nat)
    requires j < |points|
    ensures Missing(points[..j + 1]) == Missing(points[..j]) + (if points[j].z.None? then [points[j]] else [])
  {
    assert points[..j + 1][..j] == points[..j];
  }

  /** The position of point i among the points that are fetched. */
  function MissingRank(points: seq<Point>, i: nat): (k: nat)
    requires i < |points| && points[i].z.None?
    ensures k < |Missing(points)| && Missing(points)[k] == points[i]
  {
    assert points == points[..i] + points[i..];
    MissingAppend(points[..i], points[i..]);
    assert points[i..] == [points[i]] + points[i + 1..];
    MissingAppend([points[i]], points[i + 1..]);
    assert [points[i]][..0] == [];
    |Missing(points[..i])|
  }

  /**
   * The line after processPoints: every point that had no elevation gets the
   * one looked up for it; when no point lacks one, the line is returned as is.
   */
  function Backfill(points: seq<Point>, lookup: Lookup): (r: seq<Point>)
    ensures |r| == |points|
    ensures forall i :: 0 <= i < |r| ==>
      r[i].x == points[i].x && r[i].y == points[i].y && r[i].z.Some?
    ensures forall i :: 0 <= i < |r| && points[i].z.Some? ==> r[i] == points[i]
  {
    var fetch := Missing(points);
    if fetch == [] then
      assert forall i :: 0 <= i < |points| ==> points[i].z.Some? by {
        forall i | 0 <= i < |points| ensures points[i].z.Some? {
          if points[i].z.None? {
            var k := MissingRank(points, i);
          }
        }
      }
      points
    else
      seq(|points|, i requires 0 <= i < |points| =>
        if points[i].z.Some? then points[i]
        else points[i].(z := Some(ElevationAt(fetch, lookup, MissingRank(points, i)))))
  }

  /** The requests processPoints sends: none when nothing is missing. */
  function BackfillRequests(points: seq<Point>): (r: seq<seq<Location>>)
    ensures Concat(r) == Locations(Missing(points))
  {
    RequestsCoverAll(Missing(points));
    Requests(Missing(points))
  }

  /** The points of the first j that are fetched, and where each came from. */
  predicate Collected(points: seq<Point>, j: nat, toFetch: seq<Point>, indices: seq<nat>)
    requires j <= |points|
  {
    && toFetch == Missing(points[..j])
    && |indices| == |toFetch|
    && (forall t :: 0 <= t < |indices| ==>
          indices[t] < j && points[indices[t]].z.None? && |Missing(points[..indices[t]])| == t)
    && (forall i :: 0 <= i < j && points[i].z.None? ==>
          |Missing(points[..i])| < |indices| && indices[|Missing(points[..i])|] == i)
  }

  /** Step 1 of processPoints: the points to fetch and the index each came from. */
  method CollectMissing(points: seq<Point>) returns (toFetch: seq<Point>, indices: seq<nat>)
    ensures toFetch == Missing(points)
    ensures |indices| == |toFetch|
    ensures forall t :: 0 <= t < |indices| ==>
      indices[t] < |points| && points[indices[t]].z.None? && |Missing(points[..indices[t]])| == t
    ensures forall i :: 0 <= i < |points| && points[i].z.None? ==>
      |Missing(points[..i])| < |indices| && indices[|Missing(points[..i])|] == i
  {
    toFetch, indices := [], [];
    var j := 0;
    while j < |points|
      invariant 0 <= j <= |points|
      invariant Collected(points, j, toFetch, indices)
    {
      toFetch, indices := CollectPoint(points, j, toFetch, indices);
      j := j + 1;
    }
    assert points[..j] == points;
  }

  /** One turn of the collecting loop: point j is taken when it has no elevation. */
  method CollectPoint(points: seq<Point>, j: nat, toFetch: seq<Point>, indices: seq<nat>)
      returns (toFetch': seq<Point>, indices': seq<nat>)
    requires j < |points| && Collected(points, j, toFetch, indices)
    ensures Collected(points, j + 1, toFetch', indices')
  {
    MissingStep(points, j);
    toFetch', indices' := toFetch, indices;
    if points[j].z.None? {
      toFetch' := toFetch + [points[j]];
      indices' := indices + [j];
      TakePoint(points, j, toFetch, indices);
    }
  }

  /** A point j without elevation is fetched as entry number |Missing(points[..j])|. */
  lemma TakePoint(points: seq<Point>, j: nat, toFetch: seq<Point>, indices: seq<nat>)
    requires j < |points| && points[j].z.None? && Collected(points, j, toFetch, indices)
    requires Missing(points[..j + 1]) == toFetch + [points[j]]
    ensures Collected(points, j + 1, toFetch + [points[j]], indices + [j])
  {
    var m := indices + [j];
    assert |Missing(points[..j])| == |indices|;
    forall i | 0 <= i < j + 1 && points[i].z.None?
      ensures |Missing(points[..i])| < |m| && m[|Missing(points[..i])|] == i
    {
      if i < j {
        assert m[|Missing(points[..i])|] == indices[|Missing(points[..i])|];
      }
    }
  }

  /** processPoints: the backfilled line and the requests sent for it. */
  method ProcessPoints(points: seq<Point>, lookup: Lookup)
      returns (result: seq<Point>, requests: seq<seq<Location>>)
    ensures result == Backfill(points, lookup)
    ensures requests == BackfillRequests(points)
  {
    var toFetch, indices := CollectMissing(points);
    if toFetch == [] {
      return points, [];
    }
    var elevations;
    elevations, requests := GetElevationData(toFetch, lookup);
    result := points;
    var t := 0;
    while t < |indices|
      invariant 0 <= t <= |indices|
      invariant |result| == |points|
      invariant forall i :: 0 <= i < |points| ==>
        result[i] == if points[i].z.None? && MissingRank(points, i) < t
                     then points[i].(z := Some(elevations[MissingRank(points, i)])) else points[i]
    {
      var index := indices[t];
      result := result[index := result[index].(z := Some(elevations[t]))];
      t := t + 1;
    }
  }

  // ---------------------------------------------------------------------
  // Properties of the specification
  // ---------------------------------------------------------------------

  /** A line is only looked up once: backfilling a backfilled line changes nothing and sends nothing. */
  lemma BackfillIdempotent(points: seq<Point>, first: Lookup, second: Lookup)
    ensures Backfill(Backfill(points, first), second) == Backfill(points, first)
    ensures BackfillRequests(Backfill(points, first)) == []
  {
    var once := Backfill(points, first);
    NothingMissing(once);
  }

  lemma {:induction false} NothingMissing(points: seq<Point>)
    requires forall i :: 0 <= i < |points| ==> points[i].z.Some?
    ensures Missing(points) == []
  {
    if points != [] {
      NothingMissing(points[..|points| - 1]);
    }
  }

  /**
   * A point without elevation whose latitude and longitude are finite gets
   * the elevation the service gives for its own location.
   */
  lemma BackfillAligned(points: seq<Point>, lookup: Lookup, elevationOf: Location -> real, i: nat)
    requires i < |points| && points[i].z.None? && Planar(points[i])
    requires forall locs: seq<Location> ::
      lookup(locs) == Results(seq(|locs|, k requires 0 <= k < |locs| => Some(elevationOf(locs[k]))))
    ensures Backfill(points, lookup)[i].z == Some(elevationOf(LocationOf(points[i])))
  {
    var k := MissingRank(points, i);
    AlignedAnswers(Missing(points), lookup, elevationOf, k);
  }
}
