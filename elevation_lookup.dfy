/**
 * OpenElevationService::getElevationData: batched elevation lookup.
 *
 * The points are cut into batches of 1000 in input order. For each batch the
 * points whose latitude and longitude are both finite are sent in one
 * request, and the i-th value of the reply is written back to the i-th
 * point sent. Anything that goes wrong (a non-finite point, a failed
 * request, a short reply, a null elevation) leaves 0 in that position.
 *
 * The lookup service is a parameter: a function from a request payload to a
 * reply, where `Failed` stands for an exception thrown by the HTTP client.
 */
module ElevationLookup {
  import opened Common
  import opened GeoJson

  /** Number of points per request batch. */
  const ChunkSize: nat := 1000

  datatype Location = Location(latitude: real, longitude: real)

  /** The lookup outcome: a thrown exception, or the `results` list (missing = empty). */
  datatype Reply = Failed | Results(elevations: seq<Option<real>>)

  type Lookup = seq<Location> -> Reply

  function Min(a: int, b: int): int {
    if a <= b then a else b
  }

  /** The request entry for a point: latitude from index 1, longitude from index 0. */
  function LocationOf(p: Point): Location
    requires Planar(p)
  {
    Location(p.y.value, p.x.value)
  }

  /** The payload sent for a run of points: the finite ones, in order. */
  function Locations(points: seq<Point>): (r: seq<Location>)
    ensures |r| <= |points|
  {
    if points == [] then []
    else
      var last := points[|points| - 1];
      Locations(points[..|points| - 1]) + (if Planar(last) then [LocationOf(last)] else [])
  }

  /** First index of the batch holding index i. */
  function BatchStart(i: nat): (s: nat)
    ensures s <= i < s + ChunkSize
  {
    i - i % ChunkSize
  }

  /** The position of point i in its batch's request: the finite points before it in the batch. */
  function Rank(coords: seq<Point>, start: nat, i: nat): nat
    requires start <= i <= |coords|
  {
    |Locations(coords[start..i])|
  }

  /** The value kept for the k-th point of a request. */
  function Answer(reply: Reply, k: nat): real {
    match reply
    case Failed => 0.0
    case Results(vs) => if k < |vs| then vs[k].GetOr(0.0) else 0.0
  }

  /** The elevation produced for index i of the input. */
  function ElevationAt(coords: seq<Point>, lookup: Lookup, i: nat): real
    requires i < |coords|
  {
    if !Planar(coords[i]) then 0.0
    else
      var s := BatchStart(i);
      var e := Min(s + ChunkSize, |coords|);
      Answer(lookup(Locations(coords[s..e])), Rank(coords, s, i))
  }

  /** The requests sent: one per batch that has a finite point, in batch order. */
  function Requests(coords: seq<Point>): (r: seq<seq<Location>>)
    ensures forall k :: 0 <= k < |r| ==> 0 < |r[k]| <= ChunkSize
    decreases |coords|
  {
    if coords == [] then []
    else
      var m := Min(ChunkSize, |coords|);
      var locs := Locations(coords[..m]);
      (if locs == [] then [] else [locs]) + Requests(coords[m..])
  }

  /** Builds the payload of one batch and remembers which input index each entry came from. */
  method BuildPayload(coords: seq<Point>, start: nat, end: nat)
      returns (locations: seq<Location>, mapIndex: seq<nat>)
    requires start <= end <= |coords|
    ensures locations == Locations(coords[start..end])
    ensures |mapIndex| == |locations|
    ensures forall k :: 0 <= k < |mapIndex| ==>
      start <= mapIndex[k] < end && Planar(coords[mapIndex[k]]) && Rank(coords, start, mapIndex[k]) == k
    ensures forall i :: start <= i < end && Planar(coords[i]) ==>
      Rank(coords, start, i) < |mapIndex| && mapIndex[Rank(coords, start, i)] == i
  {
    locations, mapIndex := [], [];
    var j := start;
    while j < end
      invariant start <= j <= end
      invariant Payload(coords, start, j, locations, mapIndex)
    {
      locations, mapIndex := AddPoint(coords, start, j, locations, mapIndex);
      j := j + 1;
    }
  }

  /** The payload of the points [start, j) and the input index of each of its entries. */
  predicate Payload(coords: seq<Point>, start: nat, j: nat, locations: seq<Location>, mapIndex: seq<nat>)
    requires start <= j <= |coords|
  {
    && locations == Locations(coords[start..j])
    && |mapIndex| == |locations|
    && (forall k :: 0 <= k < |mapIndex| ==>
          start <= mapIndex[k] < j && Planar(coords[mapIndex[k]]) && Rank(coords, start, mapIndex[k]) == k)
    && (forall i :: start <= i < j && Planar(coords[i]) ==>
          Rank(coords, start, i) < |mapIndex| && mapIndex[Rank(coords, start, i)] == i)
  }

  /** One turn of the payload loop: point j is sent when it is finite. */
  method AddPoint(coords: seq<Point>, start: nat, j: nat, locations: seq<Location>, mapIndex: seq<nat>)
      returns (locations': seq<Location>, mapIndex': seq<nat>)
    requires start <= j < |coords| && Payload(coords, start, j, locations, mapIndex)
    ensures Payload(coords, start, j + 1, locations', mapIndex')
  {
    LocationsStep(coords, start, j);
    locations', mapIndex' := locations, mapIndex;
    if Planar(coords[j]) {
      locations' := locations + [LocationOf(coords[j])];
      mapIndex' := mapIndex + [j];
      SendPoint(coords, start, j, locations, mapIndex);
    }
  }

  /** A finite point j is sent as entry number Rank(coords, start, j) of the payload. */
  lemma SendPoint(coords: seq<Point>, start: nat, j: nat, locations: seq<Location>, mapIndex: seq<nat>)
    requires start <= j < |coords| && Planar(coords[j]) && Payload(coords, start, j, locations, mapIndex)
    requires Locations(coords[start..j + 1]) == locations + [LocationOf(coords[j])]
    ensures Payload(coords, start, j + 1, locations + [LocationOf(coords[j])], mapIndex + [j])
  {
    var m := mapIndex + [j];
    assert Rank(coords, start, j) == |mapIndex|;
    forall i | start <= i < j + 1 && Planar(coords[i])
      ensures Rank(coords, start, i) < |m| && m[Rank(coords, start, i)] == i
    {
      if i < j {
        assert m[Rank(coords, start, i)] == mapIndex[Rank(coords, start, i)];
      }
    }
  }

  /** The payload of a run grows by the next point when that point is finite. */
  lemma LocationsStep(coords: seq<Point>, start: nat, j: nat)
    requires start <= j < |coords|
    ensures Locations(coords[start..j + 1]) ==
      Locations(coords[start..j]) + (if Planar(coords[j]) then [LocationOf(coords[j])] else [])
  {
    assert coords[start..j + 1][..j - start] == coords[start..j];
  }

  /** Writes the reply values back to the input indices they belong to. */
  method Scatter(coords: seq<Point>, start: nat, end: nat, mapIndex: seq<nat>,
                 vs: seq<Option<real>>, elevations: array<real>)
    modifies elevations
    requires start <= end <= |coords| == elevations.Length
    requires forall k :: 0 <= k < |mapIndex| ==>
      start <= mapIndex[k] < end && Planar(coords[mapIndex[k]]) && Rank(coords, start, mapIndex[k]) == k
    requires forall i :: start <= i < end && Planar(coords[i]) ==>
      Rank(coords, start, i) < |mapIndex| && mapIndex[Rank(coords, start, i)] == i
    requires forall i :: start <= i < end ==> elevations[i] == 0.0
    ensures forall i :: start <= i < end ==>
      elevations[i] == if Planar(coords[i]) then Answer(Results(vs), Rank(coords, start, i)) else 0.0
    ensures forall i :: 0 <= i < elevations.Length && !(start <= i < end) ==>
      elevations[i] == old(elevations[i])
  {
    var apiIndex := 0;
    while apiIndex < |vs|
      invariant 0 <= apiIndex <= |vs|
      invariant forall i :: start <= i < end ==>
        elevations[i] == if Planar(coords[i]) && Rank(coords, start, i) < apiIndex
                         then vs[Rank(coords, start, i)].GetOr(0.0) else 0.0
      invariant forall i :: 0 <= i < elevations.Length && !(start <= i < end) ==>
        elevations[i] == old(elevations[i])
    {
      if apiIndex < |mapIndex| {
        elevations[mapIndex[apiIndex]] := vs[apiIndex].GetOr(0.0);
      }
      apiIndex := apiIndex + 1;
    }
  }

  /** One pass of the `foreach ($chunks ...)` loop: the batch [start, end). */
  method ProcessBatch(coords: seq<Point>, lookup: Lookup, start: nat, end: nat, elevations: array<real>)
      returns (sent: seq<seq<Location>>)
    modifies elevations
    requires start % ChunkSize == 0 && start < |coords| == elevations.Length
    requires end == Min(start + ChunkSize, |coords|)
    requires forall i :: start <= i < end ==> elevations[i] == 0.0
    ensures forall i :: start <= i < end ==> elevations[i] == ElevationAt(coords, lookup, i)
    ensures forall i :: 0 <= i < elevations.Length && !(start <= i < end) ==>
      elevations[i] == old(elevations[i])
    ensures sent == if Locations(coords[start..end]) == [] then [] else [Locations(coords[start..end])]
  {
    var locations, mapIndex := BuildPayload(coords, start, end);
    sent := [];
    if locations != [] {
      sent := [locations];
      var reply := lookup(locations);
      if reply.Results? {
        Scatter(coords, start, end, mapIndex, reply.elevations, elevations);
      }
    }
    forall i | start <= i < end
      ensures elevations[i] == ElevationAt(coords, lookup, i)
    {
      BatchElevation(coords, lookup, start, end, i);
    }
  }

  /**
   * getElevationData: one elevation per input point, in input order, and
   * the requests that were sent.
   */
  method GetElevationData(coords: seq<Point>, lookup: Lookup)
      returns (elevations: seq<real>, requests: seq<seq<Location>>)
    ensures |elevations| == |coords|
    ensures forall i :: 0 <= i < |coords| ==> elevations[i] == ElevationAt(coords, lookup, i)
    ensures requests == Requests(coords)
  {
    var n := |coords|;
    var finalElevations := new real[n](_ => 0.0);
    requests := [];
    var start := 0;
    while start < n
      invariant 0 <= start <= n
      invariant start % ChunkSize == 0 || start == n
      invariant requests + Requests(coords[start..]) == Requests(coords)
      invariant forall i :: 0 <= i < start ==> finalElevations[i] == ElevationAt(coords, lookup, i)
      invariant forall i :: start <= i < n ==> finalElevations[i] == 0.0
      decreases n - start
    {
      start, requests := NextBatch(coords, lookup, start, finalElevations, requests);
    }
    elevations := finalElevations[..];
  }

  /** The body of the batch loop: the batch from `start` is looked up and its requests recorded. */
  method NextBatch(coords: seq<Point>, lookup: Lookup, start: nat, elevations: array<real>,
                   requests: seq<seq<Location>>)
      returns (end: nat, sentSoFar: seq<seq<Location>>)
    modifies elevations
    requires start < |coords| == elevations.Length && start % ChunkSize == 0
    requires requests + Requests(coords[start..]) == Requests(coords)
    requires forall i :: 0 <= i < start ==> elevations[i] == ElevationAt(coords, lookup, i)
    requires forall i :: start <= i < |coords| ==> elevations[i] == 0.0
    ensures start < end <= |coords| && (end % ChunkSize == 0 || end == |coords|)
    ensures sentSoFar + Requests(coords[end..]) == Requests(coords)
    ensures forall i :: 0 <= i < end ==> elevations[i] == ElevationAt(coords, lookup, i)
    ensures forall i :: end <= i < |coords| ==> elevations[i] == 0.0
  {
    end := Min(start + ChunkSize, |coords|);
    NextBatchStart(start, |coords|);
    var sent := ProcessBatch(coords, lookup, start, end, elevations);
    RequestsAdvance(coords, start, end, requests, sent);
    sentSoFar := requests + sent;
  }

  /** After a batch, the requests so far and those of the rest still make up all requests. */
  lemma RequestsAdvance(coords: seq<Point>, start: nat, end: nat, requests: seq<seq<Location>>,
                        sent: seq<seq<Location>>)
    requires start < |coords| && end == Min(start + ChunkSize, |coords|)
    requires requests + Requests(coords[start..]) == Requests(coords)
    requires sent == if Locations(coords[start..end]) == [] then [] else [Locations(coords[start..end])]
    ensures (requests + sent) + Requests(coords[end..]) == Requests(coords)
  {
    RequestsStep(coords, start, end);
    assert (requests + sent) + Requests(coords[end..]) == requests + (sent + Requests(coords[end..]));
  }

  lemma NextBatchStart(start: nat, n: nat)
    requires start % ChunkSize == 0
    ensures Min(start + ChunkSize, n) % ChunkSize == 0 || Min(start + ChunkSize, n) == n
  {
  }

  /** The requests of the input from `start` on: this batch's, if any, then the rest. */
  lemma RequestsStep(coords: seq<Point>, start: nat, end: nat)
    requires start < |coords| && end == Min(start + ChunkSize, |coords|)
    ensures Requests(coords[start..]) ==
      (if Locations(coords[start..end]) == [] then [] else [Locations(coords[start..end])])
      + Requests(coords[end..])
  {
    assert coords[start..][..end - start] == coords[start..end];
    assert coords[start..][end - start..] == coords[end..];
  }

  /** ElevationAt for an index of the batch that begins at `start`. */
  lemma BatchElevation(coords: seq<Point>, lookup: Lookup, start: nat, end: nat, i: nat)
    requires start % ChunkSize == 0 && end == Min(start + ChunkSize, |coords|) && start <= i < end
    ensures ElevationAt(coords, lookup, i) ==
      if Planar(coords[i]) then Answer(lookup(Locations(coords[start..end])), Rank(coords, start, i)) else 0.0
  {
    BatchStartOf(start, i);
  }

  /** Every index of a batch has that batch's first index as its batch start. */
  lemma BatchStartOf(start: nat, i: nat)
    requires start % ChunkSize == 0 && start <= i < start + ChunkSize
    ensures BatchStart(i) == start
  {
  }

  // ---------------------------------------------------------------------
  // Properties of the specification
  // ---------------------------------------------------------------------

  lemma {:induction false} LocationsAppend(a: seq<Point>, b: seq<Point>)
    ensures Locations(a + b) == Locations(a) + Locations(b)
    decreases |b|
  {
    if b == [] {
      assert a + b == a;
    } else {
      var c := b[..|b| - 1];
      assert (a + b)[..|a + b| - 1] == a + c;
      LocationsAppend(a, c);
    }
  }

  /** The finite point at index i is the entry of the payload at its rank. */
  lemma LocationAtRank(points: seq<Point>, i: nat)
    requires i < |points| && Planar(points[i])
    ensures |Locations(points[..i])| < |Locations(points)|
    ensures Locations(points)[|Locations(points[..i])|] == LocationOf(points[i])
  {
    assert points == points[..i] + points[i..];
    LocationsAppend(points[..i], points[i..]);
    assert points[i..] == [points[i]] + points[i + 1..];
    LocationsAppend([points[i]], points[i + 1..]);
    assert [points[i]][..0] == [];
  }

  /** Every finite point is sent exactly once: the requests, joined, are the payload of the whole input. */
  lemma {:induction false} RequestsCoverAll(coords: seq<Point>)
    ensures Concat(Requests(coords)) == Locations(coords)
    decreases |coords|
  {
    if coords != [] {
      var m := Min(ChunkSize, |coords|);
      var locs := Locations(coords[..m]);
      var head: seq<seq<Location>> := if locs == [] then [] else [locs];
      RequestsCoverAll(coords[m..]);
      ConcatAppend(head, Requests(coords[m..]));
      assert coords == coords[..m] + coords[m..];
      LocationsAppend(coords[..m], coords[m..]);
    }
  }

  /**
   * Index alignment: when the service answers every location it is sent
   * with `elevationOf` of that location, each finite point gets the
   * elevation of its own location, whatever the other points are.
   */
  lemma AlignedAnswers(coords: seq<Point>, lookup: Lookup, elevationOf: Location -> real, i: nat)
    requires i < |coords| && Planar(coords[i])
    requires forall locs: seq<Location> ::
      lookup(locs) == Results(seq(|locs|, k requires 0 <= k < |locs| => Some(elevationOf(locs[k]))))
    ensures ElevationAt(coords, lookup, i) == elevationOf(LocationOf(coords[i]))
  {
    var s := BatchStart(i);
    var e := Min(s + ChunkSize, |coords|);
    var batch := coords[s..e];
    assert batch[..i - s] == coords[s..i];
    LocationAtRank(batch, i - s);
  }

  /** A point whose latitude or longitude is not finite gets 0, and so does every point when the service fails. */
  lemma ZeroFallbacks(coords: seq<Point>, lookup: Lookup, i: nat)
    requires i < |coords|
    ensures !Planar(coords[i]) ==> ElevationAt(coords, lookup, i) == 0.0
    ensures (forall locs: seq<Location> :: lookup(locs) == Failed) ==> ElevationAt(coords, lookup, i) == 0.0
  {
  }
}
