/**
 * Segment stitching: GeometryOptimizer::optimize and its helpers.
 *
 * A pool of line segments is turned into chains. A chain is seeded with the
 * first segment left in the pool; the pool is then scanned in order and the
 * first segment that touches one end of the chain is joined on (dropping the
 * duplicated join point) and removed, and the scan restarts. A scan that
 * finds nothing closes the chain.
 *
 * The functions `FirstMatch`, `Grow` and `Chains` specify the algorithm;
 * the method `Optimize` is the imperative loop and is proved to compute
 * `Chains`.
 */
module GeometryOptimizer {
  import opened Common
  import opened GeoJson

  /** Squared planar distance under which two endpoints coincide. */
  const Tolerance: real := 0.00005

  /** Squared planar distance between the first two coordinates of two points. */
  function DistSq(p: Point, q: Point): (d: real)
    requires Planar(p) && Planar(q)
    ensures d >= 0.0
  {
    var dx := p.x.value - q.x.value;
    var dy := p.y.value - q.y.value;
    dx * dx + dy * dy
  }

  /**
   * Endpoint closeness: strictly under the tolerance. With a NaN or an
   * infinite coordinate the float distance is NaN or infinite and the
   * comparison is false, so such a point is close to nothing.
   */
  predicate Close(p: Point, q: Point) {
    Planar(p) && Planar(q) && DistSq(p, q) < Tolerance
  }

  function Last(s: Line): Point
    requires |s| > 0
  {
    s[|s| - 1]
  }

  function Reverse(s: Line): (r: Line)
    ensures |r| == |s|
    ensures forall i :: 0 <= i < |s| ==> r[i] == s[|s| - 1 - i]
    ensures multiset(r) == multiset(s)
  {
    if s == [] then []
    else
      assert s == [s[0]] + s[1..];
      Reverse(s[1..]) + [s[0]]
  }

  predicate NonEmptyLines(pool: seq<Line>) {
    forall k :: 0 <= k < |pool| ==> |pool[k]| > 0
  }

  /** True when one of the four endpoint pairs TryMerge checks is close. */
  predicate Touches(chain: Line, seg: Line)
    requires |chain| > 0 && |seg| > 0
  {
    || Close(Last(chain), seg[0])
    || Close(Last(chain), Last(seg))
    || Close(chain[0], Last(seg))
    || Close(chain[0], seg[0])
  }

  /**
   * Tries to attach `seg` to the end or the start of `chain`; the four
   * cases are tried in this order and the first that applies wins.
   */
  function TryMerge(chain: Line, seg: Line): (r: Option<Line>)
    requires |chain| > 0 && |seg| > 0
    ensures r.None? <==> !Touches(chain, seg)
    ensures r.Some? ==> |r.value| == |chain| + |seg| - 1
    // exactly one endpoint of the segment (the join point) is dropped
    ensures r.Some? ==>
      || multiset(r.value) + multiset{seg[0]} == multiset(chain) + multiset(seg)
      || multiset(r.value) + multiset{Last(seg)} == multiset(chain) + multiset(seg)
    // the old chain survives whole, at the front (append) or at the back (prepend)
    ensures r.Some? ==> chain <= r.value || r.value[|seg| - 1..] == chain
    // 1. end of chain at the segment's start: the rest of the segment follows in order
    ensures Close(Last(chain), seg[0]) ==>
      r.Some? && chain <= r.value && r.value[|chain|..] == seg[1..]
    // 2. otherwise, end of chain at the segment's end: the rest follows reversed
    ensures !Close(Last(chain), seg[0]) && Close(Last(chain), Last(seg)) ==>
      r.Some? && chain <= r.value && r.value[|chain|..] == Reverse(seg)[1..]
    // 3. only then the start of the chain, at the segment's end: the segment comes first, in order
    ensures !Close(Last(chain), seg[0]) && !Close(Last(chain), Last(seg)) && Close(chain[0], Last(seg)) ==>
      r.Some? && r.value[|seg| - 1..] == chain && r.value[..|seg| - 1] == seg[..|seg| - 1]
    // 4. last, the start of the chain at the segment's start: the segment comes first, reversed
    ensures !Close(Last(chain), seg[0]) && !Close(Last(chain), Last(seg)) && !Close(chain[0], Last(seg))
            && Close(chain[0], seg[0]) ==>
      r.Some? && r.value[|seg| - 1..] == chain && r.value[..|seg| - 1] == Reverse(seg)[..|seg| - 1]
  {
    if Close(Last(chain), seg[0]) then Some(Appended(chain, seg))
    else if Close(Last(chain), Last(seg)) then Some(Appended(chain, Reverse(seg)))
    else if Close(chain[0], Last(seg)) then Some(Prepended(chain, seg))
    else if Close(chain[0], seg[0]) then Some(Prepended(chain, Reverse(seg)))
    else None
  }

  /** `chain` followed by `s` without its first point, the join point. */
  function Appended(chain: Line, s: Line): (r: Line)
    requires |s| > 0
    ensures |r| == |chain| + |s| - 1
    ensures multiset(r) + multiset{s[0]} == multiset(chain) + multiset(s)
    ensures chain <= r && r[|chain|..] == s[1..]
  {
    assert s == [s[0]] + s[1..];
    chain + s[1..]
  }

  /** `s` without its last point, the join point, followed by `chain`. */
  function Prepended(chain: Line, s: Line): (r: Line)
    requires |s| > 0
    ensures |r| == |chain| + |s| - 1
    ensures multiset(r) + multiset{Last(s)} == multiset(chain) + multiset(s)
    ensures r[|s| - 1..] == chain && r[..|s| - 1] == s[..|s| - 1]
  {
    assert s == s[..|s| - 1] + [Last(s)];
    s[..|s| - 1] + chain
  }

  /** The pool without the segment at index i, order kept. */
  function Remove(pool: seq<Line>, i: nat): (r: seq<Line>)
    requires i < |pool|
    ensures |r| == |pool| - 1
    ensures forall k :: 0 <= k < i ==> r[k] == pool[k]
    ensures forall k :: i <= k < |r| ==> r[k] == pool[k + 1]
  {
    pool[..i] + pool[i + 1..]
  }

  /**
   * The index of the first segment of the pool, in pool order, that
   * TryMerge accepts against `chain`.
   */
  function FirstMatch(chain: Line, pool: seq<Line>): (r: Option<nat>)
    requires |chain| > 0 && NonEmptyLines(pool)
    ensures r.Some? ==> r.value < |pool| && Touches(chain, pool[r.value])
    ensures forall j :: 0 <= j < |pool| && (r.None? || j < r.value) ==>
              !Touches(chain, pool[j])
    decreases |pool|
  {
    if pool == [] then None
    else if Touches(chain, pool[0]) then Some(0)
    else
      match FirstMatch(chain, pool[1..])
      case None => None
      case Some(i) => Some(i + 1)
  }

  /**
   * Extends `chain` until no segment of the pool touches it; returns the
   * closed chain and what is left of the pool.
   */
  function Grow(chain: Line, pool: seq<Line>): (r: (Line, seq<Line>))
    requires |chain| > 0 && NonEmptyLines(pool)
    ensures |r.0| >= |chain| && |r.1| <= |pool| && NonEmptyLines(r.1)
    decreases |pool|
  {
    match FirstMatch(chain, pool)
    case None => (chain, pool)
    case Some(i) => Grow(TryMerge(chain, pool[i]).value, Remove(pool, i))
  }

  /** The chains built from a pool, in the order in which they are closed. */
  function Chains(pool: seq<Line>): (r: seq<Line>)
    requires NonEmptyLines(pool)
    ensures |r| <= |pool|
    ensures NonEmptyLines(r)
    decreases |pool|
  {
    if pool == [] then []
    else
      var g := Grow(pool[0], pool[1..]);
      [g.0] + Chains(g.1)
  }

  /** extractSegments: a LineString is one segment; otherwise the coordinates are the segments. */
  function Segments(geometry: Geometry): (r: seq<Line>)
    ensures geometry.LineString? ==> r == [geometry.line]
    ensures !geometry.LineString? ==> r == geometry.lines
  {
    match geometry
    case LineString(line) => [line]
    case MultiLineString(lines) => lines
    case OtherGeometry(lines) => lines
  }

  /**
   * One scan of the pool: the index of the first segment that merges, if
   * any, and the chain it merges into (the chain itself when none does).
   */
  method FindMerge(chain: Line, pool: seq<Line>) returns (found: Option<nat>, merged: Line)
    requires |chain| > 0 && NonEmptyLines(pool)
    ensures found == FirstMatch(chain, pool)
    ensures found.Some? ==> merged == TryMerge(chain, pool[found.value]).value
    ensures found.None? ==> merged == chain
  {
    var i := 0;
    while i < |pool|
      invariant 0 <= i <= |pool|
      invariant forall j :: 0 <= j < i ==> !Touches(chain, pool[j])
    {
      var mergeResult := TryMerge(chain, pool[i]);
      if mergeResult.Some? {
        FirstMatchAt(chain, pool, i);
        return Some(i), mergeResult.value;
      }
      i := i + 1;
    }
    return None, chain;
  }

  /** The first touching segment of the pool is the one FirstMatch finds. */
  lemma FirstMatchAt(chain: Line, pool: seq<Line>, i: nat)
    requires |chain| > 0 && NonEmptyLines(pool) && i < |pool|
    requires Touches(chain, pool[i]) && forall j :: 0 <= j < i ==> !Touches(chain, pool[j])
    ensures FirstMatch(chain, pool) == Some(i)
  {
    var r := FirstMatch(chain, pool);
    assert r.Some? && !(r.value < i) && !(i < r.value);
  }

  /** The inner `while ($extended)` loop: rescans until no segment merges. */
  method GrowChain(seed: Line, rest: seq<Line>) returns (current: Line, pool: seq<Line>)
    requires |seed| > 0 && NonEmptyLines(rest)
    ensures (current, pool) == Grow(seed, rest)
  {
    current, pool := seed, rest;
    var extended := true;
    while extended
      invariant |current| > 0 && NonEmptyLines(pool)
      invariant Grow(current, pool) == Grow(seed, rest)
      invariant !extended ==> FirstMatch(current, pool).None?
      decreases |pool| + (if extended then 1 else 0)
    {
      extended := false;
      var found, merged := FindMerge(current, pool);
      if found.Some? {
        current := merged;
        pool := Remove(pool, found.value);
        extended := true;
      }
    }
  }

  /** One round of optimize: the chain grown from the pool's first segment is the next chain. */
  lemma CloseChain(chains: seq<Line>, pool: seq<Line>, current: Line, rest: seq<Line>, total: seq<Line>)
    requires NonEmptyLines(pool) && pool != [] && |pool[0]| > 0 && NonEmptyLines(pool[1..])
    requires (current, rest) == Grow(pool[0], pool[1..])
    requires chains + Chains(pool) == total
    ensures NonEmptyLines(rest)
    ensures (chains + [current]) + Chains(rest) == total
  {
    assert Chains(pool) == [current] + Chains(rest);
    assert (chains + [current]) + Chains(rest) == chains + ([current] + Chains(rest));
  }

  /**
   * The TypeError of distSq when tryMerge reads an endpoint of an empty
   * line: `end([])` is false and a missing index is null, neither an array.
   */
  const EmptyEndpoint := "distSq(): Argument must be of type array"

  /**
   * optimize: the input stitched into chains, always as a MultiLineString.
   * An empty segment is read by tryMerge, as the chain or as a pool entry,
   * whenever there is another segment, and distSq then throws; a lone empty
   * segment is never read and comes back as the only chain.
   */
  method Optimize(geometry: Geometry) returns (result: Result<Geometry, string>)
    ensures NonEmptyLines(Segments(geometry)) ==> result == Ok(MultiLineString(Chains(Segments(geometry))))
    ensures Segments(geometry) == [[]] ==> result == Ok(MultiLineString([[]]))
    ensures result.Err? <==> |Segments(geometry)| >= 2 && !NonEmptyLines(Segments(geometry))
  {
    var pool := Segments(geometry);
    if !NonEmptyLines(pool) {
      if |pool| >= 2 {
        return Err(EmptyEndpoint);
      }
      return Ok(MultiLineString(pool));
    }
    var chains: seq<Line> := [];
    while pool != []
      invariant NonEmptyLines(pool)
      invariant chains + Chains(pool) == Chains(Segments(geometry))
      decreases |pool|
    {
      ghost var before := pool;
      var current;
      current, pool := GrowChain(pool[0], pool[1..]);
      CloseChain(chains, before, current, pool, Chains(Segments(geometry)));
      chains := chains + [current];
    }
    assert chains + Chains(pool) == chains;
    result := Ok(MultiLineString(chains));
  }

  // ---------------------------------------------------------------------
  // Properties of the specification
  // ---------------------------------------------------------------------

  lemma {:induction false} ConcatRemove(pool: seq<Line>, i: nat)
    requires i < |pool|
    ensures |Concat(pool)| == |Concat(Remove(pool, i))| + |pool[i]|
    ensures multiset(Concat(pool)) == multiset(Concat(Remove(pool, i))) + multiset(pool[i])
  {
    assert pool == pool[..i] + ([pool[i]] + pool[i + 1..]);
    ConcatAppend(pool[..i], [pool[i]] + pool[i + 1..]);
    ConcatAppend([pool[i]], pool[i + 1..]);
    ConcatAppend(pool[..i], pool[i + 1..]);
  }

  /**
   * Growing a chain, counted in points: every merge adds the segment's
   * points but one, the join point, and consumes one pool segment.
   */
  lemma {:induction false} GrowLength(chain: Line, pool: seq<Line>)
    requires |chain| > 0 && NonEmptyLines(pool)
    ensures var r := Grow(chain, pool);
      |r.0| + |Concat(r.1)| + (|pool| - |r.1|) == |chain| + |Concat(pool)|
    decreases |pool|
  {
    match FirstMatch(chain, pool)
    case None =>
    case Some(i) =>
      GrowLength(TryMerge(chain, pool[i]).value, Remove(pool, i));
      ConcatRemove(pool, i);
  }

  /** Growing a chain brings in no point that was not in the chain or the pool. */
  lemma {:induction false} GrowPoints(chain: Line, pool: seq<Line>)
    requires |chain| > 0 && NonEmptyLines(pool)
    ensures var r := Grow(chain, pool);
      multiset(r.0) + multiset(Concat(r.1)) <= multiset(chain) + multiset(Concat(pool))
    decreases |pool|
  {
    match FirstMatch(chain, pool)
    case None =>
    case Some(i) =>
      var merged := TryMerge(chain, pool[i]).value;
      GrowPoints(merged, Remove(pool, i));
      ConcatRemove(pool, i);
      assert multiset(merged) <= multiset(chain) + multiset(pool[i]);
  }

  /** The segments left after growing a chain are untouched segments of the pool. */
  lemma {:induction false} GrowLeftovers(chain: Line, pool: seq<Line>)
    requires |chain| > 0 && NonEmptyLines(pool)
    ensures multiset(Grow(chain, pool).1) <= multiset(pool)
    decreases |pool|
  {
    match FirstMatch(chain, pool)
    case None =>
    case Some(i) =>
      var rest := Remove(pool, i);
      GrowLeftovers(TryMerge(chain, pool[i]).value, rest);
      assert pool == pool[..i] + [pool[i]] + pool[i + 1..];
      assert multiset(rest) + multiset{pool[i]} == multiset(pool);
  }

  /** A closed chain touches none of the segments left in the pool, so TryMerge accepts none. */
  lemma {:induction false} GrowClosed(chain: Line, pool: seq<Line>)
    requires |chain| > 0 && NonEmptyLines(pool)
    ensures var r := Grow(chain, pool);
      forall k :: 0 <= k < |r.1| ==> !Touches(r.0, r.1[k])
    decreases |pool|
  {
    match FirstMatch(chain, pool)
    case None =>
      assert Grow(chain, pool) == (chain, pool);
    case Some(i) =>
      var merged := TryMerge(chain, pool[i]).value;
      assert Grow(chain, pool) == Grow(merged, Remove(pool, i));
      GrowClosed(merged, Remove(pool, i));
  }

  /**
   * Point accounting for the whole run: the chains keep all input points but
   * exactly one join point per merge, and the number of merges is the number
   * of segments minus the number of chains.
   */
  lemma {:induction false} ChainsAccounting(pool: seq<Line>)
    requires NonEmptyLines(pool)
    ensures |Concat(Chains(pool))| == |Concat(pool)| - (|pool| - |Chains(pool)|)
    ensures multiset(Concat(Chains(pool))) <= multiset(Concat(pool))
    ensures pool != [] ==> |Chains(pool)| >= 1
    decreases |pool|
  {
    if pool != [] {
      var g := Grow(pool[0], pool[1..]);
      GrowLength(pool[0], pool[1..]);
      GrowPoints(pool[0], pool[1..]);
      ChainsAccounting(g.1);
      assert pool == [pool[0]] + pool[1..];
      ConcatAppend([pool[0]], pool[1..]);
      ConcatAppend([g.0], Chains(g.1));
    }
  }

  /** Segments that touch nothing stay separate chains, in input order. */
  lemma {:induction false} NoSpuriousMerge(a: Line, b: Line)
    requires |a| > 0 && |b| > 0 && !Touches(a, b)
    ensures Chains([a, b]) == [a, b]
  {
    assert FirstMatch(a, [b]) == None;
    assert [a, b][1..] == [b];
    assert Chains([b]) == [b] by {
      assert Grow(b, []) == (b, []);
    }
  }

  /** A single LineString comes back unchanged as the only chain. */
  lemma LineStringIsOneChain(line: Line)
    requires |line| > 0
    ensures Chains(Segments(LineString(line))) == [line]
  {
    assert Grow(line, []) == (line, []);
  }

  function P(x: real, y: real): Point {
    Point(Finite(x), Finite(y), None)
  }

  /** A=[(0,0),(1,1)], B=[(1,1),(2,2)], C=[(5,5),(6,6)]: A and B join, C stays alone. */
  lemma JoinExample()
    ensures Chains([[P(0.0, 0.0), P(1.0, 1.0)], [P(1.0, 1.0), P(2.0, 2.0)], [P(5.0, 5.0), P(6.0, 6.0)]])
         == [[P(0.0, 0.0), P(1.0, 1.0), P(2.0, 2.0)], [P(5.0, 5.0), P(6.0, 6.0)]]
  {
    var a, b, c := [P(0.0, 0.0), P(1.0, 1.0)], [P(1.0, 1.0), P(2.0, 2.0)], [P(5.0, 5.0), P(6.0, 6.0)];
    var ab := [P(0.0, 0.0), P(1.0, 1.0), P(2.0, 2.0)];
    assert Close(Last(a), b[0]);
    assert b[1..] == [P(2.0, 2.0)];
    assert a + b[1..] == ab;
    assert TryMerge(a, b) == Some(ab);
    assert FirstMatch(a, [b, c]) == Some(0);
    assert Remove([b, c], 0) == [c];
    assert !Touches(ab, c);
    assert FirstMatch(ab, [c]) == None;
    assert Grow(a, [b, c]) == (ab, [c]);
    assert [a, b, c][1..] == [b, c];
    assert Grow(c, []) == (c, []);
    assert Chains([c]) == [c];
  }

  /** A=[(0,0),(1,1)], B=[(2,2),(1,1)]: B is reversed and the join point kept once. */
  lemma ReversalExample()
    ensures Chains([[P(0.0, 0.0), P(1.0, 1.0)], [P(2.0, 2.0), P(1.0, 1.0)]])
         == [[P(0.0, 0.0), P(1.0, 1.0), P(2.0, 2.0)]]
  {
    var a, b := [P(0.0, 0.0), P(1.0, 1.0)], [P(2.0, 2.0), P(1.0, 1.0)];
    var ab := [P(0.0, 0.0), P(1.0, 1.0), P(2.0, 2.0)];
    assert !Close(Last(a), b[0]);
    assert Close(Last(a), Last(b));
    assert Reverse(b)[1..] == [P(2.0, 2.0)];
    assert a + Reverse(b)[1..] == ab;
    assert TryMerge(a, b) == Some(ab);
    assert FirstMatch(a, [b]) == Some(0);
    assert Remove([b], 0) == [];
    assert Grow(a, [b]) == (ab, []);
    assert [a, b][1..] == [b];
  }
}
