/**
 * mergeFeaturesByName, as both remote sources write it: features are grouped
 * under their (source-specific) name into one MultiLineString per name, in
 * the order in which the names are first seen.
 *
 * The source-specific part — which property gives the name, how it is
 * cleaned, which features are dropped before naming — is the `nameOf`
 * parameter: `None` means the feature is skipped.
 */
module FeatureGrouping {
  import opened Common
  import opened GeoJson

  /**
   * A feature's geometry, read by its `type` (a missing type reads as
   * LineString). For other types only whether `coordinates` is a non-empty
   * array matters. Absent coordinates read as an empty list.
   */
  datatype Shape =
    | Single(line: Line)
    | Multi(lines: seq<Line>)
    | OtherType(hasCoordinates: bool)

  /** A raw GeoJSON feature: its string properties and its geometry. */
  datatype Feature = Feature(properties: map<string, string>, shape: Shape)

  /** A merged road: a name and a MultiLineString. */
  datatype Road = Road(name: string, geometry: Geometry)

  type Namer = Feature -> Option<string>

  /** `$props[a] ?? $props[b] ?? ... ?? ''`: the first key that is present. */
  function FirstPresent(props: map<string, string>, keys: seq<string>): (r: string)
    ensures (forall k :: k in keys ==> k !in props) ==> r == ""
    ensures forall i :: 0 <= i < |keys| && keys[i] in props && (forall j :: 0 <= j < i ==> keys[j] !in props) ==>
      r == props[keys[i]]
  {
    if keys == [] then ""
    else if keys[0] in props then props[keys[0]]
    else FirstPresent(props, keys[1..])
  }

  /** `!$coordinates`: false for null and for an empty array. */
  predicate HasCoordinates(shape: Shape) {
    match shape
    case Single(line) => line != []
    case Multi(lines) => lines != []
    case OtherType(b) => b
  }

  /** The lines a feature adds to its group: one for LineString, each for MultiLineString, none otherwise. */
  function LinesOf(shape: Shape): seq<Line> {
    match shape
    case Single(line) => [line]
    case Multi(lines) => lines
    case OtherType(_) => []
  }

  /** The name a feature is grouped under, when it is kept at all. */
  function KeyOf(f: Feature, nameOf: Namer): Option<string> {
    if nameOf(f).Some? && HasCoordinates(f.shape) then nameOf(f) else None
  }

  /** Distinct kept names, in order of first occurrence. */
  function Names(features: seq<Feature>, nameOf: Namer): (r: seq<string>)
    ensures forall i, j :: 0 <= i < j < |r| ==> r[i] != r[j]
  {
    if features == [] then []
    else
      var prefix := Names(features[..|features| - 1], nameOf);
      var key := KeyOf(features[|features| - 1], nameOf);
      if key.Some? && key.value !in prefix then prefix + [key.value] else prefix
  }

  /** The lines grouped under `name`, in feature order. */
  function LinesFor(features: seq<Feature>, nameOf: Namer, name: string): seq<Line> {
    if features == [] then []
    else
      var last := features[|features| - 1];
      LinesFor(features[..|features| - 1], nameOf, name)
        + (if KeyOf(last, nameOf) == Some(name) then LinesOf(last.shape) else [])
  }

  /** The merged roads: one per name, in first-seen order. */
  function Merged(features: seq<Feature>, nameOf: Namer): seq<Road> {
    var names := Names(features, nameOf);
    seq(|names|, k requires 0 <= k < |names| =>
      Road(names[k], MultiLineString(LinesFor(features, nameOf, names[k]))))
  }

  /**
   * mergeFeaturesByName: the `$merged` dictionary is held as the list of its
   * keys in insertion order (`order`) and a map from key to the lines so far.
   */
  method MergeFeaturesByName(features: seq<Feature>, nameOf: Namer) returns (roads: seq<Road>)
    ensures roads == Merged(features, nameOf)
  {
    var order: seq<string> := [];
    var merged: map<string, seq<Line>> := map[];
    var j := 0;
    while j < |features|
      invariant 0 <= j <= |features|
      invariant Grouped(features[..j], nameOf, order, merged)
    {
      order, merged := MergeFeature(features, nameOf, j, order, merged);
      j := j + 1;
    }
    assert features[..j] == features;
    roads := seq(|order|, k requires 0 <= k < |order| =>
      Road(order[k], MultiLineString(merged[order[k]])));
  }

  /** `order` lists the names of `seen` in first-seen order, and `merged` holds each name's lines. */
  ghost predicate Grouped(seen: seq<Feature>, nameOf: Namer, order: seq<string>, merged: map<string, seq<Line>>) {
    && order == Names(seen, nameOf)
    && (forall name :: name in merged <==> name in order)
    && (forall name :: name in merged ==> merged[name] == LinesFor(seen, nameOf, name))
  }

  /** One turn of the `foreach ($features ...)` loop: feature j joins its group. */
  method MergeFeature(features: seq<Feature>, nameOf: Namer, j: nat,
                      order: seq<string>, merged: map<string, seq<Line>>)
      returns (order': seq<string>, merged': map<string, seq<Line>>)
    requires j < |features| && Grouped(features[..j], nameOf, order, merged)
    ensures Grouped(features[..j + 1], nameOf, order', merged')
  {
    order', merged' := order, merged;
    var feature := features[j];
    var name := nameOf(feature);
    if !(name.Some? && HasCoordinates(feature.shape)) {
      SkipStep(features, nameOf, j, order, merged);
    } else {
      assert KeyOf(feature, nameOf) == name;
      ghost var group := if name.value in merged then merged[name.value] else [];
      if name.value !in merged' {
        merged' := merged'[name.value := []];
        order' := order' + [name.value];
      }
      assert merged' == merged[name.value := group];
      match feature.shape {
        case Single(line) =>
          merged' := merged'[name.value := merged'[name.value] + [line]];
          assert merged' == merged[name.value := group + [line]];
        case Multi(lines) =>
          merged' := AppendLines(merged', name.value, lines);
          assert merged' == merged[name.value := group + lines];
        case OtherType(_) =>
          assert group + LinesOf(feature.shape) == group;
      }
      KeepStep(features, nameOf, j, order, merged, order', merged');
    }
  }

  /** A skipped feature leaves the groups as they are. */
  lemma SkipStep(features: seq<Feature>, nameOf: Namer, j: nat,
                 order: seq<string>, merged: map<string, seq<Line>>)
    requires j < |features| && Grouped(features[..j], nameOf, order, merged)
    requires KeyOf(features[j], nameOf).None?
    ensures Grouped(features[..j + 1], nameOf, order, merged)
  {
    StepNames(features, nameOf, j);
    forall n | n in merged ensures merged[n] == LinesFor(features[..j + 1], nameOf, n) {
      StepLines(features, nameOf, j, n);
    }
  }

  /** A kept feature adds its name when new, and its lines go to the end of its group. */
  lemma KeepStep(features: seq<Feature>, nameOf: Namer, j: nat,
                 order: seq<string>, merged: map<string, seq<Line>>,
                 order': seq<string>, merged': map<string, seq<Line>>)
    requires j < |features| && Grouped(features[..j], nameOf, order, merged)
    requires KeyOf(features[j], nameOf).Some?
    requires var name := KeyOf(features[j], nameOf).value;
      && order' == (if name in merged then order else order + [name])
      && merged' == merged[name := (if name in merged then merged[name] else []) + LinesOf(features[j].shape)]
    ensures Grouped(features[..j + 1], nameOf, order', merged')
  {
    var seen := features[..j + 1];
    var name := KeyOf(features[j], nameOf).value;
    assert order' == Names(seen, nameOf) by {
      StepNames(features, nameOf, j);
    }
    forall n ensures n in merged' <==> n in order' {
      assert n in order + [name] <==> n in order || n == name;
    }
    forall n | n in merged' ensures merged'[n] == LinesFor(seen, nameOf, n) {
      StepLines(features, nameOf, j, n);
      if n == name && name !in merged {
        LinesForAbsent(features[..j], nameOf, name);
      }
    }
  }

  /** The inner `foreach ($coordinates as $line)`: appends the lines one by one under `name`. */
  method AppendLines(merged: map<string, seq<Line>>, name: string, lines: seq<Line>)
      returns (updated: map<string, seq<Line>>)
    requires name in merged
    ensures updated == merged[name := merged[name] + lines]
  {
    updated := merged;
    var l := 0;
    assert merged[name] + lines[..0] == merged[name];
    while l < |lines|
      invariant 0 <= l <= |lines|
      invariant updated == merged[name := merged[name] + lines[..l]]
    {
      assert merged[name] + lines[..l + 1] == (merged[name] + lines[..l]) + [lines[l]];
      updated := updated[name := updated[name] + [lines[l]]];
      l := l + 1;
    }
    assert lines[..l] == lines;
  }

  /** What one more feature does to the names and to the lines of every name. */
  lemma StepNames(features: seq<Feature>, nameOf: Namer, j: nat)
    requires j < |features|
    ensures var key := KeyOf(features[j], nameOf);
      Names(features[..j + 1], nameOf) ==
        if key.Some? && key.value !in Names(features[..j], nameOf)
        then Names(features[..j], nameOf) + [key.value] else Names(features[..j], nameOf)
  {
    assert features[..j + 1][..j] == features[..j];
  }

  lemma StepLines(features: seq<Feature>, nameOf: Namer, j: nat, name: string)
    requires j < |features|
    ensures LinesFor(features[..j + 1], nameOf, name) ==
      LinesFor(features[..j], nameOf, name)
        + (if KeyOf(features[j], nameOf) == Some(name) then LinesOf(features[j].shape) else [])
  {
    assert features[..j + 1][..j] == features[..j];
  }

  // ---------------------------------------------------------------------
  // Properties of the specification
  // ---------------------------------------------------------------------

  /** A name that has not been seen has no lines yet. */
  lemma {:induction false} LinesForAbsent(features: seq<Feature>, nameOf: Namer, name: string)
    requires name !in Names(features, nameOf)
    ensures LinesFor(features, nameOf, name) == []
  {
    if features != [] {
      var prefix := features[..|features| - 1];
      assert name !in Names(prefix, nameOf);
      LinesForAbsent(prefix, nameOf, name);
    }
  }

  /** A name is output exactly when some kept feature carries it. */
  lemma {:induction false} NamesExactly(features: seq<Feature>, nameOf: Namer, name: string)
    ensures name in Names(features, nameOf) <==>
      exists i :: 0 <= i < |features| && KeyOf(features[i], nameOf) == Some(name)
  {
    if features != [] {
      var prefix := features[..|features| - 1];
      NamesExactly(prefix, nameOf, name);
      if name in Names(features, nameOf) && name !in Names(prefix, nameOf) {
        assert KeyOf(features[|features| - 1], nameOf) == Some(name);
      }
      if exists i :: 0 <= i < |prefix| && KeyOf(prefix[i], nameOf) == Some(name) {
        var i :| 0 <= i < |prefix| && KeyOf(prefix[i], nameOf) == Some(name);
        assert features[i] == prefix[i];
      }
      if exists i :: 0 <= i < |features| && KeyOf(features[i], nameOf) == Some(name) {
        var i :| 0 <= i < |features| && KeyOf(features[i], nameOf) == Some(name);
        if i < |prefix| {
          assert prefix[i] == features[i];
        }
      }
    }
  }

  /** Names are ordered by first occurrence: a name seen first earlier comes earlier. */
  lemma {:induction false} FirstSeenOrder(features: seq<Feature>, nameOf: Namer, i: nat, j: nat)
    requires i < j < |features|
    requires KeyOf(features[i], nameOf).Some? && KeyOf(features[j], nameOf).Some?
    requires KeyOf(features[i], nameOf) != KeyOf(features[j], nameOf)
    requires forall k :: 0 <= k < j ==> KeyOf(features[k], nameOf) != KeyOf(features[j], nameOf)
    ensures exists a, b ::
      (&& 0 <= a < b < |Names(features, nameOf)|
       && Names(features, nameOf)[a] == KeyOf(features[i], nameOf).value
       && Names(features, nameOf)[b] == KeyOf(features[j], nameOf).value)
  {
    var prefix := features[..j];
    var ni, nj := KeyOf(features[i], nameOf).value, KeyOf(features[j], nameOf).value;
    NamesExactly(prefix, nameOf, ni);
    assert prefix[i] == features[i];
    NamesExactly(prefix, nameOf, nj);
    assert nj !in Names(prefix, nameOf);
    NamesGrow(features, nameOf, j + 1);
    var a :| 0 <= a < |Names(prefix, nameOf)| && Names(prefix, nameOf)[a] == ni;
    var b := |Names(prefix, nameOf)|;
    assert Names(features[..j + 1], nameOf) == Names(prefix, nameOf) + [nj] by {
      assert features[..j + 1][..j] == prefix;
    }
    assert Names(features, nameOf)[a] == ni && Names(features, nameOf)[b] == nj;
  }

  /** The names of a prefix are a prefix of the names. */
  lemma {:induction false} NamesGrow(features: seq<Feature>, nameOf: Namer, j: nat)
    requires j <= |features|
    ensures Names(features[..j], nameOf) <= Names(features, nameOf)
    decreases |features| - j
  {
    if j < |features| {
      NamesGrow(features, nameOf, j + 1);
      assert features[..j + 1][..j] == features[..j];
    } else {
      assert features[..j] == features;
    }
  }

  /** Sum of the number of lines over a list of names. */
  function LineCount(features: seq<Feature>, nameOf: Namer, names: seq<string>): nat {
    if names == [] then 0
    else LineCount(features, nameOf, names[..|names| - 1]) + |LinesFor(features, nameOf, names[|names| - 1])|
  }

  /** All the lines of the kept features, in feature order. */
  function AllLines(features: seq<Feature>, nameOf: Namer): seq<Line> {
    if features == [] then []
    else
      var last := features[|features| - 1];
      AllLines(features[..|features| - 1], nameOf) + (if KeyOf(last, nameOf).Some? then LinesOf(last.shape) else [])
  }

  /** Adding lines to one name of a distinct list raises the total by just that much. */
  lemma {:induction false} LineCountUpdate(features: seq<Feature>, longer: seq<Feature>, nameOf: Namer,
                                           names: seq<string>, name: string, extra: nat)
    requires forall n :: n in names && n != name ==>
      LinesFor(longer, nameOf, n) == LinesFor(features, nameOf, n)
    requires |LinesFor(longer, nameOf, name)| == |LinesFor(features, nameOf, name)| + extra
    requires forall i, j :: 0 <= i < j < |names| ==> names[i] != names[j]
    ensures LineCount(longer, nameOf, names) ==
      LineCount(features, nameOf, names) + (if name in names then extra else 0)
  {
    if names != [] {
      var init := names[..|names| - 1];
      assert forall n :: n in init ==> n in names;
      LineCountUpdate(features, longer, nameOf, init, name, extra);
      assert name in names <==> name in init || name == names[|names| - 1];
    }
  }

  /** No line is lost or duplicated: the groups together hold exactly as many lines as the kept features. */
  lemma {:induction false} LinesConserved(features: seq<Feature>, nameOf: Namer)
    ensures LineCount(features, nameOf, Names(features, nameOf)) == |AllLines(features, nameOf)|
  {
    if features != [] {
      var prefix := features[..|features| - 1];
      var last := features[|features| - 1];
      var key := KeyOf(last, nameOf);
      LinesConserved(prefix, nameOf);
      var extra := if key.Some? then |LinesOf(last.shape)| else 0;
      var name := if key.Some? then key.value else "";
      LineCountUpdate(prefix, features, nameOf, Names(prefix, nameOf), name, extra);
      if key.Some? && key.value !in Names(prefix, nameOf) {
        LinesForAbsent(prefix, nameOf, key.value);
        var names := Names(prefix, nameOf) + [key.value];
        assert names[..|names| - 1] == Names(prefix, nameOf);
      }
    }
  }

  /** A feature of another type with coordinates still opens its group, with no line in it. */
  lemma OtherTypeOpensEmptyGroup(props: map<string, string>, nameOf: Namer)
    requires nameOf(Feature(props, OtherType(true))).Some?
    ensures var f := Feature(props, OtherType(true));
      Merged([f], nameOf) == [Road(nameOf(f).value, MultiLineString([]))]
  {
    var f := Feature(props, OtherType(true));
    assert [f][..0] == [];
    assert Names([f], nameOf) == [nameOf(f).value];
    assert LinesFor([f], nameOf, nameOf(f).value) == [];
  }
}
