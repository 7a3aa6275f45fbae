/**
 * ArcGisSource: targets are US state codes; every target is queried on the
 * configured layers (not part of this model: HTTP) and the features are
 * grouped under their trimmed name.
 */
module ArcGisSource {
  import opened Common
  import opened PhpStrings
  import opened StateMapper
  import opened AbstractSource
  import opened FeatureGrouping

  /**
   * The selection rule of getTargets: "all" among the choices selects every
   * state code, in table order; any other selection is returned as it is.
   */
  function GetTargets(selection: seq<string>): (r: seq<string>)
    ensures "all" in selection ==> |r| == 59 && forall c :: c in r <==> GetNameByCode(c).Ok?
    ensures "all" in selection ==> forall i, j :: 0 <= i < j < |r| ==> r[i] != r[j]
    ensures "all" !in selection ==> r == selection
  {
    if "all" in selection then
      StateCodes();
      Codes(GetAllStates())
    else selection
  }

  /** The keys of getAllStates: each once, and exactly the codes getNameByCode accepts. */
  lemma StateCodes()
    ensures forall c :: c in Codes(GetAllStates()) <==> GetNameByCode(c).Ok?
    ensures forall i, j :: 0 <= i < j < |GetAllStates()| ==> Codes(GetAllStates())[i] != Codes(GetAllStates())[j]
  {
    forall c
      ensures c in Codes(GetAllStates()) <==> GetNameByCode(c).Ok?
    {
      StateCodeAccepted(c);
    }
    StateCodesDistinct(GetAllStates());
  }

  lemma StateCodeAccepted(c: string)
    ensures c in Codes(GetAllStates()) <==> GetNameByCode(c).Ok?
  {
    InCodes(GetAllStates(), c);
    SucceedsOnAllStates(c);
  }

  lemma StateCodesDistinct(table: seq<(string, string)>)
    requires table == States
    ensures forall i, j :: 0 <= i < j < |table| ==> Codes(table)[i] != Codes(table)[j]
  {
    CodesDistinct();
  }

  /** getTargetLocation: "US", the code itself and its state name; an unknown code fails. */
  function GetTargetLocation(code: string): (r: Result<TargetLocation, string>)
    ensures r.Ok? <==> code in Codes(States)
    ensures r.Ok? ==> r.value.countryIso2 == "US" && r.value.stateIso2 == Some(code)
    ensures r.Ok? ==> r.value.stateName.Some? && (code, r.value.stateName.value) in States
    ensures r.Err? ==> r == Err("Invalid US State Code: " + code)
  {
    match GetNameByCode(code)
    case Ok(name) => Ok(TargetLocation("US", Some(code), Some(name)))
    case Err(e) => Err(e)
  }

  /** getTargetOutFilename: the state code itself, so distinct targets never share a file. */
  function GetTargetOutFilename(code: string): (r: string)
    ensures r == code
  {
    code
  }

  /** The properties the name is read from, best first. */
  const NameKeys: seq<string> := ["Name", "name", "Byway_Name"]

  /** The name an ArcGIS feature is grouped under: the trimmed raw name, skipped when empty(). */
  function ArcGisName(f: Feature): Option<string> {
    var name := Trim(FirstPresent(f.properties, NameKeys));
    if PhpEmpty(name) then None else Some(name)
  }

  /** mergeFeaturesByName of this source: grouping under the trimmed name. */
  method MergeFeaturesByName(features: seq<Feature>) returns (roads: seq<Road>)
    ensures roads == Merged(features, ArcGisName)
  {
    roads := FeatureGrouping.MergeFeaturesByName(features, ArcGisName);
  }

  // ---------------------------------------------------------------------
  // Properties
  // ---------------------------------------------------------------------

  /** Whatever is selected, every target getTargets returns for "all" has a location. */
  lemma AllTargetsResolve(selection: seq<string>, t: string)
    requires "all" in selection && t in GetTargets(selection)
    ensures GetTargetLocation(t).Ok?
    ensures GetTargetLocation(t).value.stateName.Some?
  {
    InCodes(GetAllStates(), t);
    SucceedsOnAllStates(t);
  }

  /**
   * `??` only skips missing keys: a present but blank "Name" hides "name",
   * and the feature is dropped.
   */
  lemma BlankNameHidesOthers(props: map<string, string>, shape: Shape)
    requires "Name" in props && Trim(props["Name"]) == ""
    ensures ArcGisName(Feature(props, shape)) == None
  {
  }

  /** A kept feature's name is trimmed and not empty(). */
  lemma KeptNamesAreTrimmed(f: Feature)
    requires ArcGisName(f).Some?
    ensures Trim(ArcGisName(f).value) == ArcGisName(f).value
    ensures !PhpEmpty(ArcGisName(f).value)
  {
    TrimIdempotent(FirstPresent(f.properties, NameKeys));
  }
}
