/**
 * UsDotScenicBywaysSource: targets are the layers of the U.S. DOT scenic
 * byways map server, each tied to one state; features are named after a
 * cleaned-up form of their GIS name and grouped by it.
 */
module UsDotScenicBywaysSource {
  import opened Common
  import opened PhpStrings
  import opened StateMapper
  import opened AbstractSource
  import opened FeatureGrouping

  /** One entry of LAYER_MAP: the state the layer covers and the layer's own name. */
  datatype LayerInfo = LayerInfo(iso2: string, state: string, layer: string)

  /** LAYER_MAP, keyed by layer id, in declaration order. */
  const LayerMap: seq<(int, LayerInfo)> :=
    [
      (3, LayerInfo("AL", "Alabama", "AL_ScenicByways")),
      (5, LayerInfo("AK", "Alaska", "AK_ScenicByways")),
      (7, LayerInfo("AZ", "Arizona", "AZ_ScenicByways")),
      (9, LayerInfo("AR", "Arkansas", "AR_ScenicByways")),
      (11, LayerInfo("CA", "California", "CA_Scenic_Byways")),
      (13, LayerInfo("CO", "Colorado", "Grand_Mesa_Scenic_Byway")),
      (14, LayerInfo("CO", "Colorado", "Gold_Belt_Tour_Scenic_Byway")),
      (15, LayerInfo("CO", "Colorado", "Frontier_Pathways_Scenic_Byway")),
      (16, LayerInfo("CO", "Colorado", "Flat_Tops_Trail_Scenic_Byway")),
      (17, LayerInfo("CO", "Colorado", "Dinosaur_Diamond_Scenic_Byway"))
    ] +
    [
      (18, LayerInfo("CO", "Colorado", "Colorado_River_Headwaters_Scenic_Byway")),
      (19, LayerInfo("CO", "Colorado", "Colligiate_Peaks_Scenic_Byway")),
      (20, LayerInfo("CO", "Colorado", "Cache_la_Poudre_NP_Scenic_Byway")),
      (21, LayerInfo("CO", "Colorado", "Alpine_Loop_Scenic_Byway")),
      (23, LayerInfo("CT", "Connecticut", "CT_ScenicByways")),
      (25, LayerInfo("FL", "Florida", "scenic_highways")),
      (27, LayerInfo("GA", "Georgia", "GA_ScenicByways")),
      (29, LayerInfo("ID", "Idaho", "Scenic_Byway")),
      (31, LayerInfo("IL", "Illinois", "IL_ScenicByways")),
      (33, LayerInfo("IN", "Indiana", "IN_ScenicByways"))
    ] +
    [
      (35, LayerInfo("IA", "Iowa", "IA_ScenicByways")),
      (37, LayerInfo("KS", "Kansas", "KS_ScenicByways")),
      (39, LayerInfo("KY", "Kentucky", "KY_ScenicByways")),
      (41, LayerInfo("LA", "Louisiana", "LA_ScenicByways")),
      (43, LayerInfo("ME", "Maine", "MaineDOT_Scenic_Byways")),
      (45, LayerInfo("MA", "Massachusetts", "MA_ScenicByways")),
      (47, LayerInfo("MD", "Maryland", "MD_ScenicByways")),
      (49, LayerInfo("MI", "Michigan", "MI_ScenicByways")),
      (51, LayerInfo("MN", "Minnesota", "MN_ScenicByways")),
      (53, LayerInfo("MS", "Mississippi", "MS_ScenicByways"))
    ] +
    [
      (55, LayerInfo("MO", "Missouri", "MO_ScenicByways")),
      (57, LayerInfo("MT", "Montana", "MT_ScenicByways")),
      (59, LayerInfo("NE", "Nebraska", "NE_ScenicByways")),
      (61, LayerInfo("NV", "Nevada", "NV_ScenicByways")),
      (63, LayerInfo("NH", "New Hampshire", "NH_ScenicByways")),
      (65, LayerInfo("NJ", "New Jersey", "NJ_ScenicByways")),
      (67, LayerInfo("NY", "New York", "NY_ScenicByways")),
      (69, LayerInfo("NM", "New Mexico", "NM_ScenicByways")),
      (71, LayerInfo("NC", "North Carolina", "NC_ScenicByways")),
      (73, LayerInfo("ND", "North Dakota", "ND_ScenicByways"))
    ] +
    [
      (75, LayerInfo("OH", "Ohio", "OH_ScenicByways")),
      (77, LayerInfo("OR", "Oregon", "oregon_scenic_byways")),
      (79, LayerInfo("OK", "Oklahoma", "OK_ScenicByways")),
      (81, LayerInfo("PA", "Pennsylvania", "PA_ScenicByways")),
      (83, LayerInfo("RI", "Rhode Island", "RI_ScenicByways")),
      (85, LayerInfo("SC", "South Carolina", "SC_ScenicByways")),
      (87, LayerInfo("SD", "South Dakota", "SD_ScenicByways")),
      (89, LayerInfo("TN", "Tennessee", "TN_ScenicByways")),
      (91, LayerInfo("TX", "Texas", "TX_ScenicByways")),
      (93, LayerInfo("UT", "Utah", "Utah_Scenic_Byways"))
    ] +
    [
      (95, LayerInfo("VT", "Vermont", "VT_ScenicByways")),
      (97, LayerInfo("VA", "Virginia", "VA_ScenicByways")),
      (99, LayerInfo("WA", "Washington", "WSDOT_-_Scenic_Byways")),
      (101, LayerInfo("WV", "West Virginia", "WV_ScenicByways")),
      (103, LayerInfo("WI", "Wisconsin", "WI_ScenicByways")),
      (105, LayerInfo("WY", "Wyoming", "WY_ScenicByways"))
    ]

  /** The ids LAYER_MAP declares. */
  function LayerIds(table: seq<(int, LayerInfo)>): (r: seq<int>)
    ensures |r| == |table| && forall i :: 0 <= i < |table| ==> r[i] == table[i].0
  {
    seq(|table|, i requires 0 <= i < |table| => table[i].0)
  }

  /** `LAYER_MAP[$id]`: the entry with that key, None when there is none. */
  function FindLayer(table: seq<(int, LayerInfo)>, id: int): (r: Option<LayerInfo>)
    ensures r.None? <==> id !in LayerIds(table)
    ensures r.Some? ==> (id, r.value) in table
  {
    if table == [] then None
    else if table[0].0 == id then Some(table[0].1)
    else
      assert LayerIds(table) == [table[0].0] + LayerIds(table[1..]);
      FindLayer(table[1..], id)
  }

  /**
   * getTargetLocation: the country is always "US"; the state code and name
   * come from the layer's entry, and are null for an id LAYER_MAP lacks.
   */
  function GetTargetLocation(id: int): (r: TargetLocation)
    ensures r.countryIso2 == "US"
    ensures r.stateIso2.Some? <==> id in LayerIds(LayerMap)
    ensures r.stateName.Some? <==> id in LayerIds(LayerMap)
    ensures r.stateIso2.Some? ==> exists info ::
      ((id, info) in LayerMap && r.stateIso2 == Some(info.iso2) && r.stateName == Some(info.state))
  {
    match FindLayer(LayerMap, id)
    case None => TargetLocation("US", None, None)
    case Some(info) => TargetLocation("US", Some(info.iso2), Some(info.state))
  }

  /**
   * getTargetOutFilename: the layer's state code. For an id LAYER_MAP lacks
   * the lookup gives null, which the string return type turns into a TypeError.
   */
  function GetTargetOutFilename(id: int): (r: Result<string, string>)
    ensures r.Ok? <==> id in LayerIds(LayerMap)
    ensures r.Ok? ==> exists info :: (id, info) in LayerMap && r.value == info.iso2
  {
    match FindLayer(LayerMap, id)
    case None => Err("Return value must be of type string, null returned")
    case Some(info) => Ok(info.iso2)
  }

  // ---------------------------------------------------------------------
  // Properties of the layer table
  // ---------------------------------------------------------------------

  /** Where an id sits in LAYER_MAP: 3..11 odd, then 13..21, then 23..105 odd. */
  function Position(id: int): int {
    if id <= 11 then (id - 3) / 2
    else if id <= 21 then id - 8
    else 14 + (id - 23) / 2
  }

  lemma PositionsOfTable()
    ensures forall i :: 0 <= i < |LayerMap| ==> Position(LayerMap[i].0) == i
  {
    forall i | 0 <= i < 10 ensures Position(LayerMap[i].0) == i {
      assert i == 0 || i == 1 || i == 2 || i == 3 || i == 4 || i == 5 || i == 6 || i == 7 || i == 8 || i == 9;
    }
    forall i | 10 <= i < 20 ensures Position(LayerMap[i].0) == i {
      assert i == 10 || i == 11 || i == 12 || i == 13 || i == 14 || i == 15 || i == 16 || i == 17 || i == 18 || i == 19;
    }
    forall i | 20 <= i < 30 ensures Position(LayerMap[i].0) == i {
      assert i == 20 || i == 21 || i == 22 || i == 23 || i == 24 || i == 25 || i == 26 || i == 27 || i == 28 || i == 29;
    }
    forall i | 30 <= i < 40 ensures Position(LayerMap[i].0) == i {
      assert i == 30 || i == 31 || i == 32 || i == 33 || i == 34 || i == 35 || i == 36 || i == 37 || i == 38 || i == 39;
    }
    forall i | 40 <= i < 50 ensures Position(LayerMap[i].0) == i {
      assert i == 40 || i == 41 || i == 42 || i == 43 || i == 44 || i == 45 || i == 46 || i == 47 || i == 48 || i == 49;
    }
    forall i | 50 <= i < 56 ensures Position(LayerMap[i].0) == i {
      assert i == 50 || i == 51 || i == 52 || i == 53 || i == 54 || i == 55;
    }
  }

  /** No layer id is declared twice, so every declared id finds its own entry. */
  lemma LookupAgreesWithLayerMap(i: nat)
    requires i < |LayerMap|
    ensures FindLayer(LayerMap, LayerMap[i].0) == Some(LayerMap[i].1)
  {
    PositionsOfTable();
    FirstEntryWins(LayerMap, i);
  }

  lemma {:induction false} FirstEntryWins(table: seq<(int, LayerInfo)>, i: nat)
    requires i < |table|
    requires forall j :: 0 <= j < i ==> table[j].0 != table[i].0
    ensures FindLayer(table, table[i].0) == Some(table[i].1)
  {
    if i > 0 {
      FirstEntryWins(table[1..], i - 1);
    }
  }

  /** The Colorado layers 13 to 21 are nine different byways, yet all give the file name "CO". */
  lemma ColoradoLayersShareFilename()
    ensures forall id :: 13 <= id <= 21 ==> GetTargetOutFilename(id) == Ok("CO")
    ensures forall id :: 13 <= id <= 21 ==> GetTargetLocation(id) == TargetLocation("US", Some("CO"), Some("Colorado"))
    ensures forall i, j :: 5 <= i < j <= 13 ==> LayerMap[i].1.layer != LayerMap[j].1.layer
  {
    forall id | 13 <= id <= 21
      ensures GetTargetOutFilename(id) == Ok("CO")
      ensures GetTargetLocation(id) == TargetLocation("US", Some("CO"), Some("Colorado"))
    {
      var i := id - 8;
      assert 5 <= i <= 13 && LayerMap[i].0 == id && LayerMap[i].1.iso2 == "CO" && LayerMap[i].1.state == "Colorado" by {
        assert i == 5 || i == 6 || i == 7 || i == 8 || i == 9 || i == 10 || i == 11 || i == 12 || i == 13;
      }
      LookupAgreesWithLayerMap(i);
    }
  }

  /** An id LAYER_MAP lacks has no state, and no output file name. */
  lemma UnknownLayer()
    ensures GetTargetLocation(4) == TargetLocation("US", None, None)
    ensures GetTargetOutFilename(4).Err?
  {
    PositionsOfTable();
  }

  /** Layer i's state code is one StateMapper knows, under the same state name. */
  predicate StateOfLayer(i: nat)
    requires i < |LayerMap|
  {
    var info := LayerMap[i].1;
    0 <= Slot(info.iso2) < |States| && States[Slot(info.iso2)] == (info.iso2, info.state)
  }

  /** Every layer's state agrees with StateMapper: its code resolves to its state name. */
  lemma LayersAgreeWithStateMapper()
    ensures forall i :: 0 <= i < |LayerMap| ==> GetNameByCode(LayerMap[i].1.iso2) == Ok(LayerMap[i].1.state)
  {
    StatesOfLayers0();
    StatesOfLayers1();
    StatesOfLayers2();
    StatesOfLayers3();
    StatesOfLayers4();
    StatesOfLayers5();
    StatesOfLayers6();
    StatesOfLayers7();
    StatesOfLayers8();
    StatesOfLayers9();
    StatesOfLayers10();
    StatesOfLayers11();
    forall i | 0 <= i < |LayerMap| ensures GetNameByCode(LayerMap[i].1.iso2) == Ok(LayerMap[i].1.state) {
      LayerAgrees(i);
    }
  }

  lemma LayerAgrees(i: nat)
    requires i < |LayerMap| && StateOfLayer(i)
    ensures GetNameByCode(LayerMap[i].1.iso2) == Ok(LayerMap[i].1.state)
  {
    LookupAgreesWithTable(Slot(LayerMap[i].1.iso2));
  }

  lemma StatesOfLayers0()
    ensures forall i :: 0 <= i < 5 ==> StateOfLayer(i)
  {
    forall i | 0 <= i < 5 ensures StateOfLayer(i) {
      assert i == 0 || i == 1 || i == 2 || i == 3 || i == 4;
    }
  }

  lemma StatesOfLayers1()
    ensures forall i :: 5 <= i < 10 ==> StateOfLayer(i)
  {
    forall i | 5 <= i < 10 ensures StateOfLayer(i) {
      assert i == 5 || i == 6 || i == 7 || i == 8 || i == 9;
    }
  }

  lemma StatesOfLayers2()
    ensures forall i :: 10 <= i < 15 ==> StateOfLayer(i)
  {
    forall i | 10 <= i < 15 ensures StateOfLayer(i) {
      assert i == 10 || i == 11 || i == 12 || i == 13 || i == 14;
    }
  }

  lemma StatesOfLayers3()
    ensures forall i :: 15 <= i < 20 ==> StateOfLayer(i)
  {
    forall i | 15 <= i < 20 ensures StateOfLayer(i) {
      assert i == 15 || i == 16 || i == 17 || i == 18 || i == 19;
    }
  }

  lemma StatesOfLayers4()
    ensures forall i :: 20 <= i < 25 ==> StateOfLayer(i)
  {
    forall i | 20 <= i < 25 ensures StateOfLayer(i) {
      assert i == 20 || i == 21 || i == 22 || i == 23 || i == 24;
    }
  }

  lemma StatesOfLayers5()
    ensures forall i :: 25 <= i < 30 ==> StateOfLayer(i)
  {
    forall i | 25 <= i < 30 ensures StateOfLayer(i) {
      assert i == 25 || i == 26 || i == 27 || i == 28 || i == 29;
    }
  }

  lemma StatesOfLayers6()
    ensures forall i :: 30 <= i < 35 ==> StateOfLayer(i)
  {
    forall i | 30 <= i < 35 ensures StateOfLayer(i) {
      assert i == 30 || i == 31 || i == 32 || i == 33 || i == 34;
    }
  }

  lemma StatesOfLayers7()
    ensures forall i :: 35 <= i < 40 ==> StateOfLayer(i)
  {
    forall i | 35 <= i < 40 ensures StateOfLayer(i) {
      assert i == 35 || i == 36 || i == 37 || i == 38 || i == 39;
    }
  }

  lemma StatesOfLayers8()
    ensures forall i :: 40 <= i < 45 ==> StateOfLayer(i)
  {
    forall i | 40 <= i < 45 ensures StateOfLayer(i) {
      assert i == 40 || i == 41 || i == 42 || i == 43 || i == 44;
    }
  }

  lemma StatesOfLayers9()
    ensures forall i :: 45 <= i < 50 ==> StateOfLayer(i)
  {
    forall i | 45 <= i < 50 ensures StateOfLayer(i) {
      assert i == 45 || i == 46 || i == 47 || i == 48 || i == 49;
    }
  }

  lemma StatesOfLayers10()
    ensures forall i :: 50 <= i < 55 ==> StateOfLayer(i)
  {
    forall i | 50 <= i < 55 ensures StateOfLayer(i) {
      assert i == 50 || i == 51 || i == 52 || i == 53 || i == 54;
    }
  }

  lemma StatesOfLayers11()
    ensures forall i :: 55 <= i < 56 ==> StateOfLayer(i)
  {
    forall i | 55 <= i < 56 ensures StateOfLayer(i) {
      assert i == 55;
    }
  }

  // ---------------------------------------------------------------------
  // Road names
  // ---------------------------------------------------------------------

  /** The properties normalizeRoadName reads the raw name from, best first. */
  const NameKeys: seq<string> := ["NAME", "Name", "name", "LOCATION", "DESCRIPT", "Byway_Name"]

  /** The abbreviations normalizeRoadName expands, in the order they are applied. */
  const Expansions: seq<Rule> := [
    Rule(" PKWY", " Parkway"), Rule(" HWY", " Highway"), Rule(" EXPY", " Expressway"),
    Rule(" TRCE", " Trace"), Rule(" RD", " Road"), Rule(" BLVD", " Boulevard"),
    Rule(" NP", " National Park"), Rule(" TRL", " Trail"), Rule(" RTE", " Route"),
    Rule(" ST", " Street"), Rule(" AVE", " Avenue"), Rule(" DR", " Drive"),
    Rule(" LN", " Lane"), Rule(" CIR", " Circle"), Rule(" WAY", " Way"),
    Rule(" BYP", " Bypass"), Rule(" TPKE", " Turnpike")
  ]

  /** The trimmed raw name: the first of NameKeys that is present. */
  function RawName(props: map<string, string>): string {
    Trim(FirstPresent(props, NameKeys))
  }

  /**
   * The str_ireplace call of normalizeRoadName. No expansion is shorter than
   * its abbreviation, and none is shorter than three bytes, so a shorter
   * input is returned as it is.
   */
  function Expand(raw: string): (r: string)
    ensures |r| >= |raw|
    ensures |raw| < 3 ==> r == raw
    // every abbreviation starts with a space, so a one-word name is never expanded
    ensures ' ' !in raw ==> r == raw
  {
    ExpansionsWellFormed();
    ReplaceAllBounds(raw, Expansions, 3);
    assert ' ' !in raw ==> ReplaceAllIgnoreCase(raw, Expansions) == raw by {
      if ' ' !in raw {
        ReplaceAllWithoutSpace(raw, Expansions);
      }
    }
    ReplaceAllIgnoreCase(raw, Expansions)
  }

  /**
   * normalizeRoadName after the raw name is picked and trimmed: "" when it
   * is empty(); otherwise the abbreviations are expanded (case-insensitively,
   * as substrings, in list order), then the result is lowered and title-cased.
   */
  function CleanName(raw: string): (r: string)
    ensures PhpEmpty(raw) ==> r == ""
    ensures !PhpEmpty(raw) ==> |r| >= |raw|
    // the expanded name up to case, in title case
    ensures !PhpEmpty(raw) ==> ToLower(r) == ToLower(Expand(raw)) && TitleCase(r) == r
  {
    if PhpEmpty(raw) then ""
    else
      var lowered := ToLower(Expand(raw));
      ToLowerIdempotent(Expand(raw));
      TitleCaseIdempotent(lowered);
      TitleCase(lowered)
  }

  /** normalizeRoadName. */
  function NormalizeRoadName(props: map<string, string>): string {
    CleanName(RawName(props))
  }

  lemma ExpansionsWellFormed()
    ensures NonEmptySearches(Expansions) && Lengthening(Expansions) && SearchesAtLeast(Expansions, 3)
    ensures SearchesStartWithSpace(Expansions)
  {
  }

  /** The name a U.S. DOT feature is grouped under: ferry routes and empty() names are skipped. */
  function UsDotName(f: Feature): Option<string> {
    if IsFerry(f) then None
    else
      var name := NormalizeRoadName(f.properties);
      if PhpEmpty(name) then None else Some(name)
  }

  /** mergeFeaturesByName of this source: grouping under the normalised name. */
  method MergeFeaturesByName(features: seq<Feature>) returns (roads: seq<Road>)
    ensures roads == Merged(features, UsDotName)
  {
    roads := FeatureGrouping.MergeFeaturesByName(features, UsDotName);
  }

  // ---------------------------------------------------------------------
  // Properties of the names
  // ---------------------------------------------------------------------

  /**
   * The second empty() check, on the normalised name, drops exactly the
   * features whose trimmed raw name is empty(): expansion only lengthens
   * and case conversion turns no byte into "0".
   */
  lemma NormalizedEmptyIff(raw: string)
    ensures PhpEmpty(CleanName(raw)) <==> PhpEmpty(raw)
  {
    if !PhpEmpty(raw) && |CleanName(raw)| == 1 {
      SingleByteName(raw);
    }
  }

  /** A one-byte name is not expanded, and case conversion does not make it "0". */
  lemma SingleByteName(raw: string)
    requires !PhpEmpty(raw) && |CleanName(raw)| == 1
    ensures CleanName(raw) != "0"
  {
    assert |raw| == 1;
    assert Expand(raw) == raw;
    OneByteCaseNotZero(raw);
  }

  /** `RouteType` is "Ferry Route". */
  predicate IsFerry(f: Feature) {
    "RouteType" in f.properties && f.properties["RouteType"] == "Ferry Route"
  }

  /**
   * A road of this source is named after some feature that is not a ferry
   * route, has coordinates and whose trimmed raw name is not empty().
   */
  lemma RoadsComeFromNamedFeatures(features: seq<Feature>, name: string)
    requires name in Names(features, UsDotName)
    ensures exists i ::
      (&& 0 <= i < |features| && !IsFerry(features[i]) && HasCoordinates(features[i].shape)
       && !PhpEmpty(RawName(features[i].properties))
       && NormalizeRoadName(features[i].properties) == name)
  {
    NamesExactly(features, UsDotName, name);
    var i :| 0 <= i < |features| && KeyOf(features[i], UsDotName) == Some(name);
    KeptFeature(features[i], name);
  }

  lemma KeptFeature(f: Feature, name: string)
    requires KeyOf(f, UsDotName) == Some(name)
    ensures !IsFerry(f) && HasCoordinates(f.shape)
    ensures !PhpEmpty(RawName(f.properties)) && NormalizeRoadName(f.properties) == name
  {
    NormalizedEmptyIff(RawName(f.properties));
  }

  /** Abbreviations are matched as substrings: " ST" inside " STAR" is expanded too. */
  lemma SubstringExpansion()
    ensures ReplaceIgnoreCase("A STAR", " ST", " Street") == "A StreetAR"
  {
    assert "A STAR"[0..3] == "A S";
    assert ToLower("A S") == "a s" && ToLower(" ST") == " st";
    assert !OccursAt("A STAR", " ST", 0);
    assert "A STAR"[1..] == " STAR";
    assert ReplaceIgnoreCase("A STAR", " ST", " Street")
        == ['A'] + ReplaceIgnoreCase(" STAR", " ST", " Street");
    StreetInsideStar();
  }

  lemma StreetInsideStar()
    ensures ReplaceIgnoreCase(" STAR", " ST", " Street") == " StreetAR"
  {
    assert OccursAt(" STAR", " ST", 0);
    assert " STAR"[3..] == "AR";
    assert ReplaceIgnoreCase("AR", " ST", " Street") == "AR";
  }

  /** Normalised names are in title case already: title-casing them again changes nothing. */
  lemma NamesAreTitleCase(raw: string)
    ensures TitleCase(CleanName(raw)) == CleanName(raw)
  {
    if !PhpEmpty(raw) {
      TitleCaseIdempotent(ToLower(Expand(raw)));
    }
  }
}
