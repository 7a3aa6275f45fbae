# Scenic roads pipeline — a verified model of its geometry and data core

The scenic roads pipeline collects scenic byways from remote GIS sources (the
ArcGIS feature service and the U.S. DOT scenic byways map server). It turns
each road into a record, stitches its geometry into continuous chains, fills
in and smooths its elevation profile, and writes one JSON file per target.
This project models the deterministic core of that pipeline in Dafny and
proves what each part promises.

- **Segment stitching** (`GeometryOptimizer`, `geometry_optimizer.dfy`). The
  loop of `optimize` is a method working on a shrinking pool and a growing
  chain. It is proved equal to the specification functions
  `FirstMatch`/`Grow`/`Chains`. Lemmas about those functions give:
  - the point accounting: join points are dropped, nothing else is lost;
  - closed chains are maximal;
  - first-match order.
- **Elevation** (`ElevationLookup`, `ElevationBackfill`,
  `ElevationSmoothing`, `OpenElevationService`). This covers:
  - the batched lookup of `getElevationData`, with the HTTP service as a
    function parameter `Lookup`;
  - the backfill of `processPoints`;
  - the moving average of `applySmoothing`;
  - `enrichGeometry`.

  Every method is proved against a function of its inputs. The requests
  sent are returned alongside the result, so "one request per batch with a
  finite point, in order, at most 1000 locations" is a stated fact.
- **Sources** (`AbstractSource`, `FeatureGrouping`, `ArcGisSource`,
  `UsDotScenicBywaysSource`, `StateMapper`):
  - the item validation of `getTargetData`;
  - `mergeFeaturesByName`, shared by both remote sources with the
    source-specific naming as a parameter;
  - the name normalisation of the U.S. DOT source;
  - the `LAYER_MAP` and `STATES` tables and the lookups over them.
- **Records and files** (`RoadDTO`, `WikidataService`, `RoadEnricher`,
  `PhpStrings`):
  - `fromArray` and its defaults;
  - the length unit conversion;
  - the image file name and the output path;
  - the PHP string functions these rely on, on byte strings.

Coordinates and elevations are mathematical reals. A coordinate is either a
finite number or `NonFinite` (NaN or an infinity), so `is_finite` and the
behaviour of float comparisons on NaN can be expressed. A missing or null
elevation is `None`.

## Model

| member | source | states |
|---|---|---|
| `GeometryOptimizer.DistSq` | src/Service/GeometryOptimizer.php:105-108 | squared planar distance over the first two coordinates only, never negative |
| `GeometryOptimizer.TryMerge` | src/Service/GeometryOptimizer.php:56-95 | None exactly when none of the four endpoint pairs is closer than the tolerance. Otherwise the result has \|chain\|+\|segment\|−1 points. The four cases are tried in the source's order and the first close pair decides. End to segment start: the segment without its first point follows the chain in order. End to segment end: it follows reversed. Only when neither end pair is close, start to segment end: the segment without its last point comes first, in order. Start to segment start: it comes first, reversed |
| `GeometryOptimizer.Appended` | src/Service/GeometryOptimizer.php:67-78 | append cases: the chain, then the segment's points after its first one (the join point), in order |
| `GeometryOptimizer.Prepended` | src/Service/GeometryOptimizer.php:80-91 | prepend cases: the segment's points before its last one (the join point), in order, then the chain |
| `GeometryOptimizer.Reverse` | src/Service/GeometryOptimizer.php:75 | array_reverse: same length and points, position i holds point \|s\|−1−i |
| `GeometryOptimizer.Remove` | src/Service/GeometryOptimizer.php:35 | unset of one pool entry: the other segments stay in their order |
| `GeometryOptimizer.FirstMatch` | src/Service/GeometryOptimizer.php:30-40 | the index found touches the chain and no earlier segment does; None means no segment of the pool touches it |
| `GeometryOptimizer.Grow` | src/Service/GeometryOptimizer.php:26-41 | growing never shortens the chain nor lengthens the pool, and what is left of the pool has no empty segment |
| `GeometryOptimizer.Chains` | src/Service/GeometryOptimizer.php:20-45 | at most one chain per segment, none of them empty |
| `GeometryOptimizer.FindMerge` | src/Service/GeometryOptimizer.php:30-40 | the foreach scan with its break returns exactly FirstMatch, and the merge result it found; the chain itself when nothing merges |
| `GeometryOptimizer.GrowChain` | src/Service/GeometryOptimizer.php:22-41 | the `while ($extended)` loop computes Grow of the seed and the rest of the pool |
| `GeometryOptimizer.Optimize` | src/Service/GeometryOptimizer.php:11-51 | with no empty segment, a MultiLineString of Chains of the segments, in creation order. A lone empty segment comes back as the only chain. An empty segment beside any other one is a TypeError |
| `GeometryOptimizer.GrowLength` | src/Service/GeometryOptimizer.php:26-41 | each merge consumes one pool segment and adds all of its points but one |
| `GeometryOptimizer.GrowPoints` | src/Service/GeometryOptimizer.php:26-41 | growing brings in no point that was not in the chain or the pool (multiset inclusion) |
| `GeometryOptimizer.GrowLeftovers` | src/Service/GeometryOptimizer.php:30-36 | the segments left are segments of the pool (multiset inclusion) |
| `GeometryOptimizer.GrowClosed` | src/Service/GeometryOptimizer.php:26-44 | a closed chain touches none of the remaining segments, so TryMerge accepts none of them |
| `GeometryOptimizer.ChainsAccounting` | src/Service/GeometryOptimizer.php:20-45 | output points = input points − (segments − chains); no point is invented; a non-empty input gives at least one chain |
| `GeometryOptimizer.NoSpuriousMerge` | src/Service/GeometryOptimizer.php:20-45 | two segments that do not touch come out as two chains, in input order |
| `GeometryOptimizer.LineStringIsOneChain` | src/Service/GeometryOptimizer.php:97-103 | a LineString comes back as the single chain of a MultiLineString |
| `GeometryOptimizer.JoinExample` | src/Service/GeometryOptimizer.php:67-71 | end-to-start join keeps the join point once; a far segment stays a separate chain |
| `GeometryOptimizer.ReversalExample` | src/Service/GeometryOptimizer.php:73-78 | an end-to-end join reverses the segment |
| `ElevationLookup.Locations` | src/Service/OpenElevationService.php:154-166 | the payload of a batch is never longer than the batch; LocationAtRank and RequestsCoverAll say what it holds |
| `ElevationLookup.BatchStart` | src/Service/OpenElevationService.php:147 | array_chunk by 1000: an index lies in the 1000-wide batch that starts at BatchStart |
| `ElevationLookup.Requests` | src/Service/OpenElevationService.php:147-175 | every request sent holds between 1 and 1000 locations |
| `ElevationLookup.BuildPayload` | src/Service/OpenElevationService.php:150-166 | the payload is the batch's finite points in order. mapIndex[k] is the input index of entry k, and every finite point's rank maps back to that point |
| `ElevationLookup.Scatter` | src/Service/OpenElevationService.php:180-185 | each finite point of the batch gets the reply value at its rank, a missing or null one gives 0, and extra results are ignored. Positions outside the batch are unchanged |
| `ElevationLookup.ProcessBatch` | src/Service/OpenElevationService.php:149-189 | one batch: its slots become ElevationAt, nothing else changes, and one request is sent exactly when its payload is non-empty |
| `ElevationLookup.NextBatch` | src/Service/OpenElevationService.php:149-189 | after one more batch, the slots up to its end are ElevationAt and the requests so far plus those of the rest are all requests |
| `ElevationLookup.GetElevationData` | src/Service/OpenElevationService.php:140-192 | exactly one value per input point, position i being ElevationAt(i), and the requests sent are Requests, in batch order |
| `ElevationLookup.LocationAtRank` | src/Service/OpenElevationService.php:163-165 | a finite point is the payload entry at its rank |
| `ElevationLookup.RequestsCoverAll` | src/Service/OpenElevationService.php:147-175 | the requests, joined, are the finite points of the whole input: each is sent exactly once, in order |
| `ElevationLookup.AlignedAnswers` | src/Service/OpenElevationService.php:180-184 | if the service answers each location with its elevation, each finite point gets its own location's elevation |
| `ElevationLookup.ZeroFallbacks` | src/Service/OpenElevationService.php:143-188 | a non-finite point gets 0, and every point gets 0 when the service always fails |
| `ElevationBackfill.Missing` | src/Service/OpenElevationService.php:107-112 | the points to fetch all lack an elevation and are at most the whole line |
| `ElevationBackfill.MissingRank` | src/Service/OpenElevationService.php:124-129 | a point without elevation sits in the fetched list at its rank |
| `ElevationBackfill.Backfill` | src/Service/OpenElevationService.php:103-132 | length and x/y are kept; points that had an elevation are unchanged; afterwards every point has one |
| `ElevationBackfill.BackfillRequests` | src/Service/OpenElevationService.php:114-121 | the requests of a line, joined, are the finite points lacking an elevation |
| `ElevationBackfill.CollectMissing` | src/Service/OpenElevationService.php:107-112 | the points to fetch are Missing, and each comes with the original index it was taken from |
| `ElevationBackfill.ProcessPoints` | src/Service/OpenElevationService.php:103-132 | the result is Backfill and the requests are BackfillRequests; the line is returned as is, with no request, when nothing is missing |
| `ElevationBackfill.BackfillIdempotent` | src/Service/OpenElevationService.php:114-117 | a backfilled line is never looked up again: it is returned as is and sends nothing |
| `ElevationBackfill.NothingMissing` | src/Service/OpenElevationService.php:108-116 | when every point has an elevation, nothing is fetched |
| `ElevationBackfill.BackfillAligned` | src/Service/OpenElevationService.php:121-129 | a finite point without elevation gets the elevation of its own location |
| `OpenElevationService.EnrichLine` | src/Service/OpenElevationService.php:35-50 | an enriched line keeps length and x/y and every point has an elevation |
| `OpenElevationService.Enriched` | src/Service/OpenElevationService.php:29-53 | a LineString stays a LineString and a MultiLineString stays a MultiLineString, each the same length; other geometries are unchanged |
| `OpenElevationService.BackfillLines` | src/Service/OpenElevationService.php:37-41 | each line is backfilled, and the requests are those of each line, line after line |
| `OpenElevationService.SmoothLines` | src/Service/OpenElevationService.php:46-50 | each line is smoothed |
| `OpenElevationService.EnrichGeometry` | src/Service/OpenElevationService.php:29-53 | the result is Enriched and the requests are EnrichRequests, none for other geometry types |
| `OpenElevationService.FullyElevated` | src/Service/OpenElevationService.php:29-53 | after enrichment every point of a LineString or MultiLineString has an elevation |
| `OpenElevationService.ReEnrichSendsNothing` | src/Service/OpenElevationService.php:29-53 | enriching an enriched geometry sends no request |
| `ElevationSmoothing.RoundHalfUp` | src/Service/OpenElevationService.php:90 | rounding a non-negative value lands on one decimal within 0.05 of it |
| `ElevationSmoothing.Round1` | src/Service/OpenElevationService.php:90 | round(x, 1) is within 0.05 of x and keeps its sign |
| `ElevationSmoothing.Smooth` | src/Service/OpenElevationService.php:62-95 | length and x/y are unchanged, and a line of fewer than 3 points is returned as is |
| `ElevationSmoothing.ApplySmoothing` | src/Service/OpenElevationService.php:62-95 | the two nested loops compute Smooth. Each average reads the unsmoothed input, and a point with no sample keeps its elevation |
| `ElevationSmoothing.CountWhenAllSet` | src/Service/OpenElevationService.php:79-85 | on a fully elevated line the sample count is the size of the window clipped to the line |
| `ElevationSmoothing.WindowSize` | src/Service/OpenElevationService.php:79-85 | the window of point i runs from max(0, i−10) to min(n−1, i+10), both included |
| `ElevationSmoothing.WindowExamples` | src/Service/OpenElevationService.php:72-85 | a middle point averages 21 samples, and the first point 11 |
| `ElevationSmoothing.KeepsElevation` | src/Service/OpenElevationService.php:79-91 | a point that has an elevation still has one after smoothing |
| `ElevationSmoothing.SumBounds` | src/Service/OpenElevationService.php:79-85 | the window sum lies between count·low and count·high |
| `ElevationSmoothing.NoNewExtremes` | src/Service/OpenElevationService.php:74-91 | a smoothed elevation lies within the range of its window, give or take the 0.05 of rounding |
| `ElevationSmoothing.ConstantLine` | src/Service/OpenElevationService.php:74-91 | a line at constant elevation c stays at round(c, 1) |
| `ElevationSmoothing.RoundSymmetric` | src/Service/OpenElevationService.php:90 | round(−x, 1) = −round(x, 1) |
| `ElevationSmoothing.RoundHalfAwayFromZero` | src/Service/OpenElevationService.php:90 | halves round away from zero: 0.25 → 0.3 and −0.25 → −0.3 |
| `AbstractSource.GetTargetData` | src/Source/AbstractSource.php:18-37 | fails, with the RuntimeException message, exactly when some item lacks name or geometry, and then returns no list. Otherwise one record per item, in order, name and geometry copied verbatim |
| `FeatureGrouping.FirstPresent` | src/Source/ArcGisSource.php:114 | the `??` chain: the value of the first key present, "" when none is |
| `FeatureGrouping.Names` | src/Source/ArcGisSource.php:128-136 | the group names are distinct |
| `FeatureGrouping.MergeFeaturesByName` | src/Source/ArcGisSource.php:107-150 | one MultiLineString per distinct kept name, in first-seen order, holding that name's lines in feature order |
| `FeatureGrouping.MergeFeature` | src/Source/ArcGisSource.php:111-147 | one feature: skipped, or its name added when new and its lines appended to its group |
| `FeatureGrouping.AppendLines` | src/Source/ArcGisSource.php:143-145 | each line of a MultiLineString is appended under the name, in order, and no other name changes |
| `FeatureGrouping.NamesExactly` | src/Source/ArcGisSource.php:111-136 | a name is output exactly when some kept feature (named and with coordinates) carries it |
| `FeatureGrouping.FirstSeenOrder` | src/Source/ArcGisSource.php:128-149 | a name first seen earlier is output earlier |
| `FeatureGrouping.LinesConserved` | src/Source/ArcGisSource.php:138-146 | the groups together hold exactly as many lines as the kept features contribute |
| `FeatureGrouping.OtherTypeOpensEmptyGroup` | src/Source/ArcGisSource.php:128-146 | a feature of another type with coordinates still opens an empty group |
| `ArcGisSource.GetTargets` | src/Source/ArcGisSource.php:34-43 | "all" among the choices gives 59 distinct codes, exactly those getNameByCode accepts; otherwise the selection as it is |
| `ArcGisSource.GetTargetOutFilename` | src/Source/ArcGisSource.php:64-67 | the file name is the state code itself |
| `ArcGisSource.GetTargetLocation` | src/Source/ArcGisSource.php:55-62 | "US", the code and its StateMapper name; an unknown code fails with StateMapper's message |
| `ArcGisSource.MergeFeaturesByName` | src/Source/ArcGisSource.php:107-150 | grouping under the trimmed first present Name/name/Byway_Name |
| `ArcGisSource.AllTargetsResolve` | src/Source/ArcGisSource.php:43-61 | every target getTargets returns for "all" has a location with a state name |
| `ArcGisSource.BlankNameHidesOthers` | src/Source/ArcGisSource.php:114-119 | `??` does not skip a blank Name; such a feature is dropped even when name is set |
| `ArcGisSource.KeptNamesAreTrimmed` | src/Source/ArcGisSource.php:114-119 | a kept name is trimmed and not empty() |
| `UsDotScenicBywaysSource.FindLayer` | src/Source/UsDotScenicBywaysSource.php:12-70 | `LAYER_MAP[$id]`: None exactly when the id is not declared; otherwise an entry of the table |
| `UsDotScenicBywaysSource.GetTargetLocation` | src/Source/UsDotScenicBywaysSource.php:118-125 | "US" plus the layer's iso2 and state, both null for an undeclared id |
| `UsDotScenicBywaysSource.GetTargetOutFilename` | src/Source/UsDotScenicBywaysSource.php:127-130 | the layer's iso2; an undeclared id is a TypeError |
| `UsDotScenicBywaysSource.PositionsOfTable` | src/Source/UsDotScenicBywaysSource.php:12-70 | the declared ids are 3..11 odd, 13..21, then 23..105 odd, in order, so no id repeats |
| `UsDotScenicBywaysSource.LookupAgreesWithLayerMap` | src/Source/UsDotScenicBywaysSource.php:12-70 | every declared id finds its own entry |
| `UsDotScenicBywaysSource.ColoradoLayersShareFilename` | src/Source/UsDotScenicBywaysSource.php:18-26 | layers 13–21 are nine different byways, yet all give "CO" and the same location |
| `UsDotScenicBywaysSource.UnknownLayer` | src/Source/UsDotScenicBywaysSource.php:118-130 | an undeclared id has null state fields and no output file name |
| `UsDotScenicBywaysSource.LayersAgreeWithStateMapper` | src/Source/UsDotScenicBywaysSource.php:13-68 | every layer's iso2 resolves in StateMapper to the layer's own state name |
| `UsDotScenicBywaysSource.ExpansionsWellFormed` | src/Source/UsDotScenicBywaysSource.php:229-247 | every abbreviation is at least 3 bytes and no expansion is shorter than its abbreviation |
| `UsDotScenicBywaysSource.Expand` | src/Source/UsDotScenicBywaysSource.php:229-249 | expansion never shortens a name; a name under 3 bytes, or without a space, is unchanged |
| `UsDotScenicBywaysSource.CleanName` | src/Source/UsDotScenicBywaysSource.php:224-252 | an empty() raw name gives "". Any other gives the expanded name up to case, in title case, never shorter |
| `UsDotScenicBywaysSource.MergeFeaturesByName` | src/Source/UsDotScenicBywaysSource.php:163-210 | grouping under the normalised name; ferry routes and empty() names are skipped |
| `UsDotScenicBywaysSource.NormalizedEmptyIff` | src/Source/UsDotScenicBywaysSource.php:175-179 | the normalised name is empty() exactly when the trimmed raw name is |
| `UsDotScenicBywaysSource.RoadsComeFromNamedFeatures` | src/Source/UsDotScenicBywaysSource.php:167-186 | each output name comes from a feature with coordinates that is not a ferry route and whose raw name is not empty() |
| `UsDotScenicBywaysSource.KeptFeature` | src/Source/UsDotScenicBywaysSource.php:171-186 | a kept feature is no ferry route, has coordinates and a non-empty() raw name |
| `UsDotScenicBywaysSource.SubstringExpansion` | src/Source/UsDotScenicBywaysSource.php:249 | abbreviations match as substrings: " ST" in "A STAR" gives "A StreetAR" |
| `UsDotScenicBywaysSource.NamesAreTitleCase` | src/Source/UsDotScenicBywaysSource.php:252 | normalised names are already in title case |
| `StateMapper.IndexOf` | src/Utils/StateMapper.php:78 | the row holding the code, None exactly when the code is not a key |
| `StateMapper.GetNameByCode` | src/Utils/StateMapper.php:76-82 | succeeds exactly on the table's codes, with a name paired with the code in the table. Otherwise the InvalidArgumentException message |
| `StateMapper.GetAllStates` | src/Utils/StateMapper.php:90-93 | the whole table, 59 entries |
| `StateMapper.SlotsOfTable` | src/Utils/StateMapper.php:7-67 | each code sits at its own position of the table |
| `StateMapper.CodesDistinct` | src/Utils/StateMapper.php:7-67 | no code appears twice |
| `StateMapper.LookupAgreesWithTable` | src/Utils/StateMapper.php:76-82 | every listed code gives exactly its own name |
| `StateMapper.SucceedsOnAllStates` | src/Utils/StateMapper.php:76-93 | getNameByCode succeeds exactly on the keys of getAllStates |
| `StateMapper.UnlistedRejected` | src/Utils/StateMapper.php:78-80 | anything that is not a listed two-letter code is rejected |
| `StateMapper.Colorado` | src/Utils/StateMapper.php:14 | "CO" is Colorado |
| `StateMapper.CaseSensitive` | src/Utils/StateMapper.php:78-80 | keys are compared exactly: "co" is rejected |
| `WikidataService.NormalizeLength` | src/Service/WikidataService.php:94-111 | null when amount or unit is missing; a value exactly for the five known unit ids |
| `WikidataService.FalsyGuardRedundant` | src/Service/WikidataService.php:38-44 | length_km is null for an absent claim, and otherwise normalizeLength of it |
| `WikidataService.YardsAndMiles` | src/Service/WikidataService.php:104-108 | 1760 yards convert to the same length as a mile |
| `WikidataService.FeetAndYards` | src/Service/WikidataService.php:107-108 | 3 feet convert to the same length as a yard |
| `WikidataService.MetresAndKilometres` | src/Service/WikidataService.php:105-106 | 1000 metres convert to the same length as a kilometre |
| `WikidataService.KilometresUnchanged` | src/Service/WikidataService.php:101-106 | a length in kilometres is returned as it is |
| `WikidataService.MilesToKilometres` | src/Service/WikidataService.php:101-104 | a length in miles is multiplied by 1.609344 |
| `WikidataService.MilesExample` | src/Service/WikidataService.php:101-104 | the unit id is the last path component of the URI: 10 miles are 16.09344 km |
| `RoadDTO.New` | src/Model/RoadDTO.php:7-21 | the constructor's defaults: "Unnamed Route", empty geom and tags, null length and image |
| `RoadDTO.FromArray` | src/Model/RoadDTO.php:26-43 | fails exactly without countryIso2, which is otherwise copied. name defaults to "Unnamed Route" and tags to []. geom and the eight nullable fields are copied, null when absent. lengthKm is the float cast of the given value, null when absent |
| `RoadDTO.DefaultsAgree` | src/Model/RoadDTO.php:7-43 | an array with only the country code gives the constructor's default record |
| `RoadDTO.RoundTrip` | src/Model/RoadDTO.php:26-43 | reading back a record's own array gives the record |
| `RoadDTO.LengthCast` | src/Model/RoadDTO.php:37 | an int length is cast to the same float |
| `RoadEnricher.OutputFilePath` | src/Pipeline/RoadEnricher.php:182-187 | the path starts with the output path and ends in ".json", 12 bytes longer than its parts |
| `RoadEnricher.SafeName` | src/Pipeline/RoadEnricher.php:194 | same length, only [a-zA-Z0-9_-] bytes, and allowed bytes are kept |
| `RoadEnricher.Extension` | src/Pipeline/RoadEnricher.php:195 | the extension holds no slash and no dot |
| `RoadEnricher.ExtensionOrJpg` | src/Pipeline/RoadEnricher.php:195 | the path's extension when it is not falsy, "jpg" otherwise; never empty |
| `RoadEnricher.ImageFileName` | src/Pipeline/RoadEnricher.php:192-198 | safe name, '.', extension. The only dot is the separator, so both parts can be read back, and there is no slash |
| `RoadEnricher.SafeNameIdempotent` | src/Pipeline/RoadEnricher.php:194 | sanitising twice is sanitising once |
| `RoadEnricher.UnsafeBytesCollide` | src/Pipeline/RoadEnricher.php:194 | "Route 66" and "Route.66" share the image file "Route_66.jpg" |
| `RoadEnricher.OutputPathInjective` | src/Pipeline/RoadEnricher.php:182-187 | two different file names never share a path |
| `RoadEnricher.ArcGisTargetsDoNotCollide` | src/Pipeline/RoadEnricher.php:182-187 | different ArcGIS state codes are written to different files |
| `RoadEnricher.ColoradoLayersShareOutputFile` | src/Pipeline/RoadEnricher.php:182-187 | every Colorado layer is written to `{outputPath}/data/us-dot/CO.json` |
| `PhpStrings.Trim` | src/Source/UsDotScenicBywaysSource.php:222 | trim(): the middle part that neither starts nor ends with whitespace, everything dropped being whitespace |
| `PhpStrings.TrimIdempotent` | src/Source/ArcGisSource.php:115 | trimming twice is trimming once |
| `PhpStrings.ToLower` | src/Source/UsDotScenicBywaysSource.php:252 | strtolower: each byte lowered, no upper-case letter left |
| `PhpStrings.ReplaceIgnoreCase` | src/Source/UsDotScenicBywaysSource.php:249 | a text with no case-insensitive occurrence of the search is unchanged |
| `PhpStrings.ReplaceSkipsPrefix` | src/Source/UsDotScenicBywaysSource.php:249 | bytes before the first occurrence are copied as they are |
| `PhpStrings.ReplaceFirstOccurrence` | src/Source/UsDotScenicBywaysSource.php:249 | the leftmost occurrence is replaced and the scan resumes after it, so occurrences never overlap and replacement text is not searched again |
| `PhpStrings.ReplaceAllSequential` | src/Source/UsDotScenicBywaysSource.php:249 | each pair applies to the result of the ones before it: replacing with a then b is replacing with a + b |
| `PhpStrings.NoOccurrenceWithoutSpace` | src/Source/UsDotScenicBywaysSource.php:249 | a search starting with a space occurs only where the text has a space |
| `PhpStrings.ReplaceAllWithoutSpace` | src/Source/UsDotScenicBywaysSource.php:249 | pairs whose searches start with a space leave a text without a space unchanged |
| `PhpStrings.ReplaceNotShorter` | src/Source/UsDotScenicBywaysSource.php:249 | a replacement at least as long as its search never shortens the text |
| `PhpStrings.ReplaceAllNotShorter` | src/Source/UsDotScenicBywaysSource.php:249 | the same for a whole list of such pairs |
| `PhpStrings.ShortInputUnchanged` | src/Source/UsDotScenicBywaysSource.php:249 | a text shorter than every search is unchanged |
| `PhpStrings.ReplaceAllBounds` | src/Source/UsDotScenicBywaysSource.php:249 | both bounds together, for searches of at least n bytes |
| `PhpStrings.ReplaceExamples` | src/Source/UsDotScenicBywaysSource.php:249 | " Hwy" matches " HWY" whatever its case; no occurrence, no change |
| `PhpStrings.Basename` | src/Service/WikidataService.php:101 | basename() holds no slash |
| `PhpStrings.BasenameOfPath` | src/Service/WikidataService.php:101 | the basename of prefix/id is id |
| `PhpStrings.TitleCase` | src/Source/UsDotScenicBywaysSource.php:252 | the input up to case, with a letter upper case exactly when it starts a word |
| `PhpStrings.TitleCaseUnique` | src/Source/UsDotScenicBywaysSource.php:252 | those two properties leave no other result |
| `PhpStrings.TitleCaseIdempotent` | src/Source/UsDotScenicBywaysSource.php:252 | title-casing twice is title-casing once |

## Left out

- HTTP, JSON, caching and rate limiting. The elevation service is the
  `Lookup` function parameter, with `Failed` for a thrown exception. The
  features, items and Wikidata claims that sources fetch are inputs.
  `fetchRawData` of each source is not part of this model.
- IEEE floating point. Coordinates and elevations are reals. NaN and
  infinities are one `NonFinite` value, and a comparison with one is false.
  Float rounding of the distance, the sums and the unit factors is not
  modelled.
- ElevationSmoothing.Round1: PHP's `round()` pre-rounding is not
  modelled. The contract states the 0.05 error bound and the sign, not
  that the result has one decimal. `RoundHalfUp` states the one-decimal
  property for non-negative values.
- Integer elevations from the service or the input, and `floatval` of a
  numeric string amount in `normalizeLength`, are not distinguished from
  reals. Amounts are given as reals.
- PhpStrings.TitleCase: `mb_convert_case(…, MB_CASE_TITLE, "UTF-8")` is
  modelled on ASCII letters only: a letter is upper-cased when the byte
  before it is not a letter. Multi-byte characters are kept as bytes, and
  where PHP's Unicode word rules (digits, apostrophes, non-ASCII letters)
  decide otherwise the model does not follow them.
  `str_ireplace` is modelled as left-to-right, non-overlapping replacement,
  one pair after another.
- UsDotScenicBywaysSource.Expand: its contract states the length facts
  and that a name without a space is unchanged. Which abbreviation is
  replaced where is not stated for a whole name in one formula. It follows
  from the definition, rule by rule, through `ReplaceAllSequential` and
  `ReplaceFirstOccurrence`.
- RoadEnricher.ExtensionOrJpg: `parse_url` is not modelled. The URL's
  path is given as an input, None when `parse_url` yields none.
- GeometryOptimizer.Optimize: PHP raises the TypeError of `distSq` at
  the first `tryMerge` that reads an empty line. The model checks for an
  empty segment before the loop instead. The exception discards the
  partial chains, so the outcome is the same. The error text is not
  PHP's exact message.
- Feature geometry is typed as a `Shape`: a LineString holds a line, a
  MultiLineString a list of lines. Coordinates of the wrong nesting, and
  non-string property values, cannot be expressed.
- U.S. DOT target ids are integers. `getTargets` of that source, a label
  menu built with `sprintf`, is interactive console I/O and is not part of
  this model. Nor is the interactive choice in `getTargets` of ArcGIS,
  whose selection is the input of `ArcGisSource.GetTargets`.
- `LocalFileSource`, `MediaService`, `JsonHandler`, `AIService`,
  `WikipediaService`, `WikidataService::getData` beyond the length rule,
  `fetchImageData`, `RoadEnricher::process`/`processRoad`, the console
  command and the HTTP client. These are foreign calls, file system I/O
  and orchestration.
