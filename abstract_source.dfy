/**
 * AbstractSource::getTargetData: the items a source fetched are checked and
 * turned into RawRoadData records. What fetchRawData returns is the input;
 * how a source fetches it (HTTP, files) is not part of this model.
 */
module AbstractSource {
  import opened Common
  import opened GeoJson

  /** Where a target lies: the country and, when known, the state. */
  datatype TargetLocation = TargetLocation(countryIso2: string, stateIso2: Option<string>, stateName: Option<string>)

  /** One fetched item: its `name` and `geometry` entries, None when missing or null. */
  datatype Item = Item(name: Option<string>, geometry: Option<Geometry>)

  /** The record a source hands to the pipeline. */
  datatype RawRoadData = RawRoadData(name: string, geometry: Geometry)

  /** `isset($item['name'], $item['geometry'])`: both entries present and not null. */
  predicate Complete(item: Item) {
    item.name.Some? && item.geometry.Some?
  }

  function MissingFieldMessage(sourceName: string): string {
    "Source [" + sourceName + "] provided an item missing 'name' or 'geometry'."
  }

  /**
   * getTargetData: a record per item, in item order, each a verbatim copy of
   * the item's name and geometry; a single incomplete item makes the whole
   * call fail (the RuntimeException), and then no record is returned.
   */
  method GetTargetData(sourceName: string, rawData: seq<Item>) returns (r: Result<seq<RawRoadData>, string>)
    ensures r.Err? <==> exists i :: 0 <= i < |rawData| && !Complete(rawData[i])
    ensures r.Err? ==> r.error == MissingFieldMessage(sourceName)
    ensures r.Ok? ==> |r.value| == |rawData|
    ensures r.Ok? ==> forall i :: 0 <= i < |rawData| ==>
      Some(r.value[i].name) == rawData[i].name && Some(r.value[i].geometry) == rawData[i].geometry
  {
    var dtos: seq<RawRoadData> := [];
    for i := 0 to |rawData|
      invariant |dtos| == i
      invariant forall k :: 0 <= k < i ==> Complete(rawData[k])
      invariant forall k :: 0 <= k < i ==>
        Some(dtos[k].name) == rawData[k].name && Some(dtos[k].geometry) == rawData[k].geometry
    {
      var item := rawData[i];
      if !(item.name.Some? && item.geometry.Some?) {
        return Err(MissingFieldMessage(sourceName));
      }
      dtos := dtos + [RawRoadData(item.name.value, item.geometry.value)];
    }
    return Ok(dtos);
  }
}
