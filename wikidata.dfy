/**
 * WikidataService: the road length, read from the P2043 (length) claim of
 * an entity and converted to kilometres. Fetching the entity (HTTP) is not
 * part of this model: the claim's value is the input.
 */
module WikidataService {
  import opened Common
  import opened PhpStrings

  /**
   * The `value` of a P2043 claim: its `amount` and `unit` entries (None when
   * missing or null), and whether it holds any other entry (such as the
   * bounds Wikidata adds), which only matters for PHP's truthiness.
   */
  datatype LengthValue = LengthValue(amount: Option<real>, unit: Option<string>, otherEntries: bool)

  /** Wikidata's unit items, and what one unit is in kilometres. */
  const Mile := "Q253276"
  const Metre := "Q828224"
  const Kilometre := "Q11573"
  const Foot := "Q3710"
  const Yard := "Q174728"

  /**
   * normalizeLength: null when the amount or the unit is missing; otherwise
   * the amount converted by the unit named by the last path component of the
   * unit URI, and null for any other unit.
   */
  function NormalizeLength(length: LengthValue): (r: Option<real>)
    ensures length.amount.None? || length.unit.None? ==> r.None?
    ensures r.Some? <==>
      (length.amount.Some? && length.unit.Some? && Basename(length.unit.value) in {Mile, Metre, Kilometre, Foot, Yard})
  {
    if length.amount.None? || length.unit.None? then None
    else
      var value := length.amount.value;
      var unitId := Basename(length.unit.value);
      if unitId == Mile then Some(value * 1.609344)
      else if unitId == Metre then Some(value / 1000.0)
      else if unitId == Kilometre then Some(value)
      else if unitId == Foot then Some(value * 0.0003048)
      else if unitId == Yard then Some(value * 0.0009144)
      else None
  }

  /** PHP truthiness of the claim value: an empty array is false. */
  predicate Truthy(length: LengthValue) {
    length.amount.Some? || length.unit.Some? || length.otherEntries
  }

  /** `length_km` in getData: null when the claim is absent or falsy. */
  function LengthKm(claim: Option<LengthValue>): Option<real> {
    if claim.Some? && Truthy(claim.value) then NormalizeLength(claim.value) else None
  }

  // ---------------------------------------------------------------------
  // Properties
  // ---------------------------------------------------------------------

  /** The falsy guard of getData changes nothing: normalizeLength already gives null there. */
  lemma FalsyGuardRedundant(claim: Option<LengthValue>)
    ensures LengthKm(claim) == if claim.Some? then NormalizeLength(claim.value) else None
  {
  }

  /** 1760 yards are a mile, whatever the URI prefix. */
  lemma YardsAndMiles(prefix: string, v: real)
    ensures NormalizeLength(LengthValue(Some(v * 1760.0), Some(prefix + "/" + Yard), false))
         == NormalizeLength(LengthValue(Some(v), Some(prefix + "/" + Mile), false))
  {
    BasenameOfPath(prefix, Yard);
    BasenameOfPath(prefix, Mile);
    assert Basename(prefix + "/" + Yard) == Yard != Mile;
    assert v * 1760.0 * 0.0009144 == v * 1.609344;
  }

  /** 3 feet are a yard. */
  lemma FeetAndYards(prefix: string, v: real)
    ensures NormalizeLength(LengthValue(Some(v * 3.0), Some(prefix + "/" + Foot), false))
         == NormalizeLength(LengthValue(Some(v), Some(prefix + "/" + Yard), false))
  {
    BasenameOfPath(prefix, Foot);
    BasenameOfPath(prefix, Yard);
    assert v * 3.0 * 0.0003048 == v * 0.0009144;
  }

  /** 1000 metres are a kilometre. */
  lemma MetresAndKilometres(prefix: string, v: real)
    ensures NormalizeLength(LengthValue(Some(v * 1000.0), Some(prefix + "/" + Metre), false))
         == NormalizeLength(LengthValue(Some(v), Some(prefix + "/" + Kilometre), false))
  {
    BasenameOfPath(prefix, Metre);
    BasenameOfPath(prefix, Kilometre);
  }

  /** A length in kilometres is returned as it is, whatever the URI prefix. */
  lemma KilometresUnchanged(prefix: string, v: real, others: bool)
    ensures NormalizeLength(LengthValue(Some(v), Some(prefix + "/" + Kilometre), others)) == Some(v)
  {
    BasenameOfPath(prefix, Kilometre);
  }

  /** A length in miles is multiplied by 1.609344, whatever the URI prefix. */
  lemma MilesToKilometres(prefix: string, v: real, others: bool)
    ensures NormalizeLength(LengthValue(Some(v), Some(prefix + "/" + Mile), others)) == Some(v * 1.609344)
  {
    BasenameOfPath(prefix, Mile);
  }

  /** A full Wikidata unit URI for miles: 10 miles are 16.09344 km. */
  lemma MilesExample()
    ensures NormalizeLength(LengthValue(Some(10.0), Some("http://www.wikidata.org/entity/Q253276"), true)) == Some(16.09344)
  {
    BasenameOfPath("http://www.wikidata.org/entity", Mile);
    assert "http://www.wikidata.org/entity" + "/" + Mile == "http://www.wikidata.org/entity/Q253276";
  }
}
