/**
 * `assign_map_category`: the one category of a preprocessed row, chosen by
 * the first rule that applies, which colours the row's marker on the map.
 */
module Classify {
  import opened Cells
  import opened Frame

  datatype Category = MissingInGoogleMaps | MissingInDatabase | FullyCorrect | Discrepant

  /** The text the dashboard shows for each category. */
  function CategoryName(c: Category): string {
    match c
    case MissingInGoogleMaps => "Missing Location in Google Maps"
    case MissingInDatabase => "Missing Location in Database"
    case FullyCorrect => "Fully Correct"
    case Discrepant => "Discrepant"
  }

  /** The rules in priority order: a missing place id first, then a missing
      external reference, then the connector match. */
  function AssignMapCategory(row: Row): (c: Category)
    ensures c == MissingInGoogleMaps <==> row.missingPlaceId
    ensures c == MissingInDatabase <==> !row.missingPlaceId && row.missingExternalReference
    ensures c == FullyCorrect <==> !row.missingPlaceId && !row.missingExternalReference && row.connectorMatch
    ensures c == Discrepant <==> !row.missingPlaceId && !row.missingExternalReference && !row.connectorMatch
  {
    if row.missingPlaceId then MissingInGoogleMaps
    else if row.missingExternalReference then MissingInDatabase
    else if row.connectorMatch then FullyCorrect
    else Discrepant
  }

  /** The power match never decides the category. */
  lemma PowerMatchNeverDecides(row: Row, powerMatch: bool)
    ensures AssignMapCategory(row.(powerMatch := powerMatch)) == AssignMapCategory(row)
  {
  }

  /** Four different names, so the colour map tells the categories apart. */
  lemma CategoryNamesDistinct(c: Category, d: Category)
    ensures c != d ==> CategoryName(c) != CategoryName(d)
  {
  }

  /** In terms of the sheet row: "Fully Correct" exactly when both ids are
      there and the connector-match cell is truthy. */
  lemma FullyCorrectFromSheet(row: Row, raw: RawRow, env: Env)
    requires DerivedFrom(row, raw, env)
    ensures AssignMapCategory(row) == FullyCorrect <==>
      !raw.placeId.Absent? && !raw.externalReference.Absent? && AsBool(raw.connectorMatch)
  {
  }
}
