/**
 * What the dashboard shows from the preprocessed rows: the invalid-geometry
 * table, the summary counts, the two "missing" tables, the map markers and
 * the detail table sorted by the two match flags.
 */
module Views {
  import opened Wrappers
  import opened Cells
  import opened Frame
  import opened Classify

  /** `s[mask]`: the elements that satisfy keep, in their original order. */
  function Filter<T(!new)>(s: seq<T>, keep: T -> bool): (r: seq<T>)
    ensures |r| <= |s|
    ensures forall x :: x in r <==> x in s && keep(x)
    decreases |s|
  {
    if s == [] then []
    else (if keep(s[0]) then [s[0]] else []) + Filter(s[1..], keep)
  }

  /** Selection keeps every kept element as often as it occurs, and no other. */
  lemma {:induction false} FilterMultiplicity<T(!new)>(s: seq<T>, keep: T -> bool)
    ensures forall x :: multiset(Filter(s, keep))[x] == if keep(x) then multiset(s)[x] else 0
    decreases |s|
  {
    if s != [] {
      FilterMultiplicity(s[1..], keep);
      assert s == [s[0]] + s[1..];
    }
  }

  /** Selection keeps order: filtering a concatenation filters each part. */
  lemma {:induction false} FilterAppend<T(!new)>(a: seq<T>, b: seq<T>, keep: T -> bool)
    ensures Filter(a + b, keep) == Filter(a, keep) + Filter(b, keep)
    decreases |a|
  {
    if a != [] {
      assert (a + b)[0] == a[0];
      assert (a + b)[1..] == a[1..] + b;
      FilterAppend(a[1..], b, keep);
    } else {
      assert a + b == b;
    }
  }

  /** Two masks that agree on every element select the same rows. */
  lemma {:induction false} FilterSameMask<T(!new)>(s: seq<T>, p: T -> bool, q: T -> bool)
    requires forall x :: x in s ==> p(x) == q(x)
    ensures Filter(s, p) == Filter(s, q)
    decreases |s|
  {
    if s != [] {
      FilterSameMask(s[1..], p, q);
    }
  }

  /** A mask that is the disjoint union of two others selects as many rows as
      they do together. */
  lemma {:induction false} FilterCountSplit<T(!new)>(s: seq<T>, p: T -> bool, q: T -> bool, r: T -> bool)
    requires forall x :: x in s ==> (p(x) <==> q(x) || r(x)) && !(q(x) && r(x))
    ensures |Filter(s, p)| == |Filter(s, q)| + |Filter(s, r)|
    decreases |s|
  {
    if s != [] {
      FilterCountSplit(s[1..], p, q, r);
    }
  }

  /** Masks that agree position by position on two equally long sequences
      select equally many elements. */
  lemma {:induction false} FilterCountTransfer<T(!new), U(!new)>(s: seq<T>, t: seq<U>, p: T -> bool, q: U -> bool)
    requires |s| == |t|
    requires forall i :: 0 <= i < |s| ==> p(s[i]) == q(t[i])
    ensures |Filter(s, p)| == |Filter(t, q)|
    decreases |s|
  {
    if s != [] {
      FilterCountTransfer(s[1..], t[1..], p, q);
    }
  }

  /** A mask and its complement split the rows between them. */
  lemma {:induction false} FilterPartition<T(!new)>(s: seq<T>, p: T -> bool, q: T -> bool)
    requires forall x :: x in s ==> q(x) == !p(x)
    ensures multiset(Filter(s, p)) + multiset(Filter(s, q)) == multiset(s)
    ensures |Filter(s, p)| + |Filter(s, q)| == |s|
    decreases |s|
  {
    if s != [] {
      FilterPartition(s[1..], p, q);
      assert s == [s[0]] + s[1..];
    }
    assert |multiset(Filter(s, p))| == |Filter(s, p)|;
    assert |multiset(Filter(s, q))| == |Filter(s, q)|;
  }

  predicate IsMissingPlaceId(row: Row) { row.missingPlaceId }
  predicate IsMissingExternalReference(row: Row) { row.missingExternalReference }
  predicate IsMissingBoth(row: Row) { row.missingPlaceId && row.missingExternalReference }
  predicate HasBothIds(row: Row) { !row.missingPlaceId && !row.missingExternalReference }
  predicate HasInvalidGeometry(row: Row) { row.latitude.None? || row.longitude.None? }
  predicate HasLocation(row: Row) { row.latitude.Some? && row.longitude.Some? }

  function InCategory(c: Category): Row -> bool {
    (row: Row) => AssignMapCategory(row) == c
  }

  /** `invalid_geometry_rows`: a missing latitude or a missing longitude. */
  function InvalidGeometry(rows: seq<Row>): (r: seq<Row>)
    ensures forall x :: x in r <==> x in rows && (x.latitude.None? || x.longitude.None?)
    ensures forall x :: multiset(r)[x] == if (x.latitude.None? || x.longitude.None?) then multiset(rows)[x] else 0
  {
    FilterMultiplicity(rows, HasInvalidGeometry);
    Filter(rows, HasInvalidGeometry)
  }

  /** `missing_google`: the rows without a place id. */
  function MissingGoogle(rows: seq<Row>): (r: seq<Row>)
    ensures forall x :: x in r <==> x in rows && x.missingPlaceId
    ensures forall x :: multiset(r)[x] == if x.missingPlaceId then multiset(rows)[x] else 0
  {
    FilterMultiplicity(rows, IsMissingPlaceId);
    Filter(rows, IsMissingPlaceId)
  }

  /** `missing_db`: the rows without an external reference. */
  function MissingDb(rows: seq<Row>): (r: seq<Row>)
    ensures forall x :: x in r <==> x in rows && x.missingExternalReference
    ensures forall x :: multiset(r)[x] == if x.missingExternalReference then multiset(rows)[x] else 0
  {
    FilterMultiplicity(rows, IsMissingExternalReference);
    Filter(rows, IsMissingExternalReference)
  }

  /** `matched_stations`: the rows with both ids. */
  function MatchedStations(rows: seq<Row>): seq<Row> {
    Filter(rows, HasBothIds)
  }

  /** The table of rows with no place id is exactly the rows the map puts in
      "Missing Location in Google Maps", so its count is that category's. */
  lemma MissingGoogleIsItsCategory(rows: seq<Row>)
    ensures MissingGoogle(rows) == Filter(rows, InCategory(MissingInGoogleMaps))
  {
    FilterSameMask(rows, IsMissingPlaceId, InCategory(MissingInGoogleMaps));
  }

  /** The "Potential Duplicates" count covers the rows categorised "Missing
      Location in Database" and, besides them, exactly the rows missing both ids. */
  lemma DuplicatesCountSplit(rows: seq<Row>)
    ensures |MissingDb(rows)| == |Filter(rows, InCategory(MissingInDatabase))| + |Filter(rows, IsMissingBoth)|
    ensures |MissingDb(rows)| >= |Filter(rows, InCategory(MissingInDatabase))|
  {
    FilterCountSplit(rows, IsMissingExternalReference, InCategory(MissingInDatabase), IsMissingBoth);
  }

  /** Every row is either placed on the map or listed as invalid geometry. */
  lemma LocatedOrInvalid(rows: seq<Row>)
    ensures |Filter(rows, HasLocation)| + |InvalidGeometry(rows)| == |rows|
  {
    FilterPartition(rows, HasLocation, HasInvalidGeometry);
  }

  /** Lexicographic order on (connector_match, power_match), false before true. */
  predicate KeyLe(x: Row, y: Row) {
    || (!x.connectorMatch && y.connectorMatch)
    || (x.connectorMatch == y.connectorMatch && (!x.powerMatch || y.powerMatch))
  }

  ghost predicate SortedByMatch(s: seq<Row>) {
    forall i, j :: 0 <= i < j < |s| ==> KeyLe(s[i], s[j])
  }

  predicate ConnectorMismatch(row: Row) { !row.connectorMatch }
  predicate ConnectorMatch(row: Row) { row.connectorMatch }
  predicate PowerMismatch(row: Row) { !row.powerMatch }
  predicate PowerMatch(row: Row) { row.powerMatch }

  /** Orders rows by power_match alone, false first. */
  function SortByPower(s: seq<Row>): seq<Row> {
    Filter(s, PowerMismatch) + Filter(s, PowerMatch)
  }

  /** `sort_values(by=['connector_match', 'power_match'])`, realised as the
      key groups in ascending order (a stable sort). */
  function SortByMatch(s: seq<Row>): seq<Row> {
    SortByPower(Filter(s, ConnectorMismatch)) + SortByPower(Filter(s, ConnectorMatch))
  }

  /** The sort loses and adds no row. */
  lemma SortIsPermutation(s: seq<Row>)
    ensures multiset(SortByMatch(s)) == multiset(s)
  {
    var off, on := Filter(s, ConnectorMismatch), Filter(s, ConnectorMatch);
    FilterPartition(s, ConnectorMismatch, ConnectorMatch);
    FilterPartition(off, PowerMismatch, PowerMatch);
    FilterPartition(on, PowerMismatch, PowerMatch);
  }

  lemma PairwiseOrdered(s: seq<Row>)
    requires forall x, y :: x in s && y in s ==> KeyLe(x, y)
    ensures SortedByMatch(s)
  {
    forall i, j | 0 <= i < j < |s| ensures KeyLe(s[i], s[j]) {
      assert s[i] in s && s[j] in s;
    }
  }

  lemma SortedConcat(a: seq<Row>, b: seq<Row>)
    requires SortedByMatch(a) && SortedByMatch(b)
    requires forall x, y :: x in a && y in b ==> KeyLe(x, y)
    ensures SortedByMatch(a + b)
  {
    forall i, j | 0 <= i < j < |a + b| ensures KeyLe((a + b)[i], (a + b)[j]) {
      if j < |a| {
        assert (a + b)[i] == a[i] && (a + b)[j] == a[j];
      } else if i >= |a| {
        assert (a + b)[i] == b[i - |a|] && (a + b)[j] == b[j - |a|];
      } else {
        assert (a + b)[i] in a && (a + b)[j] in b;
      }
    }
  }

  /** Rows that agree on connector_match come out ordered by power_match. */
  lemma SortByPowerOrdered(s: seq<Row>, connectorMatch: bool)
    requires forall x :: x in s ==> x.connectorMatch == connectorMatch
    ensures SortedByMatch(SortByPower(s))
    ensures forall x :: x in SortByPower(s) <==> x in s
  {
    var off, on := Filter(s, PowerMismatch), Filter(s, PowerMatch);
    PairwiseOrdered(off);
    PairwiseOrdered(on);
    SortedConcat(off, on);
  }

  /** The sort orders rows by the key. */
  lemma SortIsOrdered(s: seq<Row>)
    ensures SortedByMatch(SortByMatch(s))
  {
    var off, on := Filter(s, ConnectorMismatch), Filter(s, ConnectorMatch);
    SortByPowerOrdered(off, false);
    SortByPowerOrdered(on, true);
    SortedConcat(SortByPower(off), SortByPower(on));
  }

  lemma SameElements(a: seq<Row>, b: seq<Row>)
    requires multiset(a) == multiset(b)
    ensures forall x :: x in a <==> x in b
  {
    forall x ensures x in a <==> x in b {
      assert x in a <==> x in multiset(a);
      assert x in b <==> x in multiset(b);
    }
  }

  /** The detail table: the rows with both ids, as a permutation, ordered by
      (connector_match, power_match), so every connector mismatch comes
      before every connector match. */
  function DetailTable(rows: seq<Row>): (r: seq<Row>)
    ensures multiset(r) == multiset(MatchedStations(rows))
    ensures forall x :: x in r <==> x in rows && !x.missingPlaceId && !x.missingExternalReference
    ensures SortedByMatch(r)
    ensures forall i, j :: 0 <= i < j < |r| && !r[j].connectorMatch ==> !r[i].connectorMatch
  {
    var matched := MatchedStations(rows);
    SortIsPermutation(matched);
    SortIsOrdered(matched);
    var r := SortByMatch(matched);
    SameElements(r, matched);
    r
  }

  predicate PlaceIdAbsent(raw: RawRow) { raw.placeId.Absent? }
  predicate ExternalReferenceAbsent(raw: RawRow) { raw.externalReference.Absent? }

  /** In terms of the sheet: the two summary counts are the numbers of sheet
      rows whose place id, respectively external reference, cell is missing. */
  lemma MissingCountsFromSheet(raws: seq<RawRow>, env: Env)
    requires Preprocess(raws, env).Success?
    ensures |MissingGoogle(Preprocess(raws, env).value)| == |Filter(raws, PlaceIdAbsent)|
    ensures |MissingDb(Preprocess(raws, env).value)| == |Filter(raws, ExternalReferenceAbsent)|
  {
    var rows := Preprocess(raws, env).value;
    FilterCountTransfer(raws, rows, PlaceIdAbsent, IsMissingPlaceId);
    FilterCountTransfer(raws, rows, ExternalReferenceAbsent, IsMissingExternalReference);
  }

  /** A marker of the station map: a row with both coordinates. */
  datatype MapPoint = MapPoint(latitude: real, longitude: real, category: Category, hover: Cell)

  function PointOf(row: Row): MapPoint
    requires HasLocation(row)
  {
    MapPoint(row.latitude.value, row.longitude.value, AssignMapCategory(row), row.hoverInfo)
  }

  lemma EveryLocatedRowPlaced(located: seq<Row>, r: seq<MapPoint>)
    requires forall row :: row in located ==> HasLocation(row)
    requires |r| == |located| && forall k :: 0 <= k < |r| ==> r[k] == PointOf(located[k])
    ensures forall row :: row in located ==> PointOf(row) in r
  {
    forall row | row in located ensures PointOf(row) in r {
      var k :| 0 <= k < |located| && located[k] == row;
      assert r[k] == PointOf(row);
    }
  }

  /** The markers the map can place: one per row with both coordinates, in
      row order, coloured by the row's category. */
  function MapPoints(rows: seq<Row>): (r: seq<MapPoint>)
    ensures |r| + |InvalidGeometry(rows)| == |rows|
    ensures forall k :: 0 <= k < |r| ==> exists row :: row in rows && HasLocation(row) && r[k] == PointOf(row)
    ensures forall row :: row in rows && HasLocation(row) ==> PointOf(row) in r
    ensures |r| == |Filter(rows, HasLocation)|
    ensures forall k :: 0 <= k < |r| ==> r[k] == PointOf(Filter(rows, HasLocation)[k])
  {
    var located := Filter(rows, HasLocation);
    LocatedOrInvalid(rows);
    assert forall k :: 0 <= k < |located| ==> located[k] in rows && HasLocation(located[k]);
    var r := seq(|located|, k requires 0 <= k < |located| => PointOf(located[k]));
    EveryLocatedRowPlaced(located, r);
    r
  }

  /** `category_color_map`, keyed by the category names. */
  const CATEGORY_COLOURS: map<string, string> := map[
    "Missing Location in Google Maps" := "#3498db",
    "Missing Location in Database" := "#9b59b6",
    "Fully Correct" := "#2ecc71",
    "Discrepant" := "#e74c3c"]

  /** The colour of a category's markers: every category name has an entry,
      and different categories get different colours. */
  function CategoryColour(c: Category): (colour: string)
    ensures CategoryName(c) in CATEGORY_COLOURS && colour == CATEGORY_COLOURS[CategoryName(c)]
    ensures forall d :: d != c ==> CATEGORY_COLOURS[CategoryName(d)] != colour
  {
    CATEGORY_COLOURS[CategoryName(c)]
  }

  const MISSING_IN_GOOGLE_BAR: string := "Missing Locations in Google Maps"
  const POTENTIAL_DUPLICATES_BAR: string := "Potential Duplicates"

  /** The summary chart's colour map as written: its second key lacks the
      final "s" of the bar it is meant for. */
  function SummaryColourAsWritten(bar: string): Option<string> {
    var colours := map[MISSING_IN_GOOGLE_BAR := "#3498db", "Potential Duplicate" := "#9b59b6"];
    if bar in colours then Some(colours[bar]) else None
  }

  /** As written, the "Potential Duplicates" bar finds no colour and falls
      back to the chart's default palette instead of purple. */
  lemma DuplicatesBarMissesItsColour()
    ensures SummaryColourAsWritten(MISSING_IN_GOOGLE_BAR) == Some(CategoryColour(MissingInGoogleMaps))
    ensures SummaryColourAsWritten(POTENTIAL_DUPLICATES_BAR).None?
  {
  }

  /** The summary chart's colour map keyed by the bars' own names. */
  function SummaryColour(bar: string): Option<string> {
    var colours := map[MISSING_IN_GOOGLE_BAR := "#3498db", POTENTIAL_DUPLICATES_BAR := "#9b59b6"];
    if bar in colours then Some(colours[bar]) else None
  }

  /** Corrected, both bars are coloured, each like the map category it counts. */
  lemma SummaryBarsColouredLikeMap()
    ensures SummaryColour(MISSING_IN_GOOGLE_BAR) == Some(CategoryColour(MissingInGoogleMaps))
    ensures SummaryColour(POTENTIAL_DUPLICATES_BAR) == Some(CategoryColour(MissingInDatabase))
  {
  }

  /** A bar of the summary chart; a colour of None leaves the bar to the
      chart's default palette. */
  datatype Bar = Bar(category: string, count: nat, colour: Option<string>)

  /** `missing_counts`: the number of rows without a place id and the number
      without an external reference, coloured by the chart's colour map as
      written, which has no entry for the second bar. */
  function SummaryBars(rows: seq<Row>): (r: seq<Bar>)
    ensures |r| == 2
    ensures r[0].count == |Filter(rows, InCategory(MissingInGoogleMaps))|
    ensures r[1].count == |Filter(rows, InCategory(MissingInDatabase))| + |Filter(rows, IsMissingBoth)|
    ensures r[0].colour == Some(CategoryColour(MissingInGoogleMaps))
    ensures r[1].colour.None?
  {
    MissingGoogleIsItsCategory(rows);
    DuplicatesCountSplit(rows);
    [ Bar(MISSING_IN_GOOGLE_BAR, |MissingGoogle(rows)|, SummaryColourAsWritten(MISSING_IN_GOOGLE_BAR)),
      Bar(POTENTIAL_DUPLICATES_BAR, |MissingDb(rows)|, SummaryColourAsWritten(POTENTIAL_DUPLICATES_BAR)) ]
  }

  /** Everything the dashboard shows, in the order the page shows it. */
  datatype Dashboard = Dashboard(
    invalidGeometry: seq<Row>,
    summary: seq<Bar>,
    missingGoogle: seq<Row>,
    missingDb: seq<Row>,
    mapPoints: seq<MapPoint>,
    detail: seq<Row>)

  /** The page from the loaded sheet: preprocessing, then every view of the
      preprocessed rows. */
  function Run(raws: seq<RawRow>, env: Env): (r: Result<Dashboard, Stage>)
    ensures r.Failure? <==> Preprocess(raws, env).Failure?
    ensures r.Failure? ==> r.error == Preprocess(raws, env).error
    ensures r.Success? ==>
      && |r.value.mapPoints| + |r.value.invalidGeometry| == |raws|
      && |r.value.summary| == 2
      && r.value.summary[0].count == |r.value.missingGoogle|
      && r.value.summary[1].count == |r.value.missingDb|
      && r.value.summary[1].colour.None?
      && multiset(r.value.detail) == multiset(MatchedStations(Preprocess(raws, env).value))
  {
    match Preprocess(raws, env)
    case Failure(stage) => Failure(stage)
    case Success(rows) =>
      Success(Dashboard(
        InvalidGeometry(rows), SummaryBars(rows), MissingGoogle(rows), MissingDb(rows),
        MapPoints(rows), DetailTable(rows)))
  }
}
