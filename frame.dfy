/**
 * The preprocessing of the loaded sheet: the columns the dashboard replaces
 * or adds, one step after the other, before anything is shown. Each step
 * works on a whole column; a step that raises stops the dashboard there.
 */
module Frame {
  import opened Wrappers
  import opened Cells
  import opened Geometry

  /** The value a missing-connector cell evaluates to. */
  type Detail = map<string, int>

  /** The calls into Python the preprocessing makes: `eval` on a cell's text
      (None when it raises) and `float` on a token (None on ValueError). */
  datatype Env = Env(evalLiteral: string -> Option<Detail>, parseFloat: string -> Option<real>)

  /** One sheet row as loaded. */
  datatype RawRow = RawRow(
    name: Cell, streetDb: Cell, cityDb: Cell, streetGoogle: Cell, cityGoogle: Cell,
    externalReference: Cell, placeId: Cell,
    connectorMatch: Cell, powerMatch: Cell,
    missingInGoogle: Cell, missingInDb: Cell,
    geometryDb: Cell, geometryGoogle: Cell)

  /** One row of the data frame after preprocessing: the columns kept as
      loaded, the ones replaced, and the ones added. */
  datatype Row = Row(
    name: Cell, streetDb: Cell, cityDb: Cell, streetGoogle: Cell, cityGoogle: Cell,
    externalReference: Cell, placeId: Cell, geometryDb: Cell, geometryGoogle: Cell,
    missingInGoogle: Detail, missingInDb: Detail,
    connectorMatch: bool, powerMatch: bool,
    missingPlaceId: bool, missingExternalReference: bool,
    latitude: Option<real>, longitude: Option<real>,
    stationFilter: Cell, hoverInfo: Cell)

  /** The preprocessing steps that can raise, in the order they run. A sheet
      without data rows gives a frame without columns, so the first column
      lookup raises KeyError. */
  datatype Stage = NoColumns | EvalMissingInGoogle | EvalMissingInDb | BuildStationFilter

  /** `fillna("{}").apply(eval)` on one cell: a missing cell becomes the empty
      mapping, text is evaluated, and any other scalar makes `eval` raise. */
  function EvalCell(c: Cell, evalLiteral: string -> Option<Detail>): Option<Detail> {
    match c
    case Absent => Some(map[])
    case Text(t) => evalLiteral(t)
    case Scalar(_) => None
  }

  /** A column of the loaded rows. */
  function ColumnOf(raws: seq<RawRow>, field: RawRow -> Cell): (col: seq<Cell>)
    ensures |col| == |raws|
    ensures forall i :: 0 <= i < |raws| ==> col[i] == field(raws[i])
  {
    seq(|raws|, i requires 0 <= i < |raws| => field(raws[i]))
  }

  /** `apply(eval)` over a column: row by row, stopping at the first cell
      that raises. */
  function EvalColumn(cells: seq<Cell>, evalLiteral: string -> Option<Detail>): (r: Option<seq<Detail>>)
    ensures r.Some? <==> forall i :: 0 <= i < |cells| ==> EvalCell(cells[i], evalLiteral).Some?
    ensures r.Some? ==>
      && |r.value| == |cells|
      && forall i :: 0 <= i < |cells| ==> EvalCell(cells[i], evalLiteral) == Some(r.value[i])
    decreases |cells|
  {
    if cells == [] then Some([])
    else
      match EvalCell(cells[0], evalLiteral)
      case None => None
      case Some(d) =>
        match EvalColumn(cells[1..], evalLiteral)
        case None => None
        case Some(ds) => Some([d] + ds)
  }

  /** The `station_filter` column, `name + " - " + street_db + ", " + city_db`;
      None when the addition raises for some row. */
  function LabelColumn(raws: seq<RawRow>): (r: Option<seq<Cell>>)
    ensures r.Some? <==> forall i :: 0 <= i < |raws| ==> JoinLabel(raws[i].name, raws[i].streetDb, raws[i].cityDb).Some?
    ensures r.Some? ==>
      && |r.value| == |raws|
      && forall i :: 0 <= i < |raws| ==> JoinLabel(raws[i].name, raws[i].streetDb, raws[i].cityDb) == Some(r.value[i])
    decreases |raws|
  {
    if raws == [] then Some([])
    else
      match JoinLabel(raws[0].name, raws[0].streetDb, raws[0].cityDb)
      case None => None
      case Some(l) =>
        match LabelColumn(raws[1..])
        case None => None
        case Some(ls) => Some([l] + ls)
  }

  /** Puts together one preprocessed row from its evaluated cells and label. */
  function BuildRow(raw: RawRow, google: Detail, db: Detail, stationLabel: Cell, env: Env): Row {
    Row(
      raw.name, raw.streetDb, raw.cityDb, raw.streetGoogle, raw.cityGoogle,
      raw.externalReference, raw.placeId, raw.geometryDb, raw.geometryGoogle,
      google, db,
      AsBool(raw.connectorMatch), AsBool(raw.powerMatch),
      IsNa(raw.placeId), IsNa(raw.externalReference),
      ExtractLatitude(raw.geometryDb, env.parseFloat), ExtractLongitude(raw.geometryDb, env.parseFloat),
      stationLabel, stationLabel)
  }

  /** What every column of a preprocessed row means in terms of its sheet row. */
  ghost predicate DerivedFrom(row: Row, raw: RawRow, env: Env) {
    // columns kept as loaded
    && row.name == raw.name && row.streetDb == raw.streetDb && row.cityDb == raw.cityDb
    && row.streetGoogle == raw.streetGoogle && row.cityGoogle == raw.cityGoogle
    && row.externalReference == raw.externalReference && row.placeId == raw.placeId
    && row.geometryDb == raw.geometryDb && row.geometryGoogle == raw.geometryGoogle
    // replaced columns
    && EvalCell(raw.missingInGoogle, env.evalLiteral) == Some(row.missingInGoogle)
    && EvalCell(raw.missingInDb, env.evalLiteral) == Some(row.missingInDb)
    && (row.connectorMatch <==> AsBool(raw.connectorMatch))
    && (row.powerMatch <==> AsBool(raw.powerMatch))
    // added columns
    && (row.missingPlaceId <==> raw.placeId.Absent?)
    && (row.missingExternalReference <==> raw.externalReference.Absent?)
    && row.latitude == ExtractLatitude(raw.geometryDb, env.parseFloat)
    && row.longitude == ExtractLongitude(raw.geometryDb, env.parseFloat)
    && JoinLabel(raw.name, raw.streetDb, raw.cityDb) == Some(row.stationFilter)
    && row.hoverInfo == row.stationFilter
  }

  /** The whole preprocessing. It fails on a sheet without data rows, and
      otherwise at the first step that raises for some row; otherwise every row is derived from its sheet row. */
  function Preprocess(raws: seq<RawRow>, env: Env): (r: Result<seq<Row>, Stage>)
    ensures r == Failure(NoColumns) <==> raws == []
    ensures r == Failure(EvalMissingInGoogle) <==>
      exists i :: 0 <= i < |raws| && EvalCell(raws[i].missingInGoogle, env.evalLiteral).None?
    ensures r == Failure(EvalMissingInDb) <==>
      && (forall i :: 0 <= i < |raws| ==> EvalCell(raws[i].missingInGoogle, env.evalLiteral).Some?)
      && exists i :: 0 <= i < |raws| && EvalCell(raws[i].missingInDb, env.evalLiteral).None?
    ensures r == Failure(BuildStationFilter) <==>
      && (forall i :: 0 <= i < |raws| ==> EvalCell(raws[i].missingInGoogle, env.evalLiteral).Some?)
      && (forall i :: 0 <= i < |raws| ==> EvalCell(raws[i].missingInDb, env.evalLiteral).Some?)
      && exists i :: 0 <= i < |raws| && JoinLabel(raws[i].name, raws[i].streetDb, raws[i].cityDb).None?
    ensures r.Success? ==>
      && 0 < |r.value| == |raws|
      && forall i :: 0 <= i < |raws| ==> DerivedFrom(r.value[i], raws[i], env)
  {
    if raws == [] then Failure(NoColumns) else
    var googleCells := ColumnOf(raws, (raw: RawRow) => raw.missingInGoogle);
    var dbCells := ColumnOf(raws, (raw: RawRow) => raw.missingInDb);
    match EvalColumn(googleCells, env.evalLiteral)
    case None => Failure(EvalMissingInGoogle)
    case Some(google) =>
      match EvalColumn(dbCells, env.evalLiteral)
      case None => Failure(EvalMissingInDb)
      case Some(db) =>
        match LabelColumn(raws)
        case None => Failure(BuildStationFilter)
        case Some(labels) =>
          Success(seq(|raws|, i requires 0 <= i < |raws| => BuildRow(raws[i], google[i], db[i], labels[i], env)))
  }

  /** Coordinates come from `geometry_db` alone: `geometry_google` is never
      consulted, so there is no fallback to it. */
  lemma CoordinatesIgnoreGoogleGeometry(raw: RawRow, row: Row, raw': RawRow, row': Row, env: Env)
    requires DerivedFrom(row, raw, env) && DerivedFrom(row', raw', env)
    requires raw.geometryDb == raw'.geometryDb
    ensures row.latitude == row'.latitude && row.longitude == row'.longitude
  {
  }
}
