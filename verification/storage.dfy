/** Storage-side vocabulary shared by the record helpers and the aggregation
    request: table rows and content values as maps from column name to value,
    SQL column types, aggregation identifiers and aggregate results. */
module Storage {
  import opened Wrappers
  import opened JavaTypes

  /** The SQLite values a row can hold: the `REAL` and `INTEGER` values the
      helpers store, and the NULL a `CASE` without `ELSE` yields. */
  datatype SqlValue = RealValue(r: real) | IntegerValue(i: Int64) | NullValue

  /** A cursor positioned on one row, by column name. */
  type Row = map<string, SqlValue>

  /** `ContentValues`: the column values to insert. */
  type ContentValues = map<string, SqlValue>

  /** `StorageUtils.REAL` and `StorageUtils.INTEGER`, the declared column types. */
  const Real: string := "REAL"
  const Integer: string := "INTEGER"
  const Null: string := "NULL"

  /** `IntervalRecordHelper.START_TIME_COLUMN_NAME`. */
  const StartTimeColumnName: string := "start_time"

  /** The declared SQL type of a stored value. */
  function TypeOfValue(v: SqlValue): string {
    match v
    case RealValue(_) => Real
    case IntegerValue(_) => Integer
    case NullValue => Null
  }

  datatype CursorError = MissingColumn(column: string) | WrongColumnType(column: string)

  /** `getDouble` on the named column of a row: a missing column makes the column
      index -1 and the read fail. */
  function CursorDouble(row: Row, column: string): (r: Result<real, CursorError>)
    ensures r.Success? <==> column in row && row[column].RealValue?
    ensures r.Success? ==> row[column] == RealValue(r.value)
  {
    if column !in row then Failure(MissingColumn(column))
    else if row[column].RealValue? then Success(row[column].r)
    else Failure(WrongColumnType(column))
  }

  /** `getLong` on the named column of a row. */
  function CursorLong(row: Row, column: string): (r: Result<Int64, CursorError>)
    ensures r.Success? <==> column in row && row[column].IntegerValue?
    ensures r.Success? ==> row[column] == IntegerValue(r.value)
  {
    if column !in row then Failure(MissingColumn(column))
    else if row[column].IntegerValue? then Success(row[column].i)
    else Failure(WrongColumnType(column))
  }

  /** `ContentValues.put`: sets one column and leaves the others. */
  function Put(values: ContentValues, column: string, v: SqlValue): (r: ContentValues)
    ensures r.Keys == values.Keys + {column} && r[column] == v
    ensures forall c :: c in values && c != column ==> r[c] == values[c]
  {
    values[column := v]
  }

  /** The aggregation identifiers this model distinguishes; every other identifier
      of `AggregationType` is `OtherAggregation`. */
  datatype AggregationId =
    | ActiveCaloriesTotal
    | WheelchairPushesCountTotal
    | OtherAggregation(id: int)

  /** What `getAggregateParams` of a record helper hands over: the table, the
      columns to aggregate and the time column. */
  datatype AggregateParams = AggregateParams(
    tableName: string,
    columnsToFetch: seq<string>,
    timeColumnName: string)

  datatype AggregateValue = DoubleResult(d: real) | LongResult(l: Int64)

  /** `AggregateResult`: a value, the zone offset of the data it came from, and the
      package names of the contributing apps once they are attached. */
  datatype AggregateResult = AggregateResult(
    value: AggregateValue,
    zoneOffset: Option<ZoneOffset>,
    dataOrigins: Option<seq<JString>>)

  /** `new AggregateResult<>(value).setZoneOffset(zoneOffset)`. */
  function ResultWithZone(value: AggregateValue, zoneOffset: ZoneOffset): (r: AggregateResult)
    ensures r.value == value && r.zoneOffset == Some(zoneOffset) && r.dataOrigins.None?
  {
    AggregateResult(value, Some(zoneOffset), None)
  }
}
