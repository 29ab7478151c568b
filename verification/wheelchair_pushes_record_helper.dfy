/** `WheelchairPushesRecordHelper`: the table of wheelchair-pushes records,
    its one type-specific column `count`, and the one aggregation it answers. */
module WheelchairPushesRecordHelper {
  import opened Wrappers
  import opened JavaTypes
  import opened Storage
  import opened RecordInternal

  const TableName: string := "wheelchair_pushes_record_table"
  const CountColumnName: string := "count"

  /** The record, reduced to its common fields and the number of pushes it carries; the
      interval fields belong to `IntervalRecordInternal`, which is not part of this model. */
  datatype WheelchairPushes = WheelchairPushes(base: RecordBase, count: Int64)

  function GetMainTableName(): string {
    TableName
  }

  /** `getAggregateParams`: only the total push count is supported. */
  function GetAggregateParams(id: AggregationId): (r: Option<AggregateParams>)
    ensures r.Some? <==> id == WheelchairPushesCountTotal
    ensures r.Some? ==> r.value.tableName == GetMainTableName()
                        && r.value.columnsToFetch == [CountColumnName]
                        && r.value.timeColumnName == StartTimeColumnName
  {
    match id
    case WheelchairPushesCountTotal => Some(AggregateParams(TableName, [CountColumnName], StartTimeColumnName))
    case _ => None
  }

  /** `getAggregateResult`: for the total push count, the row's count as a
      long with the row's zone offset (read by the interval-record layer and
      passed in); null for any other aggregation. */
  function GetAggregateResult(row: Row, id: AggregationId, zoneOffset: ZoneOffset)
    : (r: Result<Option<AggregateResult>, CursorError>)
    ensures id != WheelchairPushesCountTotal ==> r == Success(None)
    ensures id == WheelchairPushesCountTotal ==>
      (r.Success? <==> CountColumnName in row && row[CountColumnName].IntegerValue?)
    ensures id == WheelchairPushesCountTotal && r.Success? ==>
      r.value == Some(ResultWithZone(LongResult(row[CountColumnName].i), zoneOffset))
  {
    match id
    case WheelchairPushesCountTotal =>
      var count :- CursorLong(row, CountColumnName);
      Success(Some(ResultWithZone(LongResult(count), zoneOffset)))
    case _ => Success(None)
  }

  /** `populateSpecificRecordValue`: reads the count column into the record. */
  function PopulateSpecificRecordValue(row: Row, record: WheelchairPushes)
    : (r: Result<WheelchairPushes, CursorError>)
    ensures r.Success? <==> CountColumnName in row && row[CountColumnName].IntegerValue?
    ensures r.Success? ==> row[CountColumnName] == IntegerValue(r.value.count) && r.value.base == record.base
  {
    var count :- CursorLong(row, CountColumnName);
    Success(record.(count := count))
  }

  /** `populateSpecificContentValues`: stores the count under its column. */
  function PopulateSpecificContentValues(values: ContentValues, record: WheelchairPushes)
    : (r: ContentValues)
    ensures r.Keys == values.Keys + {CountColumnName}
    ensures r[CountColumnName] == IntegerValue(record.count)
    ensures forall c :: c in values && c != CountColumnName ==> r[c] == values[c]
  {
    Put(values, CountColumnName, IntegerValue(record.count))
  }

  /** `getIntervalRecordColumnInfo`: the type-specific columns and their SQL types. */
  function GetIntervalRecordColumnInfo(): seq<(string, string)> {
    [(CountColumnName, Integer)]
  }

  /** The count a record stores into a row is what a record read from that row
      gets back, and no other field of the target changes. */
  lemma RowRoundTrip(values: ContentValues, record: WheelchairPushes, target: WheelchairPushes)
    ensures PopulateSpecificRecordValue(PopulateSpecificContentValues(values, record), target)
            == Success(target.(count := record.count))
  {
  }

  /** Every declared column is written, with a value of its declared type; no
      undeclared column is written; and the aggregated column is a declared one. */
  lemma ColumnInfoMatchesStoredValues(values: ContentValues, record: WheelchairPushes)
    ensures var info := GetIntervalRecordColumnInfo();
            var written := PopulateSpecificContentValues(values, record);
            && (forall i :: 0 <= i < |info| ==>
                 info[i].0 in written && TypeOfValue(written[info[i].0]) == info[i].1)
            && (forall c :: c in written && c !in values ==> exists i :: 0 <= i < |info| && info[i].0 == c)
            && (forall c :: c in GetAggregateParams(WheelchairPushesCountTotal).value.columnsToFetch ==>
                 exists i :: 0 <= i < |info| && info[i].0 == c)
  {
    var info := GetIntervalRecordColumnInfo();
    assert info[0].0 == CountColumnName;
  }

  /** The aggregations with query parameters are exactly those with a result: for
      every other identifier the result is null on every row. */
  lemma ParamsAndResultAgree(id: AggregationId)
    ensures GetAggregateParams(id).Some? <==>
            exists row: Row, z: ZoneOffset :: GetAggregateResult(row, id, z) != Success(None)
    ensures GetAggregateParams(id).None? ==>
            forall row: Row, z: ZoneOffset :: GetAggregateResult(row, id, z) == Success(None)
  {
    if id == WheelchairPushesCountTotal {
      var row: Row := map[CountColumnName := IntegerValue(0)];
      assert GetAggregateResult(row, id, ZoneOffset(0)) != Success(None);
    }
  }

  /** A row holding the aggregated columns of the query always yields a result. */
  lemma QueriedColumnsSuffice(row: Row, z: ZoneOffset)
    requires forall c :: c in GetAggregateParams(WheelchairPushesCountTotal).value.columnsToFetch ==>
               c in row && row[c].IntegerValue?
    ensures GetAggregateResult(row, WheelchairPushesCountTotal, z).Success?
    ensures GetAggregateResult(row, WheelchairPushesCountTotal, z).value.Some?
  {
    assert CountColumnName in GetAggregateParams(WheelchairPushesCountTotal).value.columnsToFetch;
  }
}
