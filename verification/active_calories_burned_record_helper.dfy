/** `ActiveCaloriesBurnedRecordHelper`: the table of active-calories records, its
    one type-specific column `energy`, and the one aggregation it answers. */
module ActiveCaloriesBurnedRecordHelper {
  import opened Wrappers
  import opened JavaTypes
  import opened Storage
  import opened RecordInternal

  const TableName: string := "active_calories_burned_record_table"
  const EnergyColumnName: string := "energy"

  /** The record, reduced to its common fields and the energy it carries; the
      interval fields belong to `IntervalRecordInternal`, which is not part of this model. */
  datatype ActiveCaloriesBurned = ActiveCaloriesBurned(base: RecordBase, energy: real)

  function GetMainTableName(): string {
    TableName
  }

  /** `getAggregateParams`: only the active-calories total is supported. */
  function GetAggregateParams(id: AggregationId): (r: Option<AggregateParams>)
    ensures r.Some? <==> id == ActiveCaloriesTotal
    ensures r.Some? ==> r.value.tableName == GetMainTableName()
                        && r.value.columnsToFetch == [EnergyColumnName]
                        && r.value.timeColumnName == StartTimeColumnName
  {
    match id
    case ActiveCaloriesTotal => Some(AggregateParams(TableName, [EnergyColumnName], StartTimeColumnName))
    case _ => None
  }

  /** `getAggregateResult`: for the active-calories total, the row's energy as a
      double with the row's zone offset (read by the interval-record layer and
      passed in); null for any other aggregation. */
  function GetAggregateResult(row: Row, id: AggregationId, zoneOffset: ZoneOffset)
    : (r: Result<Option<AggregateResult>, CursorError>)
    ensures id != ActiveCaloriesTotal ==> r == Success(None)
    ensures id == ActiveCaloriesTotal ==>
      (r.Success? <==> EnergyColumnName in row && row[EnergyColumnName].RealValue?)
    ensures id == ActiveCaloriesTotal && r.Success? ==>
      r.value == Some(ResultWithZone(DoubleResult(row[EnergyColumnName].r), zoneOffset))
  {
    match id
    case ActiveCaloriesTotal =>
      var energy :- CursorDouble(row, EnergyColumnName);
      Success(Some(ResultWithZone(DoubleResult(energy), zoneOffset)))
    case _ => Success(None)
  }

  /** `populateSpecificRecordValue`: reads the energy column into the record. */
  function PopulateSpecificRecordValue(row: Row, record: ActiveCaloriesBurned)
    : (r: Result<ActiveCaloriesBurned, CursorError>)
    ensures r.Success? <==> EnergyColumnName in row && row[EnergyColumnName].RealValue?
    ensures r.Success? ==> row[EnergyColumnName] == RealValue(r.value.energy) && r.value.base == record.base
  {
    var energy :- CursorDouble(row, EnergyColumnName);
    Success(record.(energy := energy))
  }

  /** `populateSpecificContentValues`: stores the energy under its column. */
  function PopulateSpecificContentValues(values: ContentValues, record: ActiveCaloriesBurned)
    : (r: ContentValues)
    ensures r.Keys == values.Keys + {EnergyColumnName}
    ensures r[EnergyColumnName] == RealValue(record.energy)
    ensures forall c :: c in values && c != EnergyColumnName ==> r[c] == values[c]
  {
    Put(values, EnergyColumnName, RealValue(record.energy))
  }

  /** `getIntervalRecordColumnInfo`: the type-specific columns and their SQL types. */
  function GetIntervalRecordColumnInfo(): seq<(string, string)> {
    [(EnergyColumnName, Real)]
  }

  /** The energy a record stores into a row is what a record read from that row
      gets back, and no other field of the target changes. */
  lemma RowRoundTrip(values: ContentValues, record: ActiveCaloriesBurned, target: ActiveCaloriesBurned)
    ensures PopulateSpecificRecordValue(PopulateSpecificContentValues(values, record), target)
            == Success(target.(energy := record.energy))
  {
  }

  /** Every declared column is written, with a value of its declared type; no
      undeclared column is written; and the aggregated column is a declared one. */
  lemma ColumnInfoMatchesStoredValues(values: ContentValues, record: ActiveCaloriesBurned)
    ensures var info := GetIntervalRecordColumnInfo();
            var written := PopulateSpecificContentValues(values, record);
            && (forall i :: 0 <= i < |info| ==>
                 info[i].0 in written && TypeOfValue(written[info[i].0]) == info[i].1)
            && (forall c :: c in written && c !in values ==> exists i :: 0 <= i < |info| && info[i].0 == c)
            && (forall c :: c in GetAggregateParams(ActiveCaloriesTotal).value.columnsToFetch ==>
                 exists i :: 0 <= i < |info| && info[i].0 == c)
  {
    var info := GetIntervalRecordColumnInfo();
    assert info[0].0 == EnergyColumnName;
  }

  /** The aggregations with query parameters are exactly those with a result: for
      every other identifier the result is null on every row. */
  lemma ParamsAndResultAgree(id: AggregationId)
    ensures GetAggregateParams(id).Some? <==>
            exists row: Row, z: ZoneOffset :: GetAggregateResult(row, id, z) != Success(None)
    ensures GetAggregateParams(id).None? ==>
            forall row: Row, z: ZoneOffset :: GetAggregateResult(row, id, z) == Success(None)
  {
    if id == ActiveCaloriesTotal {
      var row: Row := map[EnergyColumnName := RealValue(0.0)];
      assert GetAggregateResult(row, id, ZoneOffset(0)) != Success(None);
    }
  }

  /** A row holding the aggregated columns of the query always yields a result. */
  lemma QueriedColumnsSuffice(row: Row, z: ZoneOffset)
    requires forall c :: c in GetAggregateParams(ActiveCaloriesTotal).value.columnsToFetch ==>
               c in row && row[c].RealValue?
    ensures GetAggregateResult(row, ActiveCaloriesTotal, z).Success?
    ensures GetAggregateResult(row, ActiveCaloriesTotal, z).value.Some?
  {
    assert EnergyColumnName in GetAggregateParams(ActiveCaloriesTotal).value.columnsToFetch;
  }
}
