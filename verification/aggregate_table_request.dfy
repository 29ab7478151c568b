/** `AggregateTableRequest`: the state of one aggregation over one record table,
    the arithmetic of its time grouping, the structure of the two SQL queries it
    issues, and how it turns their rows into per-group results.

    The query is kept as a structured value rather than text: the rendering of the
    `WHERE`, `ORDER BY` and join fragments belongs to collaborators that are not
    part of this model, so they appear here as the tokens handed to them. */
module AggregateTableRequest {
  import opened Wrappers
  import opened JavaTypes
  import opened Storage

  /** `GROUP_BY_COLUMN_NAME`: the alias of the `CASE` expression. */
  const GroupByColumnName: string := "category"

  /** `DEFAULT_TIME`: the start and end time before a time filter is set. */
  const DefaultTime: Int64 := -1

  /** `RecordHelper.APP_INFO_ID_COLUMN_NAME`. */
  const AppInfoIdColumnName: string := "app_info_id"

  /** `AggregationType.AggregateOperationType`; any other code is `OtherOperation`. */
  datatype OperationType = Max | Min | Avg | Sum | Count | OtherOperation(code: int)

  /** The parts of an `AggregationType` the request reads: its identifier, its
      operation, and whether its result class is `Long`. */
  datatype AggregationType = AggregationType(id: AggregationId, operation: OperationType, resultIsLong: bool)

  /** The `AggregateParams` the constructor reads. */
  datatype RequestParams = RequestParams(
    tableName: string,
    columnsToFetch: seq<string>,
    timeColumnName: string,
    join: Option<string>,
    extraTimeColumnName: Option<string>,
    timeOffsetColumnName: string)

  /** What `StorageUtils` answers for this request's record type and operation:
      `supportsPriority(recordType, operation)` and `isDerivedType(recordType)`. */
  datatype StoragePolicy = StoragePolicy(supportsPriority: bool, isDerived: bool)

  /** The fields of the request. A `None` stands for a Java `null`. The results map
      may hold `None` values: `processNoPrioritiesRequest` stores whatever the
      record helper returns. */
  datatype Request = Request(
    tableName: string,
    columnsToAggregate: seq<string>,
    aggregationType: AggregationType,
    timeColumnName: string,
    endTimeColumnName: Option<string>,
    join: Option<string>,
    additionalColumnsToFetch: seq<string>,
    packageFilters: Option<seq<Int64>>,
    packageColumnName: Option<string>,
    startTime: Int64,
    endTime: Int64,
    groupByColumnName: Option<string>,
    groupByStart: Int64,
    groupByEnd: Int64,
    groupByDelta: Int64,
    groupBySize: Int32,
    aggregateResults: map<int, Option<AggregateResult>>,
    useLocalTime: bool)

  /** The exceptions the request can raise, and the loop inputs the model reports
      as errors instead of following Java's wrapped `long` arithmetic. */
  datatype AggregateError =
    | IllegalArgument
    | ArithmeticDivideByZero
    | NegativeCapacity(size: int)
    | NullResult
    | CaseWalkNonPositiveDelta
    | CaseWalkOverflows
    | SplitWalkOverflows
    | CursorFailure(error: CursorError)

  // ---- Construction and setters ----

  /** The constructor: nothing filtered, no grouping, one group, and the offset
      and time columns (and the end-time column of interval records) to fetch. */
  function NewRequest(params: RequestParams, aggregationType: AggregationType, useLocalTime: bool): (r: Request)
    ensures r.tableName == params.tableName && r.columnsToAggregate == params.columnsToFetch
    ensures r.timeColumnName == params.timeColumnName && r.endTimeColumnName == params.extraTimeColumnName
    ensures |r.additionalColumnsToFetch| >= 2
    ensures r.additionalColumnsToFetch[..2] == [params.timeOffsetColumnName, params.timeColumnName]
    ensures |r.additionalColumnsToFetch| == 2 <==> params.extraTimeColumnName.None?
    ensures params.extraTimeColumnName.Some? ==>
              r.additionalColumnsToFetch == [params.timeOffsetColumnName, params.timeColumnName,
                                             params.extraTimeColumnName.value]
    ensures r.startTime == DefaultTime && r.endTime == DefaultTime
    ensures r.groupByColumnName.None? && r.groupBySize == 1 && r.aggregateResults == map[]
    ensures r.packageFilters.None? && r.packageColumnName.None?
    ensures r.aggregationType == aggregationType && r.join == params.join && r.useLocalTime == useLocalTime
    ensures r.groupByStart == 0 && r.groupByEnd == 0 && r.groupByDelta == 0
  {
    var additional := [params.timeOffsetColumnName, params.timeColumnName]
                      + (if params.extraTimeColumnName.Some? then [params.extraTimeColumnName.value] else []);
    Request(params.tableName, params.columnsToFetch, aggregationType, params.timeColumnName,
            params.extraTimeColumnName, params.join, additional, None, None, DefaultTime, DefaultTime,
            None, 0, 0, 0, 1, map[], useLocalTime)
  }

  /** `setPackageFilter`: records the filter values and their column. */
  function SetPackageFilter(req: Request, packageFilters: Option<seq<Int64>>, packageColumnName: Option<string>)
    : (r: Request)
    ensures r.packageFilters == packageFilters && r.packageColumnName == packageColumnName
    ensures r.(packageFilters := req.packageFilters, packageColumnName := req.packageColumnName) == req
  {
    req.(packageFilters := packageFilters, packageColumnName := packageColumnName)
  }

  /** `setTimeFilter`: a negative start or an end before the start leaves the
      request as it was; otherwise both bounds are taken exactly. */
  function SetTimeFilter(req: Request, startTime: Int64, endTime: Int64): (r: Request)
    ensures startTime < 0 || endTime < startTime ==> r == req
    ensures 0 <= startTime <= endTime ==> r.startTime == startTime && r.endTime == endTime
    ensures r.(startTime := req.startTime, endTime := req.endTime) == req
  {
    if startTime < 0 || endTime < startTime then req
    else req.(startTime := startTime, endTime := endTime)
  }

  /** `setGroupBySize`: `(int) ((groupByEnd - groupByStart) / groupByDelta)` in Java
      `long` arithmetic, narrowed to `int`. A zero delta throws. */
  function GroupBySize(groupByStart: Int64, groupByEnd: Int64, groupByDelta: Int64): (r: Result<Int32, AggregateError>)
    ensures r.Failure? <==> groupByDelta == 0
    ensures r.Failure? ==> r.error == ArithmeticDivideByZero
  {
    if groupByDelta == 0 then Failure(ArithmeticDivideByZero)
    else Success(ToInt32(ToInt64(JavaDiv(ToInt64(groupByEnd - groupByStart), groupByDelta))))
  }

  /** `setGroupBy`, given the filter's start and end in milliseconds and the delta
      `StorageUtils` computes from the period or the duration, whichever is not
      null. The column and the bounds are stored before anything can throw, so a
      failed call still leaves them behind; the size is stored only on success. */
  function SetGroupBy(req: Request, columnName: Option<string>, periodDelta: Option<Int64>,
                      durationDelta: Option<Int64>, filterStart: Int64, filterEnd: Int64)
    : (r: (Request, Result<(), AggregateError>))
    ensures r.0.groupByColumnName == columnName && r.0.groupByStart == filterStart && r.0.groupByEnd == filterEnd
    ensures periodDelta.None? && durationDelta.None? <==> r.1 == Failure(IllegalArgument)
    ensures periodDelta.Some? ==> r.0.groupByDelta == periodDelta.value
    ensures periodDelta.None? && durationDelta.Some? ==> r.0.groupByDelta == durationDelta.value
    ensures periodDelta.None? && durationDelta.None? ==> r.0.groupByDelta == req.groupByDelta
    ensures r.1.Success? <==> (periodDelta.Some? || durationDelta.Some?) && r.0.groupByDelta != 0
    ensures r.1.Success? ==> r.0.groupBySize == GroupBySize(filterStart, filterEnd, r.0.groupByDelta).value
    ensures r.1.Failure? ==> r.0.groupBySize == req.groupBySize
    ensures r.0.(groupByColumnName := req.groupByColumnName, groupByStart := req.groupByStart,
                 groupByEnd := req.groupByEnd, groupByDelta := req.groupByDelta,
                 groupBySize := req.groupBySize) == req
  {
    var bounded := req.(groupByColumnName := columnName, groupByStart := filterStart, groupByEnd := filterEnd);
    if periodDelta.None? && durationDelta.None? then (bounded, Failure(IllegalArgument))
    else
      var delta := if periodDelta.Some? then periodDelta.value else durationDelta.value;
      var withDelta := bounded.(groupByDelta := delta);
      match GroupBySize(filterStart, filterEnd, delta)
      case Failure(e) => (withDelta, Failure(e))
      case Success(size) => (withDelta.(groupBySize := size), Success(()))
  }

  // ---- Group splits ----

  /** The split points from `current` on: each the previous plus `delta`, for as
      long as the next one does not pass `end`. */
  function SplitsFrom(current: int, end: int, delta: int): (r: seq<int>)
    requires delta > 0
    ensures |r| >= 1 && r[0] == current
    ensures forall i :: 0 <= i < |r| - 1 ==> r[i + 1] == r[i] + delta
    ensures forall i :: 0 <= i < |r| ==> current <= r[i]
    ensures forall i :: 1 <= i < |r| ==> r[i] <= end
    ensures r[|r| - 1] + delta > end
    decreases end - current
  {
    if current + delta <= end then [current] + SplitsFrom(current + delta, end, delta)
    else [current]
  }

  /** `getGroupSplits`: `[startTime, endTime]` without a positive delta; otherwise
      the time filter's start stepped by the delta up to its end. When the step
      after the last split passes `Long.MAX_VALUE`, Java wraps it around below the
      end and the loop goes on; that case is reported as an error. */
  function GroupSplits(req: Request): (r: Result<seq<Int64>, AggregateError>)
    ensures r.Success? ==> |r.value| >= 1
    ensures req.groupByDelta <= 0 ==> r == Success([req.startTime, req.endTime])
    ensures req.groupByDelta > 0 && r.Success? ==>
              && r.value[0] == req.startTime
              && (forall i :: 0 <= i < |r.value| - 1 ==> r.value[i + 1] == r.value[i] + req.groupByDelta)
              && (forall i :: 1 <= i < |r.value| ==> r.value[i] <= req.endTime)
              && r.value[|r.value| - 1] + req.groupByDelta > req.endTime
    ensures req.groupByDelta > 0 && r.Failure? ==> r.error == SplitWalkOverflows
  {
    if req.groupByDelta <= 0 then Success([req.startTime, req.endTime])
    else
      var splits := SplitsFrom(req.startTime, req.endTime, req.groupByDelta);
      if splits[|splits| - 1] + req.groupByDelta > LongMax then Failure(SplitWalkOverflows)
      else
        var longs: seq<Int64> := seq(|splits|, i requires 0 <= i < |splits| => splits[i]);
        Success(longs)
  }

  /** `getGroupSplitIntervals`: each split paired with the next one. */
  method GetGroupSplitIntervals(req: Request) returns (r: Result<seq<(Int64, Int64)>, AggregateError>)
    ensures GroupSplits(req).Failure? ==> r == Failure(GroupSplits(req).error)
    ensures GroupSplits(req).Success? ==>
              && r.Success?
              && |r.value| == |GroupSplits(req).value| - 1
              && forall i :: 0 <= i < |r.value| ==>
                   r.value[i] == (GroupSplits(req).value[i], GroupSplits(req).value[i + 1])
  {
    var splits :- GroupSplits(req);
    var intervals: seq<(Int64, Int64)> := [];
    var previous := splits[0];
    var i := 1;
    while i < |splits|
      invariant 1 <= i <= |splits|
      invariant previous == splits[i - 1]
      invariant |intervals| == i - 1
      invariant forall k :: 0 <= k < |intervals| ==> intervals[k] == (splits[k], splits[k + 1])
    {
      intervals := intervals + [(previous, splits[i])];
      previous := splits[i];
      i := i + 1;
    }
    return Success(intervals);
  }

  // ---- The CASE expression ----

  /** One ` WHEN t >= lower AND t < upper THEN index` of the `CASE` expression. */
  datatype WhenBranch = WhenBranch(lower: int, upper: int, index: int)

  /** The branches from `lower` on, for as long as `lower` is before `end`. */
  function BranchesFrom(lower: int, end: int, delta: int, index: int): (r: seq<WhenBranch>)
    requires delta > 0
    ensures lower >= end <==> r == []
    ensures forall k :: 0 <= k < |r| ==>
              r[k].index == index + k && r[k].upper == r[k].lower + delta && lower <= r[k].lower < end
    ensures |r| > 0 ==> r[0].lower == lower
    ensures forall k :: 0 <= k < |r| - 1 ==> r[k + 1].lower == r[k].upper
    ensures |r| > 0 ==> r[|r| - 1].upper >= end
    decreases end - lower
  {
    if lower < end then [WhenBranch(lower, lower + delta, index)] + BranchesFrom(lower + delta, end, delta, index + 1)
    else []
  }

  /** The loop of `appendAggregateCommand` that emits the `CASE` branches. It never
      runs when the group start is not before the group end. With a delta that is
      not positive, or once a step passes `Long.MAX_VALUE`, Java goes on with
      wrapped bounds, a walk that may or may not end; the model reports every such
      walk as an error. */
  function CaseBranches(groupByStart: Int64, groupByEnd: Int64, groupByDelta: Int64)
    : (r: Result<seq<WhenBranch>, AggregateError>)
    ensures groupByStart >= groupByEnd ==> r == Success([])
    ensures groupByStart < groupByEnd && groupByDelta <= 0 ==> r == Failure(CaseWalkNonPositiveDelta)
    ensures r.Success? && r.value != [] ==>
              && r.value[0].lower == groupByStart
              && (forall k :: 0 <= k < |r.value| ==>
                    && r.value[k].index == k
                    && r.value[k].upper == r.value[k].lower + groupByDelta
                    && r.value[k].lower < groupByEnd
                    && r.value[k].upper <= LongMax)
              && (forall k :: 0 <= k < |r.value| - 1 ==> r.value[k + 1].lower == r.value[k].upper)
              && r.value[|r.value| - 1].upper >= groupByEnd
  {
    if groupByStart >= groupByEnd then Success([])
    else if groupByDelta <= 0 then Failure(CaseWalkNonPositiveDelta)
    else
      var branches := BranchesFrom(groupByStart, groupByEnd, groupByDelta, 0);
      if branches[|branches| - 1].upper > LongMax then Failure(CaseWalkOverflows)
      else
        LastUpperBounds(branches, groupByDelta);
        Success(branches)
  }

  /** In a chain of branches the last upper bound is the largest. */
  lemma LastUpperBounds(branches: seq<WhenBranch>, delta: int)
    requires delta > 0 && |branches| > 0
    requires forall k :: 0 <= k < |branches| ==> branches[k].upper == branches[k].lower + delta
    requires forall k :: 0 <= k < |branches| - 1 ==> branches[k + 1].lower == branches[k].upper
    ensures forall k :: 0 <= k < |branches| ==> branches[k].upper <= branches[|branches| - 1].upper
  {
    var n := |branches|;
    var k := n - 1;
    while k > 0
      invariant 0 <= k <= n - 1
      invariant forall j :: k <= j < n ==> branches[j].upper <= branches[n - 1].upper
      decreases k
    {
      assert branches[k - 1].upper == branches[k].lower < branches[k].upper;
      k := k - 1;
    }
  }

  // ---- The queries ----

  /** One entry of the select list: a plain column, or `OP(column) as column`. A
      `None` command is Java's `null`, which the builder appends as `null`. */
  datatype SelectItem = Column(name: string) | Aggregated(command: Option<string>, column: string)

  /** A condition handed to `WhereClauses`. */
  datatype Condition =
    | InLongs(packageColumn: Option<string>, values: Option<seq<Int64>>)
    | AtLeast(column: string, bound: Int64)
    | LessThan(column: string, bound: Int64)

  /** The query `appendAggregateCommand` builds: the select list, the `CASE`
      branches over the time column aliased as `category` (when grouping), the
      table and join, the conditions, the `GROUP BY`, and the ordering column with
      its direction (true for ascending). */
  datatype Query = Query(
    distinct: bool,
    select: seq<SelectItem>,
    caseBranches: Option<seq<WhenBranch>>,
    caseColumn: string,
    table: string,
    join: Option<string>,
    where: seq<Condition>,
    groupBy: Option<string>,
    orderBy: (string, bool))

  /** `getSqlCommandFor`: the SQL function of each of the five operations, null
      for any other. */
  function SqlCommandFor(operation: OperationType): (r: Option<string>)
    ensures r.None? <==> operation.OtherOperation?
    ensures operation == Max ==> r == Some("MAX")
    ensures operation == Min ==> r == Some("MIN")
    ensures operation == Avg ==> r == Some("AVG")
    ensures operation == Sum ==> r == Some("SUM")
    ensures operation == Count ==> r == Some("COUNT")
  {
    match operation
    case Max => Some("MAX")
    case Min => Some("MIN")
    case Avg => Some("AVG")
    case Sum => Some("SUM")
    case Count => Some("COUNT")
    case OtherOperation(_) => None
  }

  /** The text of one select item, as the builder writes it. */
  function SelectItemText(item: SelectItem): string {
    match item
    case Column(name) => name
    case Aggregated(command, column) => command.GetOr("null") + "(" + column + ")" + " as " + column
  }

  /** `buildAggregationWhereCondition`: the package filter, then a lower bound on
      the end-time column of interval records (so records overlapping the start are
      kept) or on the time column, then an upper bound on the time column. */
  function WhereConditions(req: Request): (r: seq<Condition>)
    ensures |r| == 3 && r[0] == InLongs(req.packageColumnName, req.packageFilters)
    ensures req.endTimeColumnName.Some? ==> r[1] == AtLeast(req.endTimeColumnName.value, req.startTime)
    ensures req.endTimeColumnName.None? ==> r[1] == AtLeast(req.timeColumnName, req.startTime)
    ensures r[2] == LessThan(req.timeColumnName, req.endTime)
  {
    var lower := if req.endTimeColumnName.Some? then req.endTimeColumnName.value else req.timeColumnName;
    [InLongs(req.packageColumnName, req.packageFilters), AtLeast(lower, req.startTime),
     LessThan(req.timeColumnName, req.endTime)]
  }

  /** `appendAggregateCommand`: grouping (`CASE` and `GROUP BY`) only when a group
      column is set and `isMetadata` is false; otherwise the trailing separator is
      dropped, which the structured select list has no need of. */
  function AppendAggregateCommand(req: Request, distinct: bool, select: seq<SelectItem>, isMetadata: bool)
    : (r: Result<Query, AggregateError>)
    ensures var useGroupBy := req.groupByColumnName.Some? && !isMetadata;
            && (!useGroupBy ==> r.Success?)
            && (useGroupBy ==> r.Success? == CaseBranches(req.groupByStart, req.groupByEnd, req.groupByDelta).Success?)
            && (r.Success? ==>
                  && r.value.select == select && r.value.distinct == distinct
                  && (r.value.caseBranches.Some? <==> useGroupBy)
                  && (r.value.groupBy.Some? <==> useGroupBy)
                  && (useGroupBy ==>
                        r.value.caseBranches.value
                          == CaseBranches(req.groupByStart, req.groupByEnd, req.groupByDelta).value
                        && r.value.groupBy.value == GroupByColumnName)
                  && r.value.caseColumn == req.timeColumnName
                  && r.value.table == req.tableName && r.value.join == req.join
                  && r.value.where == WhereConditions(req)
                  && r.value.orderBy == (req.timeColumnName, true))
  {
    var useGroupBy := req.groupByColumnName.Some? && !isMetadata;
    var caseBranches :-
      if useGroupBy then
        match CaseBranches(req.groupByStart, req.groupByEnd, req.groupByDelta)
        case Success(b) => Success(Some(b))
        case Failure(e) => Failure(e)
      else Success(None);
    Success(Query(distinct, select, caseBranches, req.timeColumnName, req.tableName, req.join,
                  WhereConditions(req), if useGroupBy then Some(GroupByColumnName) else None,
                  (req.timeColumnName, true)))
  }

  /** The `usingPriority` flag of `getAggregationCommand`: priority aggregation or
      a derived record type. */
  predicate UsingPriority(policy: StoragePolicy) {
    policy.supportsPriority || policy.isDerived
  }

  /** The select list of `getAggregationCommand`: the columns to aggregate, raw
      when using priority and wrapped in the operation otherwise, then the
      additional columns. */
  function AggregationSelect(req: Request, policy: StoragePolicy): (r: seq<SelectItem>)
    ensures |r| == |req.columnsToAggregate| + |req.additionalColumnsToFetch|
    ensures forall i :: 0 <= i < |req.columnsToAggregate| ==>
              r[i] == if UsingPriority(policy) then Column(req.columnsToAggregate[i])
                      else Aggregated(SqlCommandFor(req.aggregationType.operation), req.columnsToAggregate[i])
    ensures forall i :: 0 <= i < |req.additionalColumnsToFetch| ==>
              r[|req.columnsToAggregate| + i] == Column(req.additionalColumnsToFetch[i])
  {
    var command := SqlCommandFor(req.aggregationType.operation);
    var aggregated := seq(|req.columnsToAggregate|, i requires 0 <= i < |req.columnsToAggregate| =>
                            if UsingPriority(policy) then Column(req.columnsToAggregate[i])
                            else Aggregated(command, req.columnsToAggregate[i]));
    var additional := seq(|req.additionalColumnsToFetch|, i requires 0 <= i < |req.additionalColumnsToFetch| =>
                            Column(req.additionalColumnsToFetch[i]));
    aggregated + additional
  }

  /** `getAggregationCommand`. The `usingPriority` flag is passed on as
      `isMetadata`, so priority and derived aggregations are never grouped by SQL. */
  function AggregationCommand(req: Request, policy: StoragePolicy): (r: Result<Query, AggregateError>)
    ensures UsingPriority(policy) || req.groupByColumnName.None? ==> r.Success?
    ensures r.Success? ==>
              && !r.value.distinct
              && r.value.select == AggregationSelect(req, policy)
              && (r.value.caseBranches.Some? <==> req.groupByColumnName.Some? && !UsingPriority(policy))
              && (r.value.groupBy.Some? <==> r.value.caseBranches.Some?)
              && r.value.where == WhereConditions(req)
              && r.value.orderBy == (req.timeColumnName, true)
  {
    AppendAggregateCommand(req, false, AggregationSelect(req, policy), UsingPriority(policy))
  }

  /** `getCommandToFetchAggregateMetadata`: the distinct app ids of the same rows,
      never grouped. */
  function MetadataCommand(req: Request): (r: Query)
    ensures r.distinct && r.select == [Column(AppInfoIdColumnName)]
    ensures r.caseBranches.None? && r.groupBy.None?
    ensures r.table == req.tableName && r.where == WhereConditions(req) && r.orderBy == (req.timeColumnName, true)
  {
    AppendAggregateCommand(req, true, [Column(AppInfoIdColumnName)], true).value
  }

  // ---- Processing results ----

  /** Which post-processing `onResultsFetched` runs: derived types first, then
      priority aggregation, then the rows as SQL grouped them. */
  datatype Processing = Derived | Priority | Direct

  function Dispatch(policy: StoragePolicy): (r: Processing)
    ensures policy.isDerived ==> r == Derived
    ensures !policy.isDerived && policy.supportsPriority ==> r == Priority
    ensures !UsingPriority(policy) ==> r == Direct
  {
    if policy.isDerived then Derived
    else if policy.supportsPriority then Priority
    else Direct
  }

  /** Java's `Double.longValue()` on a finite value: truncate toward zero, then
      saturate at the `long` bounds. */
  function DoubleToLong(x: real): (r: Int64)
    ensures LongMin as real <= x <= LongMax as real ==>
              (x >= 0.0 ==> r as real <= x < r as real + 1.0)
              && (x < 0.0 ==> r as real - 1.0 < x <= r as real)
    ensures x > LongMax as real ==> r == LongMax
    ensures x < LongMin as real ==> r == LongMin
  {
    if x > LongMax as real then LongMax
    else if x < LongMin as real then LongMin
    else if x >= 0.0 then x.Floor
    else -((-x).Floor)
  }

  /** What the priority aggregator reports: the result of each group that has one,
      and the zone offset of each group. */
  datatype AggregatorOutput = AggregatorOutput(results: map<int, real>, zoneOffsets: map<int, ZoneOffset>)

  /** `processPriorityRequest`: for each group number below the group size whose
      aggregator result is not null, a result (a `long` when the aggregation's
      result class is `Long`) with that group's zone offset. */
  function ProcessPriority(req: Request, output: AggregatorOutput): (r: Request)
    ensures forall g :: g in r.aggregateResults <==>
              g in req.aggregateResults || (0 <= g < req.groupBySize && g in output.results)
    ensures forall g :: g in req.aggregateResults && !(0 <= g < req.groupBySize && g in output.results) ==>
              r.aggregateResults[g] == req.aggregateResults[g]
    ensures forall g :: 0 <= g < req.groupBySize && g in output.results ==>
              && r.aggregateResults[g].Some?
              && r.aggregateResults[g].value.dataOrigins.None?
              && (r.aggregateResults[g].value.zoneOffset.Some? <==> g in output.zoneOffsets)
              && (req.aggregationType.resultIsLong <==> r.aggregateResults[g].value.value.LongResult?)
              && (!req.aggregationType.resultIsLong ==>
                    r.aggregateResults[g].value.value == DoubleResult(output.results[g]))
              && (req.aggregationType.resultIsLong ==>
                    r.aggregateResults[g].value.value == LongResult(DoubleToLong(output.results[g])))
    ensures r.(aggregateResults := req.aggregateResults) == req
  {
    var filled := map g | 0 <= g < req.groupBySize && g in output.results ::
                   Some(AggregateResult(
                     if req.aggregationType.resultIsLong then LongResult(DoubleToLong(output.results[g]))
                     else DoubleResult(output.results[g]),
                     if g in output.zoneOffsets then Some(output.zoneOffsets[g]) else None,
                     None));
    req.(aggregateResults := req.aggregateResults + filled)
  }

  /** `getCursorInt` on the `category` column: the stored `long` narrowed to `int`,
      and 0 for NULL. The `CASE` has no `ELSE`, so an interval record that starts
      before the group range but ends inside the time filter gets a NULL category. */
  function CategoryOf(row: Row): (r: Result<Int32, CursorError>)
    ensures r.Success? <==> GroupByColumnName in row && !row[GroupByColumnName].RealValue?
    ensures r.Success? && row[GroupByColumnName] == NullValue ==> r.value == 0
    ensures r.Success? && row[GroupByColumnName].IntegerValue? ==>
              r.value == ToInt32(row[GroupByColumnName].i)
  {
    if GroupByColumnName in row && row[GroupByColumnName] == NullValue then Success(0)
    else
      var category :- CursorLong(row, GroupByColumnName);
      Success(ToInt32(category))
  }

  /** A row whose category is NULL has its result stored under group 0. */
  lemma NullCategoryFilesUnderGroupZero(results: map<int, Option<AggregateResult>>, row: Row,
                                        resultOf: Row -> Result<Option<AggregateResult>, CursorError>)
    requires GroupByColumnName in row && row[GroupByColumnName] == NullValue
    requires resultOf(row).Success?
    ensures ProcessDirect(results, [row], resultOf) == Success(results[0 := resultOf(row).value])
  {
  }

  /** `processNoPrioritiesRequest`: every row, in order, stores the helper's
      result for it under its category, so a later row of a category overwrites
      an earlier one. */
  function ProcessDirect(results: map<int, Option<AggregateResult>>, rows: seq<Row>,
                         resultOf: Row -> Result<Option<AggregateResult>, CursorError>)
    : (r: Result<map<int, Option<AggregateResult>>, CursorError>)
    ensures r.Success? <==>
              forall i :: 0 <= i < |rows| ==> CategoryOf(rows[i]).Success? && resultOf(rows[i]).Success?
    ensures r.Success? ==> results.Keys <= r.value.Keys
    ensures r.Success? ==> forall g :: g in r.value && g !in results ==>
              exists i :: 0 <= i < |rows| && CategoryOf(rows[i]).value == g
    decreases |rows|
  {
    if rows == [] then Success(results)
    else
      var category :- CategoryOf(rows[0]);
      var result :- resultOf(rows[0]);
      ProcessDirect(results[category as int := result], rows[1..], resultOf)
  }

  /** `deriveAggregate`: the i-th derived value becomes the result of group i. */
  function DeriveAggregate(results: map<int, Option<AggregateResult>>, derived: seq<real>,
                           resultOf: real -> Option<AggregateResult>)
    : (r: map<int, Option<AggregateResult>>)
    ensures forall g :: g in r <==> g in results || 0 <= g < |derived|
    ensures forall i :: 0 <= i < |derived| ==> r[i] == resultOf(derived[i])
    ensures forall g :: g in results && !(0 <= g < |derived|) ==> r[g] == results[g]
  {
    results + map i | 0 <= i < |derived| :: resultOf(derived[i])
  }

  /** `updateResultWithDataOriginPackageNames`: the app ids of the metadata rows
      are resolved to package names, and every stored result gets that list; a
      null stored result throws. */
  function UpdateDataOrigins(results: map<int, Option<AggregateResult>>, metadataRows: seq<Row>,
                             packageNamesOf: seq<Int64> -> seq<JString>)
    : (r: Result<map<int, Option<AggregateResult>>, AggregateError>)
    ensures r.Success? <==> AppInfoIds(metadataRows).Success? && forall g :: g in results ==> results[g].Some?
    ensures r.Success? ==> r.value.Keys == results.Keys
    ensures r.Success? ==> forall g :: g in results ==>
              && r.value[g].Some?
              && r.value[g].value.(dataOrigins := results[g].value.dataOrigins) == results[g].value
              && r.value[g].value.dataOrigins == Some(packageNamesOf(AppInfoIds(metadataRows).value))
  {
    var ids :- AppInfoIds(metadataRows);
    var names := packageNamesOf(ids);
    if exists g :: g in results && results[g].None? then Failure(NullResult)
    else
      Success(map g | g in results :: Some(results[g].value.(dataOrigins := Some(names))))
  }

  /** The app id of every metadata row, in order. */
  function AppInfoIds(rows: seq<Row>): (r: Result<seq<Int64>, AggregateError>)
    ensures r.Success? <==> forall i :: 0 <= i < |rows| ==> CursorLong(rows[i], AppInfoIdColumnName).Success?
    ensures r.Success? ==> |r.value| == |rows|
    ensures r.Success? ==> forall i :: 0 <= i < |rows| ==> r.value[i] == CursorLong(rows[i], AppInfoIdColumnName).value
  {
    if rows == [] then Success([])
    else match CursorLong(rows[0], AppInfoIdColumnName)
      case Failure(e) => Failure(CursorFailure(e))
      case Success(id) =>
        var rest :- AppInfoIds(rows[1..]);
        assert forall i :: 1 <= i < |rows| ==> rows[i] == rows[1..][i - 1];
        Success([id] + rest)
  }

  /** The rows and collaborator answers `onResultsFetched` consumes. */
  datatype Fetched = Fetched(
    rows: seq<Row>,
    metadataRows: seq<Row>,
    derived: seq<real>,
    aggregator: AggregatorOutput)

  /** The per-group results of the three processing paths, before data origins
      are attached. The priority path builds its aggregator from the group
      splits, so a split walk that overflows fails that path. */
  function ProcessedResults(req: Request, policy: StoragePolicy, fetched: Fetched,
                            rowResult: Row -> Result<Option<AggregateResult>, CursorError>,
                            derivedResult: real -> Option<AggregateResult>)
    : (r: Result<map<int, Option<AggregateResult>>, AggregateError>)
    ensures Dispatch(policy) == Derived ==>
              r == Success(DeriveAggregate(req.aggregateResults, fetched.derived, derivedResult))
    ensures Dispatch(policy) == Priority ==> (r.Success? <==> GroupSplits(req).Success?)
    ensures Dispatch(policy) == Priority && r.Success? ==>
              r.value == ProcessPriority(req, fetched.aggregator).aggregateResults
    ensures Dispatch(policy) == Direct ==>
              (r.Success? <==> ProcessDirect(req.aggregateResults, fetched.rows, rowResult).Success?)
    ensures Dispatch(policy) == Direct && r.Success? ==>
              r.value == ProcessDirect(req.aggregateResults, fetched.rows, rowResult).value
  {
    match Dispatch(policy)
    case Derived => Success(DeriveAggregate(req.aggregateResults, fetched.derived, derivedResult))
    case Priority =>
      var splits :- GroupSplits(req);
      Success(ProcessPriority(req, fetched.aggregator).aggregateResults)
    case Direct =>
      match ProcessDirect(req.aggregateResults, fetched.rows, rowResult)
      case Success(m) => Success(m)
      case Failure(e) => Failure(CursorFailure(e))
  }

  /** `after` holds the same groups as `before`, each with the same value and zone
      offset; only the data origins may differ. */
  predicate SameUpToOrigins(after: map<int, Option<AggregateResult>>, before: map<int, Option<AggregateResult>>) {
    && after.Keys == before.Keys
    && forall g :: g in before ==>
         && after[g].Some? && before[g].Some?
         && after[g].value.(dataOrigins := before[g].value.dataOrigins) == before[g].value
  }

  /** `onResultsFetched`: the processing `Dispatch` picks, then the data origins. */
  function OnResultsFetched(req: Request, policy: StoragePolicy, fetched: Fetched,
                            rowResult: Row -> Result<Option<AggregateResult>, CursorError>,
                            derivedResult: real -> Option<AggregateResult>,
                            packageNamesOf: seq<Int64> -> seq<JString>)
    : (r: Result<Request, AggregateError>)
    ensures var processed := ProcessedResults(req, policy, fetched, rowResult, derivedResult);
            r.Success? <==> processed.Success?
                            && UpdateDataOrigins(processed.value, fetched.metadataRows, packageNamesOf).Success?
    ensures r.Success? ==> r.value.(aggregateResults := req.aggregateResults) == req
    ensures r.Success? ==> SameUpToOrigins(r.value.aggregateResults,
                                           ProcessedResults(req, policy, fetched, rowResult, derivedResult).value)
    ensures r.Success? ==> forall g :: g in r.value.aggregateResults ==>
              r.value.aggregateResults[g].Some? && r.value.aggregateResults[g].value.dataOrigins.Some?
  {
    var processed :- ProcessedResults(req, policy, fetched, rowResult, derivedResult);
    var withOrigins :- UpdateDataOrigins(processed, fetched.metadataRows, packageNamesOf);
    Success(req.(aggregateResults := withOrigins))
  }

  /** `getAggregateResults`: one entry per group, null where no result is stored;
      a negative group size is an illegal capacity. */
  function GetAggregateResults(req: Request): (r: Result<seq<Option<AggregateResult>>, AggregateError>)
    ensures r.Failure? <==> req.groupBySize < 0
    ensures r.Success? ==> |r.value| == req.groupBySize
    ensures r.Success? ==> forall g :: 0 <= g < |r.value| ==>
              r.value[g] == if g in req.aggregateResults then req.aggregateResults[g] else None
  {
    if req.groupBySize < 0 then Failure(NegativeCapacity(req.groupBySize))
    else Success(seq(req.groupBySize, g requires 0 <= g < req.groupBySize =>
                   if g in req.aggregateResults then req.aggregateResults[g] else None))
  }

  // ---- Properties ----

  /** Setting the same time filter twice is the same as setting it once. */
  lemma TimeFilterIdempotent(req: Request, startTime: Int64, endTime: Int64)
    ensures SetTimeFilter(SetTimeFilter(req, startTime, endTime), startTime, endTime)
            == SetTimeFilter(req, startTime, endTime)
  {
  }

  /** A period wins over a duration: the duration is not even looked at. */
  lemma PeriodTakesPrecedence(req: Request, columnName: Option<string>, periodDelta: Int64,
                              durationDelta: Option<Int64>, filterStart: Int64, filterEnd: Int64)
    ensures SetGroupBy(req, columnName, Some(periodDelta), durationDelta, filterStart, filterEnd)
            == SetGroupBy(req, columnName, Some(periodDelta), None, filterStart, filterEnd)
  {
  }

  /** The range a group size is computed over fits Java's arithmetic: the
      difference fits a `long` and the quotient an `int`. */
  predicate GroupRangeFits(groupByStart: int, groupByEnd: int, groupByDelta: int)
    requires groupByDelta > 0
  {
    0 <= groupByEnd - groupByStart <= LongMax && (groupByEnd - groupByStart) / groupByDelta <= IntMax
  }

  /** Where nothing overflows, the group size is the floor of range over delta. */
  lemma GroupSizeIsFloor(groupByStart: Int64, groupByEnd: Int64, groupByDelta: Int64)
    requires groupByDelta > 0 && GroupRangeFits(groupByStart, groupByEnd, groupByDelta)
    ensures GroupBySize(groupByStart, groupByEnd, groupByDelta)
            == Success((groupByEnd - groupByStart) / groupByDelta)
  {
    var range := groupByEnd - groupByStart;
    var q := range / groupByDelta;
    assert ToInt64(range) == range;
    assert JavaDiv(range, groupByDelta) == q;
    DivBounds(range, groupByDelta);
    assert ToInt64(q) == q;
    assert ToInt32(q) == q;
  }

  /** The group size counts the whole deltas in the range: a trailing part shorter
      than the delta gets no group of its own. */
  lemma GroupSizeCountsWholeIntervals(groupByStart: Int64, groupByEnd: Int64, groupByDelta: Int64)
    requires groupByDelta > 0 && GroupRangeFits(groupByStart, groupByEnd, groupByDelta)
    ensures var size := GroupBySize(groupByStart, groupByEnd, groupByDelta).value;
            size * groupByDelta <= groupByEnd - groupByStart < (size + 1) * groupByDelta
  {
    GroupSizeIsFloor(groupByStart, groupByEnd, groupByDelta);
    DivBounds(groupByEnd - groupByStart, groupByDelta);
  }

  /** The walk from `current` takes one step per whole delta up to `end`. */
  lemma {:induction false} SplitCount(current: int, end: int, delta: int)
    requires delta > 0
    ensures current <= end ==> |SplitsFrom(current, end, delta)| == (end - current) / delta + 1
    ensures current > end ==> |SplitsFrom(current, end, delta)| == 1
    decreases end - current
  {
    if current + delta <= end {
      SplitCount(current + delta, end, delta);
      FloorStep(end - current, end - (current + delta), delta);
    } else if current <= end {
      DivUnique(end - current, delta, 0, end - current);
    }
  }

  /** Adding one delta to a non-negative range adds one to its floor over the delta. */
  lemma FloorStep(a: int, rest: int, b: int)
    requires rest >= 0 && b > 0 && a == rest + b
    ensures a / b == rest / b + 1
  {
    DivStep(rest, b);
  }

  /** The intervals are contiguous: each ends where the next begins. */
  lemma IntervalsContiguous(req: Request, intervals: seq<(Int64, Int64)>)
    requires GroupSplits(req).Success?
    requires |intervals| == |GroupSplits(req).value| - 1
    requires forall i :: 0 <= i < |intervals| ==>
               intervals[i] == (GroupSplits(req).value[i], GroupSplits(req).value[i + 1])
    ensures forall i :: 0 <= i < |intervals| - 1 ==> intervals[i].1 == intervals[i + 1].0
    ensures req.groupByDelta > 0 ==> forall i :: 0 <= i < |intervals| ==>
              intervals[i].1 == intervals[i].0 + req.groupByDelta
  {
    var splits := GroupSplits(req).value;
    forall i | 0 <= i < |intervals| - 1
      ensures intervals[i].1 == intervals[i + 1].0
    {
      assert intervals[i] == (splits[i], splits[i + 1]);
      assert intervals[i + 1] == (splits[i + 1], splits[i + 2]);
    }
    if req.groupByDelta > 0 {
      forall i | 0 <= i < |intervals|
        ensures intervals[i].1 == intervals[i].0 + req.groupByDelta
      {
        assert intervals[i] == (splits[i], splits[i + 1]);
      }
    }
  }

  /** When the time filter and the group range are the same range, there are as
      many split intervals as groups. */
  lemma IntervalsMatchGroupSize(req: Request)
    requires req.groupByDelta > 0
    requires req.startTime == req.groupByStart && req.endTime == req.groupByEnd
    requires GroupRangeFits(req.groupByStart, req.groupByEnd, req.groupByDelta)
    ensures GroupSplits(req).Success? ==>
              |GroupSplits(req).value| - 1 == GroupBySize(req.groupByStart, req.groupByEnd, req.groupByDelta).value
  {
    SplitCount(req.startTime, req.endTime, req.groupByDelta);
    GroupSizeIsFloor(req.groupByStart, req.groupByEnd, req.groupByDelta);
  }

  /** The `CASE` walk emits one branch per delta started before the end: the
      ceiling of the remaining range over the delta. */
  lemma {:induction false} BranchCount(lower: int, end: int, delta: int, index: int)
    requires delta > 0 && lower < end
    ensures |BranchesFrom(lower, end, delta, index)| == (end - lower + delta - 1) / delta
    decreases end - lower
  {
    BranchesStep(lower, end, delta, index);
    CeilStep(end - lower, delta);
    if lower + delta < end {
      BranchCount(lower + delta, end, delta, index + 1);
      var remaining := end - (lower + delta);
      assert remaining + delta - 1 == end - lower - 1;
    }
  }

  /** One step of the `CASE` walk emits exactly one branch. */
  lemma BranchesStep(lower: int, end: int, delta: int, index: int)
    requires delta > 0 && lower < end
    ensures |BranchesFrom(lower, end, delta, index)| == 1 + |BranchesFrom(lower + delta, end, delta, index + 1)|
    ensures lower + delta >= end ==> BranchesFrom(lower + delta, end, delta, index + 1) == []
  {
  }

  /** The ceiling of a positive range over a delta drops by one per delta. */
  lemma CeilStep(a: int, b: int)
    requires a > 0 && b > 0
    ensures (a + b - 1) / b == (a - 1) / b + 1
    ensures a <= b ==> (a - 1) / b == 0
  {
    DivStep(a - 1, b);
    if a <= b {
      DivUnique(a - 1, b, 0, a - 1);
    }
  }

  /** Against the group size, the `CASE` expression has one branch more whenever
      the delta does not divide the range: the rows of that trailing part get a
      category equal to the group size, which `getAggregateResults` never reads. */
  lemma CaseCountVersusGroupSize(groupByStart: Int64, groupByEnd: Int64, groupByDelta: Int64)
    requires groupByDelta > 0 && groupByStart < groupByEnd
    requires GroupRangeFits(groupByStart, groupByEnd, groupByDelta)
    requires CaseBranches(groupByStart, groupByEnd, groupByDelta).Success?
    ensures var branches := CaseBranches(groupByStart, groupByEnd, groupByDelta).value;
            var size := GroupBySize(groupByStart, groupByEnd, groupByDelta).value;
            && ((groupByEnd - groupByStart) % groupByDelta == 0 ==> |branches| == size)
            && ((groupByEnd - groupByStart) % groupByDelta != 0 ==>
                  |branches| == size + 1 && branches[|branches| - 1].index == size)
  {
    BranchCount(groupByStart, groupByEnd, groupByDelta, 0);
    GroupSizeIsFloor(groupByStart, groupByEnd, groupByDelta);
    CeilVersusFloor(groupByEnd - groupByStart, groupByDelta);
  }

  /** The range [0, 100) in steps of 30: three groups, three split intervals ending
      at 90, and a fourth `CASE` branch, index 3, for [90, 120). */
  lemma TrailingPartialGroupExample()
    ensures GroupBySize(0, 100, 30) == Success(3)
    ensures CaseBranches(0, 100, 30) == Success([WhenBranch(0, 30, 0), WhenBranch(30, 60, 1),
                                                 WhenBranch(60, 90, 2), WhenBranch(90, 120, 3)])
    ensures SplitsFrom(0, 100, 30) == [0, 30, 60, 90]
  {
    GroupSizeIsFloor(0, 100, 30);
    BranchCount(0, 100, 30, 0);
    SplitCount(0, 100, 30);
    var branches := BranchesFrom(0, 100, 30, 0);
    assert branches == [WhenBranch(0, 30, 0), WhenBranch(30, 60, 1), WhenBranch(60, 90, 2), WhenBranch(90, 120, 3)];
  }

  lemma CeilVersusFloor(a: int, b: int)
    requires a > 0 && b > 0
    ensures a % b == 0 ==> (a + b - 1) / b == a / b
    ensures a % b != 0 ==> (a + b - 1) / b == a / b + 1
  {
    var q := a / b;
    var m := a % b;
    assert a == q * b + m && 0 <= m < b;
    if m == 0 {
      DivUnique(a + b - 1, b, q, b - 1);
    } else {
      assert a + b - 1 == (q + 1) * b + (m - 1);
      DivUnique(a + b - 1, b, q + 1, m - 1);
    }
  }

  /** `onResultsFetched` runs priority or derived processing exactly when the
      select list kept the columns raw. */
  lemma DispatchFollowsSelect(policy: StoragePolicy)
    ensures UsingPriority(policy) <==> Dispatch(policy) != Direct
  {
  }

  /** Row processing in SQL order: a group's result is the one of the last row
      carrying that category. */
  lemma {:induction false} LastRowWins(results: map<int, Option<AggregateResult>>, rows: seq<Row>,
                                       resultOf: Row -> Result<Option<AggregateResult>, CursorError>, i: nat)
    requires ProcessDirect(results, rows, resultOf).Success?
    requires i < |rows|
    requires forall j :: i < j < |rows| ==> CategoryOf(rows[j]).value != CategoryOf(rows[i]).value
    ensures CategoryOf(rows[i]).value as int in ProcessDirect(results, rows, resultOf).value
    ensures ProcessDirect(results, rows, resultOf).value[CategoryOf(rows[i]).value as int]
            == resultOf(rows[i]).value
    decreases |rows|
  {
    var category := CategoryOf(rows[0]).value;
    var next := results[category as int := resultOf(rows[0]).value];
    assert ProcessDirect(results, rows, resultOf) == ProcessDirect(next, rows[1..], resultOf);
    if i == 0 {
      NoLaterRowKeeps(next, rows[1..], resultOf, category as int);
    } else {
      assert forall j :: i - 1 < j < |rows[1..]| ==> rows[1..][j] == rows[j + 1];
      LastRowWins(next, rows[1..], resultOf, i - 1);
    }
  }

  /** A group no row names keeps the result it had. */
  lemma {:induction false} NoLaterRowKeeps(results: map<int, Option<AggregateResult>>, rows: seq<Row>,
                                           resultOf: Row -> Result<Option<AggregateResult>, CursorError>, g: int)
    requires ProcessDirect(results, rows, resultOf).Success?
    requires g in results
    requires forall j :: 0 <= j < |rows| ==> CategoryOf(rows[j]).value as int != g
    ensures g in ProcessDirect(results, rows, resultOf).value
    ensures ProcessDirect(results, rows, resultOf).value[g] == results[g]
    decreases |rows|
  {
    if rows != [] {
      var next := results[CategoryOf(rows[0]).value as int := resultOf(rows[0]).value];
      assert ProcessDirect(results, rows, resultOf) == ProcessDirect(next, rows[1..], resultOf);
      assert forall j :: 0 <= j < |rows[1..]| ==> rows[1..][j] == rows[j + 1];
      NoLaterRowKeeps(next, rows[1..], resultOf, g);
    }
  }

  /** After priority processing of a fresh request, the result list has an entry
      exactly for the groups the aggregator produced a value for. */
  lemma PriorityResultsPerGroup(req: Request, output: AggregatorOutput)
    requires req.aggregateResults == map[] && req.groupBySize >= 0
    ensures var results := GetAggregateResults(ProcessPriority(req, output));
            && results.Success? && |results.value| == req.groupBySize
            && forall g :: 0 <= g < req.groupBySize ==> (results.value[g].Some? <==> g in output.results)
  {
  }

  /** Fetching results keeps, on every path, the groups and values that path
      produced; attaching the data origins changes nothing else. A priority
      request whose split walk overflows fails, and a direct request succeeds
      exactly when every row reads and every stored result has origins to take. */
  lemma OriginsKeepValues(req: Request, policy: StoragePolicy, fetched: Fetched,
                          rowResult: Row -> Result<Option<AggregateResult>, CursorError>,
                          derivedResult: real -> Option<AggregateResult>,
                          packageNamesOf: seq<Int64> -> seq<JString>)
    ensures var r := OnResultsFetched(req, policy, fetched, rowResult, derivedResult, packageNamesOf);
            Dispatch(policy) == Derived && r.Success? ==>
              SameUpToOrigins(r.value.aggregateResults, DeriveAggregate(req.aggregateResults, fetched.derived, derivedResult))
    ensures var r := OnResultsFetched(req, policy, fetched, rowResult, derivedResult, packageNamesOf);
            Dispatch(policy) == Priority ==>
              && (GroupSplits(req).Failure? ==> r.Failure?)
              && (r.Success? ==> SameUpToOrigins(r.value.aggregateResults, ProcessPriority(req, fetched.aggregator).aggregateResults))
    ensures var r := OnResultsFetched(req, policy, fetched, rowResult, derivedResult, packageNamesOf);
            var direct := ProcessDirect(req.aggregateResults, fetched.rows, rowResult);
            Dispatch(policy) == Direct ==>
              && (r.Success? <==> direct.Success? && UpdateDataOrigins(direct.value, fetched.metadataRows, packageNamesOf).Success?)
              && (r.Success? ==> SameUpToOrigins(r.value.aggregateResults, direct.value))
  {
  }

/** Rendering the aggregation select list: an aggregated column is written
      `OP(col) as col` with the operation's SQL function, a raw column (priority
      or derived aggregation, and every additional column) as its bare name. */
  lemma SelectListRendering(req: Request, policy: StoragePolicy)
    ensures var items := AggregationSelect(req, policy);
            forall i :: 0 <= i < |req.columnsToAggregate| ==>
              SelectItemText(items[i])
              == if UsingPriority(policy) then req.columnsToAggregate[i]
                 else SqlCommandFor(req.aggregationType.operation).GetOr("null")
                      + "(" + req.columnsToAggregate[i] + ") as " + req.columnsToAggregate[i]
    ensures var items := AggregationSelect(req, policy);
            forall i :: 0 <= i < |req.additionalColumnsToFetch| ==>
              SelectItemText(items[|req.columnsToAggregate| + i]) == req.additionalColumnsToFetch[i]
  {
  }

  // ---- Integer division facts ----

  lemma MulAtLeast(x: int, b: int)
    requires x >= 1 && b > 0
    ensures x * b >= b
  {
    var p := x - 1;
    assert x * b == p * b + b;
    assert p * b >= 0;
  }

  lemma DivUnique(a: int, b: int, q: int, m: int)
    requires b > 0 && 0 <= m < b && a == q * b + m
    ensures a / b == q
  {
    var q' := a / b;
    var m' := a % b;
    assert a == q' * b + m' && 0 <= m' < b;
    var d := q - q';
    assert d * b == q * b - q' * b;
    assert d * b == m' - m;
    if d >= 1 {
      MulAtLeast(d, b);
    } else if d <= -1 {
      assert (-d) * b == -(d * b);
      MulAtLeast(-d, b);
    }
  }

  lemma DivStep(a: int, b: int)
    requires a >= 0 && b > 0
    ensures (a + b) / b == a / b + 1
  {
    var q := a / b;
    var m := a % b;
    assert a == q * b + m && 0 <= m < b;
    assert a + b == (q + 1) * b + m;
    DivUnique(a + b, b, q + 1, m);
  }

  lemma DivBounds(a: int, b: int)
    requires a >= 0 && b > 0
    ensures 0 <= a / b <= a
    ensures (a / b) * b <= a < (a / b + 1) * b
  {
    var q := a / b;
    var m := a % b;
    assert a == q * b + m && 0 <= m < b;
    assert (q + 1) * b == q * b + b;
    if q >= 1 {
      assert q * b >= q * 1 by { MulAtLeast(b, q); assert b * q == q * b; }
    } else if q < 0 {
      assert (-q) * b == -(q * b);
      MulAtLeast(-q, b);
    }
  }
}
