# Health Connect core, modelled in Dafny

This project models the core of Health Connect, Android's on-device health
data store, as immutable datatypes and pure functions. It covers:

- **Aggregation requests** (`AggregateTableRequest`). A request holds the time
  filter and the time grouping of one aggregation over one record table. The
  model covers the group-size arithmetic, the split points and intervals of the
  groups, and the structure of the aggregation query and the metadata query:
  the select list, the `CASE` expression, the `WHERE` conditions, the grouping
  and the ordering. It also covers the three ways rows become per-group results
  (derived, priority, direct), attaching data origins, and the final result
  list.
- **The API rate limiter** (`RateLimiter`). It is a pure transition over a map
  from caller uid to bucket to quota, with the current time passed in. The model
  covers bucket selection per category and foreground state, refill of the
  available quota, the all-or-nothing spend, the payload size ceilings and
  clearing the cache.
- **The common record state** (`RecordInternal`). The model covers its
  defaults, its setters, the parcel header codec, and the conversion to and
  from the public record metadata.
- **Body temperature records** (`BodyTemperatureRecordInternal`). The model
  covers the payload codec, the setters and the conversion to and from the
  public record.
- **Two storage helpers** (`ActiveCaloriesBurnedRecordHelper`,
  `WheelchairPushesRecordHelper`). The model covers their table and columns,
  their aggregation parameters and aggregate results, and the row and
  content-value round trips.
- **The change-log token request parcel** (`ChangeLogTokenRequestParcel`). The
  model covers building it from a request, and writing it to and reading it
  back from a parcel.

Supporting modules:

- `Wrappers` holds `Option` and `Result`. Java `null` and thrown exceptions
  become `None` and `Failure`.
- `JavaTypes` holds the 32- and 64-bit integer ranges, wrap-around narrowing,
  Java's truncating division and `Instant`.
- `Parcel` models a parcel as a sequence of typed values read through a
  cursor.
- `Storage` holds rows and content values as maps from column to value, plus
  the aggregate result record.

Two parts of the aggregation request disagree about the number of groups.
`setGroupBySize` (AggregateTableRequest.java:287-289) truncates: it counts only
whole deltas in the range. The `CASE` walk of `appendAggregateCommand`
(AggregateTableRequest.java:302-322) emits ⌈range/delta⌉ branches, so a trailing
part of the range shorter than a delta gets an index equal to the group size.
The result list (AggregateTableRequest.java:128-135) never reads that index.
`AggregateTableRequest.CaseCountVersusGroupSize` proves this for all inputs, and
`AggregateTableRequest.TrailingPartialGroupExample` works one instance.

## Model

| member | source | states |
|---|---|---|
| `AggregateTableRequest.NewRequest` | service/java/com/android/server/healthconnect/storage/request/AggregateTableRequest.java:87-107 | The extra columns fetched are the offset and the time column, plus the end-time column exactly when the params name one. Start and end are the default -1, there is no grouping, the group start, end and delta are Java's default 0, there is one group and there are no results. The aggregation type, the join and the local-time flag are stored as given. |
| `AggregateTableRequest.SetPackageFilter` | service/java/com/android/server/healthconnect/storage/request/AggregateTableRequest.java:181-187 | The package filter and its column are stored as given. Every other field is unchanged. |
| `AggregateTableRequest.SetTimeFilter` | service/java/com/android/server/healthconnect/storage/request/AggregateTableRequest.java:190-199 | A negative start, or an end before the start, leaves the request unchanged. Otherwise start and end are set exactly and nothing else changes. |
| `AggregateTableRequest.TimeFilterIdempotent` | service/java/com/android/server/healthconnect/storage/request/AggregateTableRequest.java:190-199 | Applying the same time filter twice gives the same request as applying it once. |
| `AggregateTableRequest.GroupBySize` | service/java/com/android/server/healthconnect/storage/request/AggregateTableRequest.java:287-289 | The size computation fails exactly when the delta is zero (Java's long division throws). |
| `AggregateTableRequest.GroupSizeIsFloor` | service/java/com/android/server/healthconnect/storage/request/AggregateTableRequest.java:287-289 | With a positive delta, a non-negative range (end ≥ start) that fits a long, and a quotient that fits an int, the group size is the floor of (end − start) / delta. A negative range is covered only through the truncating division in `GroupBySize`. |
| `AggregateTableRequest.GroupSizeCountsWholeIntervals` | service/java/com/android/server/healthconnect/storage/request/AggregateTableRequest.java:287-289 | size·delta ≤ end − start < (size+1)·delta. Only whole deltas are counted, so a shorter trailing part gets no group. |
| `AggregateTableRequest.SetGroupBy` | service/java/com/android/server/healthconnect/storage/request/AggregateTableRequest.java:202-229 | The column and filter bounds are always stored. The call fails with IllegalArgument exactly when both period and duration are null. The period's delta wins over the duration's. A zero delta fails. The size is set only on success. When both are null the call throws before the delta is written, so the old delta stays. No other field changes. |
| `AggregateTableRequest.PeriodTakesPrecedence` | service/java/com/android/server/healthconnect/storage/request/AggregateTableRequest.java:207-214 | With a period given, the result is the same whatever duration is passed. |
| `AggregateTableRequest.SplitsFrom` | service/java/com/android/server/healthconnect/storage/request/AggregateTableRequest.java:390-399 | The walk starts at the given point, and each later split is the previous one plus delta. Every later split is ≤ end and ≥ the start. The next step would pass the end. |
| `AggregateTableRequest.GroupSplits` | service/java/com/android/server/healthconnect/storage/request/AggregateTableRequest.java:386-404 | A delta ≤ 0 gives [start, end]. Otherwise the splits run from the filter start in steps of delta, all later ones ≤ end, stopping before the first step past the end. A walk whose step would wrap past Long.MAX_VALUE is an error. |
| `AggregateTableRequest.SplitCount` | service/java/com/android/server/healthconnect/storage/request/AggregateTableRequest.java:390-399 | The walk yields ⌊(end − start)/delta⌋ + 1 splits when start ≤ end, and a single split otherwise. |
| `AggregateTableRequest.GetGroupSplitIntervals` | service/java/com/android/server/healthconnect/storage/request/AggregateTableRequest.java:373-384 | The result has splits.size − 1 intervals, and interval i is (split i, split i+1). A failure of the splits is propagated. |
| `AggregateTableRequest.IntervalsContiguous` | service/java/com/android/server/healthconnect/storage/request/AggregateTableRequest.java:373-384 | Each interval ends where the next one begins. With a positive delta each interval is exactly delta long. |
| `AggregateTableRequest.IntervalsMatchGroupSize` | service/java/com/android/server/healthconnect/storage/request/AggregateTableRequest.java:386-404 | When the time filter and the group range coincide and nothing overflows, a split walk that succeeds yields exactly group-size intervals. |
| `AggregateTableRequest.BranchesFrom` | service/java/com/android/server/healthconnect/storage/request/AggregateTableRequest.java:307-318 | There are no branches exactly when the lower bound is not below the end. Otherwise branch k has index start index + k and covers [lower, lower + delta) with lower < end. The branches are contiguous, and the last one reaches the end. |
| `AggregateTableRequest.CaseBranches` | service/java/com/android/server/healthconnect/storage/request/AggregateTableRequest.java:302-322 | An empty range gives no branches, whatever the delta. A non-empty range with delta ≤ 0 is an error (Java would walk on with wrapped bounds). Otherwise branch k is `WHEN t >= start + k·delta AND t < start + (k+1)·delta THEN k`, for consecutive k, with every lower bound below the end and the last upper bound reaching it. |
| `AggregateTableRequest.BranchCount` | service/java/com/android/server/healthconnect/storage/request/AggregateTableRequest.java:307-318 | The walk emits ⌈(end − lower)/delta⌉ branches. |
| `AggregateTableRequest.CaseCountVersusGroupSize` | service/java/com/android/server/healthconnect/storage/request/AggregateTableRequest.java:287-322 | When delta divides the range, there are exactly group-size branches. Otherwise there is one more, and its index equals the group size. |
| `AggregateTableRequest.TrailingPartialGroupExample` | service/java/com/android/server/healthconnect/storage/request/AggregateTableRequest.java:287-322 | For [0, 100) with delta 30 the group size is 3, the splits are 0, 30, 60, 90, and the `CASE` has four branches, the last being [90, 120) with index 3. |
| `AggregateTableRequest.SqlCommandFor` | service/java/com/android/server/healthconnect/storage/request/AggregateTableRequest.java:291-300 | MAX, MIN, AVG, SUM and COUNT map to their SQL names. Every other operation maps to null. |
| `AggregateTableRequest.WhereConditions` | service/java/com/android/server/healthconnect/storage/request/AggregateTableRequest.java:346-360 | The package filter comes first. The lower bound applies to the end-time column for interval records and to the time column otherwise. The upper bound always applies to the time column. |
| `AggregateTableRequest.AppendAggregateCommand` | service/java/com/android/server/healthconnect/storage/request/AggregateTableRequest.java:302-344 | `CASE` and `GROUP BY category` appear together, exactly when a group column is set and the query is not a metadata query. Only the `CASE` walk can fail. The query always orders by the time column ascending and carries the WHERE conditions. |
| `AggregateTableRequest.AggregationSelect` | service/java/com/android/server/healthconnect/storage/request/AggregateTableRequest.java:146-176 | The columns to aggregate come first: raw when using priority (or a derived type), otherwise wrapped in the operation. The additional columns follow, raw and in order. |
| `AggregateTableRequest.SelectListRendering` | service/java/com/android/server/healthconnect/storage/request/AggregateTableRequest.java:146-169 | Each aggregated column of the select list renders as `OP(col) as col`, with the operation's SQL function, or `null` when there is none. In priority or derived aggregation it renders as the bare column name, and every additional column renders as its bare name. |
| `AggregateTableRequest.AggregationCommand` | service/java/com/android/server/healthconnect/storage/request/AggregateTableRequest.java:146-179 | Priority or derived aggregation never gets `CASE`/`GROUP BY`, because the flag is passed on as `isMetadata`. Without grouping the command cannot fail. |
| `AggregateTableRequest.MetadataCommand` | service/java/com/android/server/healthconnect/storage/request/AggregateTableRequest.java:138-142 | The query is `SELECT DISTINCT app_info_id` over the same table and conditions, never grouped, ordered by time ascending. |
| `AggregateTableRequest.Dispatch` | service/java/com/android/server/healthconnect/storage/request/AggregateTableRequest.java:231-243 | A derived type is processed as derived, before priority support is considered. Priority support comes next, and everything else is direct. |
| `AggregateTableRequest.ProcessedResults` | service/java/com/android/server/healthconnect/storage/request/AggregateTableRequest.java:231-251 | Derived requests take the derived values. Priority requests fail exactly when the group-split walk fails, and otherwise take the aggregator's per-group results. Direct requests fail exactly when some row cannot be read, and otherwise take the row-by-row results. |
| `AggregateTableRequest.DispatchFollowsSelect` | service/java/com/android/server/healthconnect/storage/request/AggregateTableRequest.java:149-243 | Post-processing is priority or derived exactly when the select list kept the columns raw. |
| `AggregateTableRequest.DoubleToLong` | service/java/com/android/server/healthconnect/storage/request/AggregateTableRequest.java:262-265 | `longValue()` truncates toward zero within the long range and saturates outside it. |
| `AggregateTableRequest.ProcessPriority` | service/java/com/android/server/healthconnect/storage/request/AggregateTableRequest.java:245-277 | Only groups 0 ≤ g < size with a non-null aggregator result get an entry. The entry is a long exactly when the result class is Long, and carries the group's zone offset. Other entries and fields are unchanged. |
| `AggregateTableRequest.PriorityResultsPerGroup` | service/java/com/android/server/healthconnect/storage/request/AggregateTableRequest.java:128-135 | After priority processing of a fresh request, the result list has group-size entries, and entry g is non-null exactly when the aggregator produced group g. |
| `AggregateTableRequest.CategoryOf` | service/java/com/android/server/healthconnect/storage/request/AggregateTableRequest.java:279-285 | The category is the row's `category` long narrowed to int, and 0 when it is NULL. A missing or REAL column is a cursor error. |
| `AggregateTableRequest.NullCategoryFilesUnderGroupZero` | service/java/com/android/server/healthconnect/storage/request/AggregateTableRequest.java:279-285 | A row outside every `CASE` branch, such as an interval record that starts before the group range but ends inside the filter, has a NULL category, and its result is stored under group 0. |
| `AggregateTableRequest.ProcessDirect` | service/java/com/android/server/healthconnect/storage/request/AggregateTableRequest.java:279-285 | It succeeds exactly when every row has a category and a helper result. Existing entries stay keys, and every new key is some row's category. |
| `AggregateTableRequest.LastRowWins` | service/java/com/android/server/healthconnect/storage/request/AggregateTableRequest.java:279-285 | The result stored under a category is that of the last row carrying it. |
| `AggregateTableRequest.NoLaterRowKeeps` | service/java/com/android/server/healthconnect/storage/request/AggregateTableRequest.java:279-285 | A group that no row names keeps the result it had. |
| `AggregateTableRequest.DeriveAggregate` | service/java/com/android/server/healthconnect/storage/request/AggregateTableRequest.java:406-415 | Derived value i becomes the result of group i. Other groups are unchanged and no other key appears. |
| `AggregateTableRequest.AppInfoIds` | service/java/com/android/server/healthconnect/storage/request/AggregateTableRequest.java:362-366 | Each metadata row contributes its app id, in row order. A row without one is an error. |
| `AggregateTableRequest.UpdateDataOrigins` | service/java/com/android/server/healthconnect/storage/request/AggregateTableRequest.java:362-371 | Every stored result gets the package names of the metadata rows' app ids, and nothing else about it changes. A null stored result throws. The keys are unchanged. |
| `AggregateTableRequest.OnResultsFetched` | service/java/com/android/server/healthconnect/storage/request/AggregateTableRequest.java:231-243 | It succeeds exactly when the chosen processing succeeds and the data origins can be attached. On success only the results change, and they hold exactly the groups the processing produced. Each group keeps its value and zone offset and gains data origins. |
| `AggregateTableRequest.OriginsKeepValues` | service/java/com/android/server/healthconnect/storage/request/AggregateTableRequest.java:231-243 | On each of the three paths, a successful fetch holds the same groups, values and zone offsets as that path's processing. A priority request whose split walk overflows fails. A direct request succeeds exactly when every row reads and every stored result can take its origins. |
| `AggregateTableRequest.GetAggregateResults` | service/java/com/android/server/healthconnect/storage/request/AggregateTableRequest.java:128-135 | The list has exactly group-size entries, each the stored result or null. A negative size is an illegal capacity. |
| `RateLimiter.WindowMillis` | framework/java/android/health/connect/ratelimiter/RateLimiter.java:195-211 | Buckets 1, 3, 5 and 7 have a 15-minute window, buckets 2, 4, 6 and 8 have a 24-hour window, and any other bucket is an error. |
| `RateLimiter.ConfiguredMaxQuota` | framework/java/android/health/connect/ratelimiter/RateLimiter.java:213-219 | The maximum is 1000 (15 min) or 2000 (24 h) in the foreground, and 300 or 600 in the background. It is positive for every bucket and an error otherwise. |
| `RateLimiter.AvailableQuota` | framework/java/android/health/connect/ratelimiter/RateLimiter.java:165-176 | The available quota is min(remaining + elapsed·max/window, max). It never exceeds the bucket's maximum. It is at least min(remaining, max) when the clock has not gone back, and back at the maximum once a whole window has passed. Invalid buckets are errors. |
| `RateLimiter.RefillAdds` | framework/java/android/health/connect/ratelimiter/RateLimiter.java:170-172 | What refills over two consecutive stretches of time equals what refills over their sum. |
| `RateLimiter.AvailableQuotaMonotone` | framework/java/android/health/connect/ratelimiter/RateLimiter.java:165-176 | The available quota never decreases as time passes. |
| `RateLimiter.AvailableQuotaRefillsLinearly` | framework/java/android/health/connect/ratelimiter/RateLimiter.java:165-176 | Below the cap, waiting longer adds exactly elapsed·max/window, and the result stays strictly below the maximum. |
| `RateLimiter.InitialQuota` | framework/java/android/health/connect/ratelimiter/RateLimiter.java:191-193 | A fresh quota is full and stamped now. |
| `RateLimiter.QuotaOf` | framework/java/android/health/connect/ratelimiter/RateLimiter.java:178-189 | The stored quota is returned if there is one, and a fresh full quota otherwise. |
| `RateLimiter.FirstUseFullQuota` | framework/java/android/health/connect/ratelimiter/RateLimiter.java:178-193 | A bucket the caller never spent from has its configured maximum available. |
| `RateLimiter.Availables` | framework/java/android/health/connect/ratelimiter/RateLimiter.java:131-138 | The result holds one available quota per bucket, in order. It fails exactly when some bucket is invalid. |
| `RateLimiter.AvailablesSeen` | framework/java/android/health/connect/ratelimiter/RateLimiter.java:131-138 | The quotas collected for the check are the ones each bucket reports. |
| `RateLimiter.FirstShortfall` | framework/java/android/health/connect/ratelimiter/RateLimiter.java:139-163 | There is no shortfall exactly when every bucket covers the cost. Otherwise the result is the first bucket that does not. |
| `RateLimiter.SpendAll` | framework/java/android/health/connect/ratelimiter/RateLimiter.java:142-152 | Each spent bucket becomes (now, available − cost). Other buckets keep their quota, and the keys gain exactly the spent buckets. |
| `RateLimiter.FailEffect` | framework/java/android/health/connect/ratelimiter/RateLimiter.java:178-183 | A failed spend still creates the caller's quota map and changes no stored quota. |
| `RateLimiter.PassEffect` | framework/java/android/health/connect/ratelimiter/RateLimiter.java:142-152 | A passed spend writes exactly the affected buckets, and leaves other callers and other buckets unchanged. |
| `RateLimiter.SpendShortOutcome` | framework/java/android/health/connect/ratelimiter/RateLimiter.java:130-163 | With a shortfall, the call throws quota-exceeded with the first short bucket's available quota and the cost, before anything is spent. |
| `RateLimiter.SpendPassOutcome` | framework/java/android/health/connect/ratelimiter/RateLimiter.java:130-152 | Without a shortfall, every bucket is spent and the call passes. |
| `RateLimiter.SpendOutcome` | framework/java/android/health/connect/ratelimiter/RateLimiter.java:130-163 | The spend passes exactly when every bucket has at least the cost. On failure no quota is written. On success each bucket becomes available − cost, stamped now. |
| `RateLimiter.AffectedQuotaBuckets` | framework/java/android/health/connect/ratelimiter/RateLimiter.java:229-257 | Read and write categories map to exactly two distinct buckets, a 15-minute one then a 24-hour one, of that category and foreground state. Other categories are errors. |
| `RateLimiter.TryAcquireApiCallQuota` | framework/java/android/health/connect/ratelimiter/RateLimiter.java:79-95 | UNDEFINED throws and UNMETERED passes, neither touching any state. An unknown category throws with no state change. |
| `RateLimiter.AcquireOutcome` | framework/java/android/health/connect/ratelimiter/RateLimiter.java:79-95 | A read or write call passes exactly when both affected buckets show at least the default cost of 1. Its effect on the state is the spend effect above. |
| `RateLimiter.SeenAvailableNonNegative` | framework/java/android/health/connect/ratelimiter/RateLimiter.java:165-176 | Under the quota invariant, the available quota lies between 0 and the maximum. |
| `RateLimiter.EffectPreservesInvariant` | framework/java/android/health/connect/ratelimiter/RateLimiter.java:142-152 | A spend that passed only with enough quota keeps every stored quota within [0, max] and stamped no later than now. |
| `RateLimiter.AcquirePreservesInvariant` | framework/java/android/health/connect/ratelimiter/RateLimiter.java:130-176 | With a clock that does not go back, every call keeps 0 ≤ remaining ≤ max for every stored quota. |
| `RateLimiter.CheckMaxChunkMemoryUsage` | framework/java/android/health/connect/ratelimiter/RateLimiter.java:97-107 | The check fails exactly above 5,000,000 bytes, so a cost equal to the limit passes. The error carries the limit and the cost. |
| `RateLimiter.CheckMaxRecordMemoryUsage` | framework/java/android/health/connect/ratelimiter/RateLimiter.java:109-119 | The check fails exactly above 1,000,000 bytes, and the error carries the limit and the cost. |
| `RateLimiter.ClearCache` | framework/java/android/health/connect/ratelimiter/RateLimiter.java:121-123 | No caller has any quota state left. |
| `RateLimiter.AcquireAfterClearCache` | framework/java/android/health/connect/ratelimiter/RateLimiter.java:121-193 | After clearing, a caller's first metered call passes and leaves both buckets at max − 1, stamped now. |
| `RecordInternal.FieldsDetermineRecord` | framework/java/android/health/connect/internal/datatypes/RecordInternal.java:42-54 | Two records that agree on every field are equal. |
| `RecordInternal.NewRecordBase` | framework/java/android/health/connect/internal/datatypes/RecordInternal.java:42-60 | The record type is the identifier. Strings are null. The long fields are DEFAULT_LONG, the row id is DEFAULT_INT and the device type is 0. |
| `RecordInternal.SetUuid` | framework/java/android/health/connect/internal/datatypes/RecordInternal.java:114-118 | The uuid is set and every other field is unchanged. |
| `RecordInternal.SetPackageName` | framework/java/android/health/connect/internal/datatypes/RecordInternal.java:125-129 | The package name is set and every other field is unchanged. |
| `RecordInternal.SetRowId` | framework/java/android/health/connect/internal/datatypes/RecordInternal.java:137-140 | The row id is set and every other field is unchanged. |
| `RecordInternal.SetAppName` | framework/java/android/health/connect/internal/datatypes/RecordInternal.java:153-157 | The app name is set and every other field is unchanged. |
| `RecordInternal.SetLastModifiedTime` | framework/java/android/health/connect/internal/datatypes/RecordInternal.java:163-167 | The last-modified time is set and every other field is unchanged. |
| `RecordInternal.SetClientRecordId` | framework/java/android/health/connect/internal/datatypes/RecordInternal.java:174-178 | The client record id is set and every other field is unchanged. |
| `RecordInternal.SetClientRecordVersion` | framework/java/android/health/connect/internal/datatypes/RecordInternal.java:184-188 | The client record version is set and every other field is unchanged. |
| `RecordInternal.SetManufacturer` | framework/java/android/health/connect/internal/datatypes/RecordInternal.java:195-199 | The manufacturer is set and every other field is unchanged. |
| `RecordInternal.SetModel` | framework/java/android/health/connect/internal/datatypes/RecordInternal.java:206-210 | The model is set and every other field is unchanged. |
| `RecordInternal.SetDeviceType` | framework/java/android/health/connect/internal/datatypes/RecordInternal.java:217-221 | The device type is set and every other field is unchanged. |
| `RecordInternal.SetDeviceInfoId` | framework/java/android/health/connect/internal/datatypes/RecordInternal.java:227-231 | The device-info id is set and every other field is unchanged. |
| `RecordInternal.SetAppInfoId` | framework/java/android/health/connect/internal/datatypes/RecordInternal.java:237-241 | The app-info id is set and every other field is unchanged. |
| `RecordInternal.WriteHeader` | framework/java/android/health/connect/internal/datatypes/RecordInternal.java:95-107 | It keeps what was already in the parcel and appends the nine header values in wire order: uuid, package name, app name, last-modified time, client record id, client record version, manufacturer, model, device type. |
| `RecordInternal.ReadHeader` | framework/java/android/health/connect/internal/datatypes/RecordInternal.java:71-83 | A successful read consumes nine values and leaves every field it does not read as it was in the target. |
| `RecordInternal.HeaderRoundTrip` | framework/java/android/health/connect/internal/datatypes/RecordInternal.java:71-107 | Reading back what was written restores the nine parcelled fields. The identifier, device-info id, app-info id and row id stay the target's. |
| `RecordInternal.PopulateUsingInternal` | framework/java/android/health/connect/internal/datatypes/RecordInternal.java:247-258 | The metadata id, package, last-modified millis, client id and version, and device fields are copied, and no other field changes. It fails exactly when the time overflows epoch millis. The failure carries the record as the exception leaves it: uuid and package name already set, everything else unchanged. |
| `RecordInternal.BuildMetaData` | framework/java/android/health/connect/internal/datatypes/RecordInternal.java:260-275 | Each metadata field carries the corresponding record field, and the last-modified millis read back unchanged. |
| `RecordInternal.RecordToMetadataRoundTrip` | framework/java/android/health/connect/internal/datatypes/RecordInternal.java:247-275 | Building metadata and populating from it restores the metadata fields and leaves the others as in the target. |
| `RecordInternal.MetadataToRecordRoundTrip` | framework/java/android/health/connect/internal/datatypes/RecordInternal.java:247-275 | Populating from metadata and building it again gives the metadata back, with its time cut to milliseconds. |
| `BodyTemperatureRecordInternal.NewBodyTemperature` | framework/java/android/healthconnect/internal/datatypes/BodyTemperatureRecordInternal.java:31-35 | The record type is body temperature, with the common defaults and a zero payload. |
| `BodyTemperatureRecordInternal.SetMeasurementLocation` | framework/java/android/healthconnect/internal/datatypes/BodyTemperatureRecordInternal.java:42-47 | The location is set and everything else is unchanged. |
| `BodyTemperatureRecordInternal.SetTemperature` | framework/java/android/healthconnect/internal/datatypes/BodyTemperatureRecordInternal.java:53-58 | The temperature is set and everything else is unchanged. |
| `BodyTemperatureRecordInternal.WritePayload` | framework/java/android/healthconnect/internal/datatypes/BodyTemperatureRecordInternal.java:84-88 | The payload is the location as an int, then the temperature as a double, appended to the parcel. |
| `BodyTemperatureRecordInternal.WriteToParcel` | framework/java/android/healthconnect/internal/datatypes/BodyTemperatureRecordInternal.java:84-88 | It keeps what was already in the parcel, appends the nine header values in the header's wire order, and then appends the location and the temperature. |
| `BodyTemperatureRecordInternal.ReadPayload` | framework/java/android/healthconnect/internal/datatypes/BodyTemperatureRecordInternal.java:72-76 | The read succeeds exactly when an int then a double follow. It takes those two values and changes nothing else. |
| `BodyTemperatureRecordInternal.PopulateUsingParcel` | framework/java/android/healthconnect/internal/datatypes/BodyTemperatureRecordInternal.java:72-76 | Reading the header and the payload never changes the record type. |
| `BodyTemperatureRecordInternal.ParcelRoundTrip` | framework/java/android/healthconnect/internal/datatypes/BodyTemperatureRecordInternal.java:72-88 | Write-then-read restores the parcelled header fields, the location and the temperature. The target's other fields stay, and the cursor ends after the record. |
| `BodyTemperatureRecordInternal.ToExternalRecord` | framework/java/android/healthconnect/internal/datatypes/BodyTemperatureRecordInternal.java:60-70 | The public record carries the built metadata, the time, the location, the Celsius temperature and the zone offset unchanged. |
| `BodyTemperatureRecordInternal.PopulatePayloadFromRecord` | framework/java/android/healthconnect/internal/datatypes/BodyTemperatureRecordInternal.java:78-82 | The location and the Celsius temperature are copied, and nothing else changes. |
| `BodyTemperatureRecordInternal.PopulateUsingRecord` | framework/java/android/healthconnect/internal/datatypes/BodyTemperatureRecordInternal.java:78-82 | It fails exactly when the metadata conversion fails, with the same error. On success the base is the populated metadata, the time and zone offset are the record's, and the location and Celsius temperature are copied. |
| `BodyTemperatureRecordInternal.ExternalRoundTrip` | framework/java/android/healthconnect/internal/datatypes/BodyTemperatureRecordInternal.java:60-82 | Converting to the public record and back restores the metadata fields, the time, the zone offset and the payload. The target's other fields are kept. |
| `BodyTemperatureRecordInternal.RecordRoundTrip` | framework/java/android/healthconnect/internal/datatypes/BodyTemperatureRecordInternal.java:60-82 | Populating from a public record and converting back gives the same record, with its last-modified time cut to milliseconds. |
| `ActiveCaloriesBurnedRecordHelper.GetAggregateParams` | service/java/com/android/server/healthconnect/storage/datatypehelpers/ActiveCaloriesBurnedRecordHelper.java:66-77 | Params exist only for the active-calories total. They name the main table, the `energy` column and `start_time`. |
| `ActiveCaloriesBurnedRecordHelper.GetAggregateResult` | service/java/com/android/server/healthconnect/storage/datatypehelpers/ActiveCaloriesBurnedRecordHelper.java:47-58 | Other ids give null. The total is the row's `energy` double, with the row's zone offset. |
| `ActiveCaloriesBurnedRecordHelper.PopulateSpecificRecordValue` | service/java/com/android/server/healthconnect/storage/datatypehelpers/ActiveCaloriesBurnedRecordHelper.java:79-84 | The energy is read from a REAL `energy` column. A missing column fails, and the base fields are kept. |
| `ActiveCaloriesBurnedRecordHelper.PopulateSpecificContentValues` | service/java/com/android/server/healthconnect/storage/datatypehelpers/ActiveCaloriesBurnedRecordHelper.java:86-91 | Only `energy` is written, with the record's energy. |
| `ActiveCaloriesBurnedRecordHelper.RowRoundTrip` | service/java/com/android/server/healthconnect/storage/datatypehelpers/ActiveCaloriesBurnedRecordHelper.java:79-91 | The energy written into content values reads back unchanged. |
| `ActiveCaloriesBurnedRecordHelper.ColumnInfoMatchesStoredValues` | service/java/com/android/server/healthconnect/storage/datatypehelpers/ActiveCaloriesBurnedRecordHelper.java:93-97 | The declared column `(energy, REAL)` is written with a REAL value. No undeclared column is written, and the aggregated column is declared. |
| `ActiveCaloriesBurnedRecordHelper.ParamsAndResultAgree` | service/java/com/android/server/healthconnect/storage/datatypehelpers/ActiveCaloriesBurnedRecordHelper.java:47-77 | Params exist exactly for the ids with a non-null result. |
| `ActiveCaloriesBurnedRecordHelper.QueriedColumnsSuffice` | service/java/com/android/server/healthconnect/storage/datatypehelpers/ActiveCaloriesBurnedRecordHelper.java:47-77 | A row holding the queried columns always yields a non-null result. |
| `WheelchairPushesRecordHelper.GetAggregateParams` | service/java/com/android/server/healthconnect/storage/datatypehelpers/WheelchairPushesRecordHelper.java:67-79 | Params exist only for the pushes count total. They name the main table, the `count` column and `start_time`. |
| `WheelchairPushesRecordHelper.GetAggregateResult` | service/java/com/android/server/healthconnect/storage/datatypehelpers/WheelchairPushesRecordHelper.java:47-59 | Other ids give null. The total is the row's `count` long, with the row's zone offset. |
| `WheelchairPushesRecordHelper.PopulateSpecificRecordValue` | service/java/com/android/server/healthconnect/storage/datatypehelpers/WheelchairPushesRecordHelper.java:81-86 | The count is read from an INTEGER `count` column. A missing column fails, and the base fields are kept. |
| `WheelchairPushesRecordHelper.PopulateSpecificContentValues` | service/java/com/android/server/healthconnect/storage/datatypehelpers/WheelchairPushesRecordHelper.java:88-93 | Only `count` is written, with the record's count. |
| `WheelchairPushesRecordHelper.RowRoundTrip` | service/java/com/android/server/healthconnect/storage/datatypehelpers/WheelchairPushesRecordHelper.java:81-93 | The count written into content values reads back unchanged. |
| `WheelchairPushesRecordHelper.ColumnInfoMatchesStoredValues` | service/java/com/android/server/healthconnect/storage/datatypehelpers/WheelchairPushesRecordHelper.java:95-99 | The declared column `(count, INTEGER)` is written with an INTEGER value. No undeclared column is written, and the aggregated column is declared. |
| `WheelchairPushesRecordHelper.ParamsAndResultAgree` | service/java/com/android/server/healthconnect/storage/datatypehelpers/WheelchairPushesRecordHelper.java:47-79 | Params exist exactly for the ids with a non-null result. |
| `WheelchairPushesRecordHelper.QueriedColumnsSuffice` | service/java/com/android/server/healthconnect/storage/datatypehelpers/WheelchairPushesRecordHelper.java:47-79 | A row holding the queried columns always yields a non-null result. |
| `ChangeLogTokenRequestParcel.FromRequest` | framework/java/android/healthconnect/aidl/ChangeLogTokenRequestParcel.java:51-60 | The result has one record type per requested class and one package name per data-origin filter, each in order. |
| `ChangeLogTokenRequestParcel.WriteToParcel` | framework/java/android/healthconnect/aidl/ChangeLogTokenRequestParcel.java:82-86 | It appends the int array, then the string list. |
| `ChangeLogTokenRequestParcel.FromParcel` | framework/java/android/healthconnect/aidl/ChangeLogTokenRequestParcel.java:62-65 | The read succeeds exactly when an int array then a string list follow, and it takes those two values. |
| `ChangeLogTokenRequestParcel.ParcelRoundTrip` | framework/java/android/healthconnect/aidl/ChangeLogTokenRequestParcel.java:62-86 | Write-then-read reproduces both collections and ends after them. |
| `ChangeLogTokenRequestParcel.DescribeContents` | framework/java/android/healthconnect/aidl/ChangeLogTokenRequestParcel.java:77-80 | The result is always 0. |

## Left out

- Concurrency in the rate limiter is left out: the per-uid lock map and the `synchronized` block (RateLimiter.java lines 53, 89 and 125-128). Each call is one atomic transition.
- The rate limiter's clock is a parameter. The source reads `Instant.now()` several times in one call, while the model uses one `now` per call.
- Float arithmetic in the rate limiter is done in reals. Rounding of `float` and the `toMillis` truncation of elapsed time are not modelled, and time is whole milliseconds.
- The uid is an unbounded integer rather than a Java `int`. It is only ever used as a map key.
- `RateLimiter.SpendResourcesIfAvailable` has no contract of its own. Its behaviour is stated by `RateLimiter.SpendOutcome` and the lemmas around it.
- Android's `Parcel` is a sequence of typed values. Reading a value of the wrong kind, or past the end, is an error here. Android's parcel would return a default or reinterpret bytes, which only matters for malformed parcels.
- Doubles are modelled as reals, so NaN, infinities, −0.0 and rounding are not modelled. `AggregateTableRequest.DoubleToLong` covers only finite values.
- `InstantRecordInternal` is not part of this model. The time and zone offset it holds are plain fields of the body-temperature record, copied as given, so its millisecond and whole-second storage is not modelled.
- `BodyTemperatureRecordInternal.WriteToParcel` and `BodyTemperatureRecordInternal.PopulateUsingParcel` leave out the time and zone offset that `InstantRecordInternal` parcels around the payload. Reading a parcel keeps the target's time and zone offset.
- `IntervalRecordHelper`, `RecordHelper` and `StorageUtils` are not part of this model. Their `START_TIME_COLUMN_NAME` is taken to be `start_time`. The zone offset a helper reads from a row, `getCursorDouble`/`getCursorLong`, and the `REAL`/`INTEGER` type names appear as parameters or constants.
- `android.health.connect.Constants` is not part of this model. `DEFAULT_LONG` and `DEFAULT_INT` are taken to be −1.
- Record type identifiers are an enumeration (`RecordType`), not their numeric values. `RecordMapper.getRecordType` is a parameter of `ChangeLogTokenRequestParcel.FromRequest`.
- `Metadata.Builder`, `DataOrigin.Builder`, `Device.Builder` and `Temperature.fromCelsius` are plain records. Their null checks and validation are not modelled.
- Several aggregation collaborators are inputs: `StorageUtils.supportsPriority`/`isDerivedType` (a `StoragePolicy`), the period and duration deltas, `TimeRangeFilterHelper`'s start and end millis, `PriorityRecordsAggregator`'s per-group results and zone offsets, `RecordHelper.deriveAggregate` and its three-argument `getAggregateResult`, and `AppInfoHelper.getPackageNames`. The priority list, the priority extra parameters and `useLocalTime` only feed the aggregator, so they are not interpreted.
- The text formats of `WhereClauses`, `OrderByClause` and `SqlJoin` are left out, and the query is a structured value rather than a string. The builder's trimming of the trailing `", "` has no counterpart.
- `AggregateTableRequest.GroupSplits`: a walk whose next step would pass `Long.MAX_VALUE` is reported as an error. The Java loop instead continues with the wrapped value.
- `AggregateTableRequest.CaseBranches`: a non-empty range with a delta ≤ 0, or a step past `Long.MAX_VALUE`, is reported as an error. Java instead goes on emitting branches with wrapped bounds, a walk that ends for some such inputs (start 0, end 10, delta −2^62 gives three branches) and not for others (delta 0). The `int` branch index is not wrapped after 2^31 branches.
- The trivial getters `getAggregationType`, `getRecordHelper`, `getRecordTypes` and `getPackageNamesToFilter` are left out.
- `Slog` debug logging is left out.
- `ActiveCaloriesBurnedRecordHelper.GetMainTableName`, `WheelchairPushesRecordHelper.GetMainTableName` and the two `GetIntervalRecordColumnInfo` functions are constants without a contract of their own. Their values are stated through `GetAggregateParams` and `ColumnInfoMatchesStoredValues`.
- `Storage.CursorDouble`, `Storage.CursorLong` and their users (`AggregateTableRequest.CategoryOf`, and both helpers' `GetAggregateResult` and `PopulateSpecificRecordValue`) assume typed columns. A column holding the other numeric kind is a cursor error here, and so is NULL except in `AggregateTableRequest.CategoryOf`, which reads a NULL category as group 0 as `getCursorInt` does. Android's cursor would convert between INTEGER and REAL, and return 0 for any NULL.
