/** `RateLimiter`: a token bucket per caller and per quota bucket, refilled
    continuously over the bucket's window up to the bucket's maximum, and spent
    all-or-nothing across the buckets a call affects; plus two flat ceilings on
    payload size. The process-wide quota map is an explicit state, the clock an
    explicit `now` in milliseconds, and quota amounts are exact reals. */
module RateLimiter {
  import opened Wrappers
  import opened JavaTypes

  // QuotaBucket
  const QuotaBucketUndefined: int := 0
  const ReadsPer15mForeground: int := 1
  const ReadsPer24hForeground: int := 2
  const ReadsPer15mBackground: int := 3
  const ReadsPer24hBackground: int := 4
  const WritesPer15mForeground: int := 5
  const WritesPer24hForeground: int := 6
  const WritesPer15mBackground: int := 7
  const WritesPer24hBackground: int := 8

  // QuotaCategory
  const QuotaCategoryUndefined: int := 0
  const QuotaCategoryUnmetered: int := 1
  const QuotaCategoryRead: int := 2
  const QuotaCategoryWrite: int := 3

  const Per15mForegroundLimit: real := 1000.0
  const Per24hForegroundLimit: real := 2000.0
  const Per15mBackgroundLimit: real := 300.0
  const Per24hBackgroundLimit: real := 600.0
  const ChunkSizeLimitInBytes: int := 5000000
  const RecordSizeLimitInBytes: int := 1000000
  const DefaultApiCallCost: int := 1

  const FifteenMinutesMillis: int := 15 * 60 * 1000
  const DayMillis: int := 24 * 60 * 60 * 1000

  /** The quota map every caller's buckets are looked up in. */
  const MaxApiCallQuota: map<int, real> := map[
    ReadsPer15mForeground := Per15mForegroundLimit,
    ReadsPer24hForeground := Per24hForegroundLimit,
    ReadsPer15mBackground := Per15mBackgroundLimit,
    ReadsPer24hBackground := Per24hBackgroundLimit,
    WritesPer15mForeground := Per15mForegroundLimit,
    WritesPer24hForeground := Per24hForegroundLimit,
    WritesPer15mBackground := Per15mBackgroundLimit,
    WritesPer24hBackground := Per24hBackgroundLimit]

  predicate IsBucket(bucket: int) {
    ReadsPer15mForeground <= bucket <= WritesPer24hBackground
  }

  /** The buckets counting foreground calls. */
  predicate IsForegroundBucket(bucket: int) {
    bucket in {ReadsPer15mForeground, ReadsPer24hForeground, WritesPer15mForeground, WritesPer24hForeground}
  }

  /** The buckets counting reads. */
  predicate IsReadBucket(bucket: int) {
    ReadsPer15mForeground <= bucket <= ReadsPer24hBackground
  }

  /** A quota: when it was last written and what remained then. */
  datatype Quota = Quota(lastUpdatedMillis: int, remaining: real)

  type Uid = int

  /** The per-caller quota maps, `sUserIdToQuotasMap`. */
  type State = map<Uid, map<int, Quota>>

  datatype RateLimitError =
    | IllegalArgument
    | ApiCallQuotaExceeded(availableQuota: real, requested: int)
    | MemoryLimitExceeded(limit: int, cost: int)

  /** `getWindowDuration`, in milliseconds. */
  function WindowMillis(bucket: int): (r: Result<int, RateLimitError>)
    ensures r.Success? <==> IsBucket(bucket)
    ensures r.Success? ==> (r.value == FifteenMinutesMillis <==> bucket % 2 == 1)
    ensures r.Success? ==> (r.value == DayMillis <==> bucket % 2 == 0)
  {
    if bucket in {WritesPer24hBackground, WritesPer24hForeground, ReadsPer24hBackground, ReadsPer24hForeground} then
      Success(DayMillis)
    else if bucket in {WritesPer15mBackground, ReadsPer15mForeground, WritesPer15mForeground, ReadsPer15mBackground} then
      Success(FifteenMinutesMillis)
    else
      Failure(IllegalArgument)
  }

  /** `getConfiguredApiCallMaxQuota`: 1000 and 2000 per 15 minutes and per day in
      the foreground, 300 and 600 in the background, alike for reads and writes. */
  function ConfiguredMaxQuota(bucket: int): (r: Result<real, RateLimitError>)
    ensures r.Success? <==> IsBucket(bucket)
    ensures r.Success? ==> r.value == (if IsForegroundBucket(bucket)
                                        then (if bucket % 2 == 1 then 1000.0 else 2000.0)
                                        else (if bucket % 2 == 1 then 300.0 else 600.0))
  {
    if bucket in MaxApiCallQuota then Success(MaxApiCallQuota[bucket]) else Failure(IllegalArgument)
  }

  function Min(a: real, b: real): real {
    if a <= b then a else b
  }

  /** What a bucket's window refills in `elapsed` milliseconds: its maximum spread
      evenly over the window. */
  function Refill(bucket: int, elapsed: int): real
    requires IsBucket(bucket)
  {
    elapsed as real * (ConfiguredMaxQuota(bucket).value / WindowMillis(bucket).value as real)
  }

  /** `getAvailableQuota`: the remaining quota plus what the window refills in the
      time since the last update, capped at the bucket's maximum. */
  function AvailableQuota(bucket: int, quota: Quota, now: int): (r: Result<real, RateLimitError>)
    ensures r.Success? <==> IsBucket(bucket)
    ensures r.Success? ==> r.value <= ConfiguredMaxQuota(bucket).value
    ensures r.Success? && quota.lastUpdatedMillis <= now ==> r.value >= Min(quota.remaining, ConfiguredMaxQuota(bucket).value)
    ensures r.Success? && quota.remaining >= 0.0 && now - quota.lastUpdatedMillis >= WindowMillis(bucket).value
            ==> r.value == ConfiguredMaxQuota(bucket).value
    ensures r.Success? ==>
              r.value == Min(quota.remaining + Refill(bucket, now - quota.lastUpdatedMillis),
                             ConfiguredMaxQuota(bucket).value)
  {
    if !IsBucket(bucket) then Failure(IllegalArgument)
    else
    var window := WindowMillis(bucket).value;
    var max := ConfiguredMaxQuota(bucket).value;
    var accumulated := Refill(bucket, now - quota.lastUpdatedMillis);
    RefillBounds(now - quota.lastUpdatedMillis, max, window);
    Success(Min(quota.remaining + accumulated, max))
  }

  lemma RefillBounds(elapsed: int, max: real, window: int)
    requires max > 0.0 && window > 0
    ensures elapsed >= 0 ==> elapsed as real * (max / window as real) >= 0.0
    ensures elapsed >= window ==> elapsed as real * (max / window as real) >= max
  {
    var rate := max / window as real;
    assert rate > 0.0;
    if elapsed >= window {
      assert elapsed as real * rate >= window as real * rate;
      assert window as real * rate == max;
    }
  }

  /** Refill is additive: what accrues over two consecutive stretches is what
      accrues over their sum. */
  lemma RefillAdds(bucket: int, a: int, b: int)
    requires IsBucket(bucket)
    ensures Refill(bucket, a + b) == Refill(bucket, a) + Refill(bucket, b)
  {
    var rate := ConfiguredMaxQuota(bucket).value / WindowMillis(bucket).value as real;
    assert (a + b) as real * rate == a as real * rate + b as real * rate;
  }

  /** The available quota never decreases as time passes. */
  lemma AvailableQuotaMonotone(bucket: int, quota: Quota, now: int, later: int)
    requires IsBucket(bucket) && now <= later
    ensures AvailableQuota(bucket, quota, now).value <= AvailableQuota(bucket, quota, later).value
  {
    RefillAdds(bucket, now - quota.lastUpdatedMillis, later - now);
    RefillBounds(later - now, ConfiguredMaxQuota(bucket).value, WindowMillis(bucket).value);
  }

  /** Below the cap the quota refills continuously: waiting `later - now` more
      milliseconds adds exactly the refill for that stretch, and the result stays
      strictly below the maximum. */
  lemma AvailableQuotaRefillsLinearly(bucket: int, quota: Quota, now: int, later: int)
    requires IsBucket(bucket) && now <= later
    requires quota.remaining + Refill(bucket, later - quota.lastUpdatedMillis) < ConfiguredMaxQuota(bucket).value
    ensures AvailableQuota(bucket, quota, later).value
            == AvailableQuota(bucket, quota, now).value + Refill(bucket, later - now)
    ensures AvailableQuota(bucket, quota, later).value < ConfiguredMaxQuota(bucket).value
  {
    RefillAdds(bucket, now - quota.lastUpdatedMillis, later - now);
    RefillBounds(later - now, ConfiguredMaxQuota(bucket).value, WindowMillis(bucket).value);
  }

  /** `getInitialQuota`: a full bucket, last updated now. */
  function InitialQuota(bucket: int, now: int): (r: Result<Quota, RateLimitError>)
    ensures r.Success? <==> IsBucket(bucket)
    ensures r.Success? ==> r.value.lastUpdatedMillis == now && r.value.remaining == ConfiguredMaxQuota(bucket).value
  {
    var max :- ConfiguredMaxQuota(bucket);
    Success(Quota(now, max))
  }

  /** `getQuota` on a caller's quota map: the stored quota, or a full one. */
  function QuotaOf(quotas: map<int, Quota>, bucket: int, now: int): (r: Result<Quota, RateLimitError>)
    ensures bucket in quotas ==> r == Success(quotas[bucket])
    ensures bucket !in quotas ==> r == InitialQuota(bucket, now)
  {
    if bucket in quotas then Success(quotas[bucket]) else InitialQuota(bucket, now)
  }

  /** The caller's quota map as `getQuota` leaves it: created empty on first use. */
  function QuotasOf(state: State, uid: Uid): map<int, Quota> {
    if uid in state then state[uid] else map[]
  }

  /** The available quota of each bucket, in order (the stream collected into a map). */
  function Availables(quotas: map<int, Quota>, buckets: seq<int>, now: int): (r: Result<seq<real>, RateLimitError>)
    ensures r.Success? <==> forall i :: 0 <= i < |buckets| ==> IsBucket(buckets[i])
    ensures r.Success? ==> |r.value| == |buckets|
    ensures r.Success? ==> forall i :: 0 <= i < |buckets| ==>
              r.value[i] == AvailableQuota(buckets[i], QuotaOf(quotas, buckets[i], now).value, now).value
  {
    if buckets == [] then Success([])
    else
      var quota :- QuotaOf(quotas, buckets[0], now);
      var first :- AvailableQuota(buckets[0], quota, now);
      var rest :- Availables(quotas, buckets[1..], now);
      Success([first] + rest)
  }

  /** The position of the first available quota below the cost, if any
      (`hasSufficientQuota` in list order). */
  function FirstShortfall(available: seq<real>, cost: int): (r: Option<nat>)
    ensures r.None? <==> forall i :: 0 <= i < |available| ==> available[i] >= cost as real
    ensures r.Some? ==> r.value < |available| && available[r.value] < cost as real
    ensures r.Some? ==> forall i :: 0 <= i < r.value ==> available[i] >= cost as real
  {
    if available == [] then None
    else if available[0] < cost as real then Some(0)
    else match FirstShortfall(available[1..], cost)
      case None => None
      case Some(i) => Some(i + 1)
  }

  predicate Distinct(s: seq<int>) {
    forall i, j :: 0 <= i < j < |s| ==> s[i] != s[j]
  }

  /** `spendResources` for every bucket in turn: each bucket's quota becomes what
      was available minus the cost, stamped now; other buckets keep theirs. */
  function SpendAll(quotas: map<int, Quota>, buckets: seq<int>, available: seq<real>, cost: int, now: int)
    : (r: map<int, Quota>)
    requires |available| == |buckets| && Distinct(buckets)
    ensures r.Keys == quotas.Keys + (set b | b in buckets)
    ensures forall b :: b in quotas && b !in buckets ==> r[b] == quotas[b]
    ensures forall i :: 0 <= i < |buckets| ==> r[buckets[i]] == Quota(now, available[i] - cost as real)
  {
    quotas + map i | 0 <= i < |buckets| :: buckets[i] := Quota(now, available[i] - cost as real)
  }

  /** `spendResourcesIfAvailable`: evaluate every bucket, check every bucket, then
      spend from every bucket. Returns the new state and whether the call passed.
      Looking the caller up creates its (empty) quota map even when the call then
      fails; collecting two equal buckets into a map throws. */
  function SpendResourcesIfAvailable(state: State, uid: Uid, buckets: seq<int>, cost: int, now: int)
    : (r: (State, Result<(), RateLimitError>))
  {
    var touched := if buckets == [] then state else state[uid := QuotasOf(state, uid)];
    var quotas := QuotasOf(touched, uid);
    if !Distinct(buckets) then (touched, Failure(IllegalArgument))
    else match Availables(quotas, buckets, now)
      case Failure(e) => (touched, Failure(e))
      case Success(available) =>
        match FirstShortfall(available, cost)
        case Some(i) => (touched, Failure(ApiCallQuotaExceeded(available[i], cost)))
        case None => (touched[uid := SpendAll(quotas, buckets, available, cost, now)], Success(()))
  }

  /** `getAffectedQuotaBuckets`: the 15-minute and the 24-hour bucket of the
      category and the foreground state, in that order. */
  function AffectedQuotaBuckets(category: int, isInForeground: bool): (r: Result<seq<int>, RateLimitError>)
    ensures r.Success? <==> category == QuotaCategoryRead || category == QuotaCategoryWrite
    ensures r.Success? ==> |r.value| == 2 && Distinct(r.value)
    ensures r.Success? ==> WindowMillis(r.value[0]) == Success(FifteenMinutesMillis)
                           && WindowMillis(r.value[1]) == Success(DayMillis)
    ensures r.Success? ==> forall i :: 0 <= i < 2 ==>
              IsBucket(r.value[i])
              && (IsReadBucket(r.value[i]) <==> category == QuotaCategoryRead)
              && (IsForegroundBucket(r.value[i]) <==> isInForeground)
  {
    if category == QuotaCategoryRead then
      if isInForeground then Success([ReadsPer15mForeground, ReadsPer24hForeground])
      else Success([ReadsPer15mBackground, ReadsPer24hBackground])
    else if category == QuotaCategoryWrite then
      if isInForeground then Success([WritesPer15mForeground, WritesPer24hForeground])
      else Success([WritesPer15mBackground, WritesPer24hBackground])
    else
      Failure(IllegalArgument)
  }

  /** `tryAcquireApiCallQuota`: an undefined category is an error, an unmetered
      one is let through without touching any quota, and reads and writes spend
      the default cost from their two buckets. */
  function TryAcquireApiCallQuota(state: State, uid: Uid, category: int, isInForeground: bool, now: int)
    : (r: (State, Result<(), RateLimitError>))
    ensures category == QuotaCategoryUndefined ==> r == (state, Failure(IllegalArgument))
    ensures category == QuotaCategoryUnmetered ==> r == (state, Success(()))
    ensures category !in {QuotaCategoryUndefined, QuotaCategoryUnmetered, QuotaCategoryRead, QuotaCategoryWrite}
            ==> r == (state, Failure(IllegalArgument))
  {
    if category == QuotaCategoryUndefined then (state, Failure(IllegalArgument))
    else if category == QuotaCategoryUnmetered then (state, Success(()))
    else match AffectedQuotaBuckets(category, isInForeground)
      case Failure(e) => (state, Failure(e))
      case Success(buckets) => SpendResourcesIfAvailable(state, uid, buckets, DefaultApiCallCost, now)
  }

  /** `checkMaxChunkMemoryUsage`: fails only above the 5,000,000-byte limit. */
  function CheckMaxChunkMemoryUsage(memoryCost: Int64): (r: Result<(), RateLimitError>)
    ensures r.Success? <==> memoryCost <= 5_000_000
    ensures r.Failure? ==> r.error == MemoryLimitExceeded(5_000_000, memoryCost)
  {
    if memoryCost > ChunkSizeLimitInBytes then Failure(MemoryLimitExceeded(ChunkSizeLimitInBytes, memoryCost))
    else Success(())
  }

  /** `checkMaxRecordMemoryUsage`: fails only above the 1,000,000-byte limit. */
  function CheckMaxRecordMemoryUsage(memoryCost: Int64): (r: Result<(), RateLimitError>)
    ensures r.Success? <==> memoryCost <= 1_000_000
    ensures r.Failure? ==> r.error == MemoryLimitExceeded(1_000_000, memoryCost)
  {
    if memoryCost > RecordSizeLimitInBytes then Failure(MemoryLimitExceeded(RecordSizeLimitInBytes, memoryCost))
    else Success(())
  }

  /** `clearCache`. */
  function ClearCache(state: State): (r: State)
    ensures forall uid :: uid !in r
  {
    map[]
  }

  // ---- Properties ----

  /** The available quota a call sees in one bucket. */
  function SeenAvailable(state: State, uid: Uid, bucket: int, now: int): real
    requires IsBucket(bucket)
  {
    AvailableQuota(bucket, QuotaOf(QuotasOf(state, uid), bucket, now).value, now).value
  }

  /** The available quotas a call sees in each of its buckets, in order. */
  function SeenAvailables(state: State, uid: Uid, buckets: seq<int>, now: int): (r: seq<real>)
    requires forall i :: 0 <= i < |buckets| ==> IsBucket(buckets[i])
    ensures |r| == |buckets|
    ensures forall i :: 0 <= i < |buckets| ==> r[i] == SeenAvailable(state, uid, buckets[i], now)
  {
    seq(|buckets|, i requires 0 <= i < |buckets| => SeenAvailable(state, uid, buckets[i], now))
  }

  /** A bucket the caller has never spent from is full. */
  lemma FirstUseFullQuota(state: State, uid: Uid, bucket: int, now: int)
    requires IsBucket(bucket)
    requires uid !in state || bucket !in state[uid]
    ensures SeenAvailable(state, uid, bucket, now) == ConfiguredMaxQuota(bucket).value
  {
  }

  /** What a spend of `cost` from `buckets`, which had `available` quota, leaves
      behind: other callers untouched, the caller's map present, and on success the
      spent buckets stamped now and reduced by the cost, on failure no stored quota
      changed. */
  ghost predicate SpendEffect(state: State, uid: Uid, buckets: seq<int>, available: seq<real>, cost: int,
                              now: int, state': State, passed: bool)
    requires |available| == |buckets|
  {
    && (forall u :: u in state && u != uid ==> u in state' && state'[u] == state[u])
    && state'.Keys == state.Keys + {uid}
    && (!passed ==> state'[uid] == QuotasOf(state, uid))
    && (passed ==>
          && state'[uid].Keys == QuotasOf(state, uid).Keys + (set b | b in buckets)
          && (forall i :: 0 <= i < |buckets| ==>
                buckets[i] in state'[uid] && state'[uid][buckets[i]] == Quota(now, available[i] - cost as real))
          && (forall b :: b in QuotasOf(state, uid) && b !in buckets ==>
                b in state'[uid] && state'[uid][b] == QuotasOf(state, uid)[b]))
  }

  /** The availability `spendResourcesIfAvailable` computes for each bucket is the
      one the caller sees. */
  lemma AvailablesSeen(state: State, uid: Uid, buckets: seq<int>, now: int)
    requires forall i :: 0 <= i < |buckets| ==> IsBucket(buckets[i])
    ensures Availables(QuotasOf(state, uid), buckets, now) == Success(SeenAvailables(state, uid, buckets, now))
  {
    var seen := Availables(QuotasOf(state, uid), buckets, now).value;
    assert seen == SeenAvailables(state, uid, buckets, now);
  }

  lemma FailEffect(state: State, uid: Uid, buckets: seq<int>, available: seq<real>, cost: int, now: int)
    requires |available| == |buckets|
    ensures SpendEffect(state, uid, buckets, available, cost, now, state[uid := QuotasOf(state, uid)], false)
  {
  }

  lemma PassEffect(state: State, uid: Uid, buckets: seq<int>, available: seq<real>, cost: int, now: int)
    requires |available| == |buckets| && Distinct(buckets)
    ensures SpendEffect(state, uid, buckets, available, cost, now,
                        state[uid := SpendAll(QuotasOf(state, uid), buckets, available, cost, now)], true)
  {
    var quotas := QuotasOf(state, uid);
    var spent := SpendAll(quotas, buckets, available, cost, now);
    var state' := state[uid := spent];
    assert state'[uid] == spent;
    forall i | 0 <= i < |buckets|
      ensures buckets[i] in spent && spent[buckets[i]] == Quota(now, available[i] - cost as real)
    {
      assert buckets[i] in (set b | b in buckets);
    }
  }

  lemma SpendShortOutcome(state: State, uid: Uid, buckets: seq<int>, available: seq<real>, cost: int, now: int)
    requires |buckets| > 0 && Distinct(buckets)
    requires Availables(QuotasOf(state, uid), buckets, now) == Success(available)
    requires FirstShortfall(available, cost).Some?
    ensures SpendResourcesIfAvailable(state, uid, buckets, cost, now)
            == (state[uid := QuotasOf(state, uid)],
                Failure(ApiCallQuotaExceeded(available[FirstShortfall(available, cost).value], cost)))
  {
    assert QuotasOf(state[uid := QuotasOf(state, uid)], uid) == QuotasOf(state, uid);
  }

  lemma SpendPassOutcome(state: State, uid: Uid, buckets: seq<int>, available: seq<real>, cost: int, now: int)
    requires |buckets| > 0 && Distinct(buckets)
    requires Availables(QuotasOf(state, uid), buckets, now) == Success(available)
    requires FirstShortfall(available, cost).None?
    ensures SpendResourcesIfAvailable(state, uid, buckets, cost, now)
            == (state[uid := SpendAll(QuotasOf(state, uid), buckets, available, cost, now)], Success(()))
  {
    var quotas := QuotasOf(state, uid);
    var touched := state[uid := quotas];
    assert QuotasOf(touched, uid) == quotas;
    var spent := SpendAll(quotas, buckets, available, cost, now);
    assert touched[uid := spent] == state[uid := spent];
  }

  /** A spend from distinct, valid buckets passes exactly when every bucket holds
      at least the cost; every bucket is checked before any is written. */
  lemma SpendOutcome(state: State, uid: Uid, buckets: seq<int>, cost: int, now: int)
    requires |buckets| > 0 && Distinct(buckets)
    requires forall i :: 0 <= i < |buckets| ==> IsBucket(buckets[i])
    ensures Availables(QuotasOf(state, uid), buckets, now).Success?
    ensures var available := Availables(QuotasOf(state, uid), buckets, now).value;
            var (state', result) := SpendResourcesIfAvailable(state, uid, buckets, cost, now);
            && (result.Success? <==> forall i :: 0 <= i < |buckets| ==> available[i] >= cost as real)
            && SpendEffect(state, uid, buckets, available, cost, now, state', result.Success?)
  {
    var available := Availables(QuotasOf(state, uid), buckets, now).value;
    if FirstShortfall(available, cost).Some? {
      SpendShortOutcome(state, uid, buckets, available, cost, now);
      FailEffect(state, uid, buckets, available, cost, now);
    } else {
      SpendPassOutcome(state, uid, buckets, available, cost, now);
      PassEffect(state, uid, buckets, available, cost, now);
    }
  }

  /** A metered call passes exactly when both affected buckets hold at least the
      call's cost, with the effect `SpendEffect` describes. */
  lemma AcquireOutcome(state: State, uid: Uid, category: int, isInForeground: bool, now: int)
    requires category == QuotaCategoryRead || category == QuotaCategoryWrite
    ensures var buckets := AffectedQuotaBuckets(category, isInForeground).value;
            var available := SeenAvailables(state, uid, buckets, now);
            var (state', result) := TryAcquireApiCallQuota(state, uid, category, isInForeground, now);
            && (result.Success? <==> forall i :: 0 <= i < |buckets| ==> available[i] >= DefaultApiCallCost as real)
            && SpendEffect(state, uid, buckets, available, DefaultApiCallCost, now, state', result.Success?)
  {
    var buckets := AffectedQuotaBuckets(category, isInForeground).value;
    assert TryAcquireApiCallQuota(state, uid, category, isInForeground, now)
           == SpendResourcesIfAvailable(state, uid, buckets, DefaultApiCallCost, now);
    AvailablesSeen(state, uid, buckets, now);
    SpendOutcome(state, uid, buckets, DefaultApiCallCost, now);
  }

  /** A stored quota belongs to a bucket, lies between zero and the bucket's
      maximum, and was written no later than `now`. */
  predicate ValidQuota(bucket: int, quota: Quota, now: int) {
    && IsBucket(bucket)
    && 0.0 <= quota.remaining <= ConfiguredMaxQuota(bucket).value
    && quota.lastUpdatedMillis <= now
  }

  ghost predicate QuotaInvariant(state: State, now: int) {
    forall u: Uid, b: int :: u in state && b in state[u] ==> ValidQuota(b, state[u][b], now)
  }

  /** The available quota of a bucket whose stored quota respects the invariant is
      never negative. */
  lemma SeenAvailableNonNegative(state: State, uid: Uid, bucket: int, now: int)
    requires QuotaInvariant(state, now) && IsBucket(bucket)
    ensures 0.0 <= SeenAvailable(state, uid, bucket, now) <= ConfiguredMaxQuota(bucket).value
  {
    var quota := QuotaOf(QuotasOf(state, uid), bucket, now).value;
    if uid in state && bucket in state[uid] {
      assert ValidQuota(bucket, quota, now);
    }
  }

  /** A spend whose effect is `SpendEffect` keeps the invariant, provided what it
      saw was within bounds and it only passed when every bucket covered the cost. */
  lemma EffectPreservesInvariant(state: State, uid: Uid, buckets: seq<int>, available: seq<real>, cost: int,
                                 now: int, state': State, passed: bool)
    requires QuotaInvariant(state, now) && |available| == |buckets| && cost >= 0
    requires forall i :: 0 <= i < |buckets| ==>
               IsBucket(buckets[i]) && 0.0 <= available[i] <= ConfiguredMaxQuota(buckets[i]).value
    requires passed ==> forall i :: 0 <= i < |buckets| ==> available[i] >= cost as real
    requires SpendEffect(state, uid, buckets, available, cost, now, state', passed)
    ensures QuotaInvariant(state', now)
  {
    forall u: Uid, b: int | u in state' && b in state'[u]
      ensures ValidQuota(b, state'[u][b], now)
    {
      if u != uid {
        assert ValidQuota(b, state[u][b], now);
      } else if passed && b in buckets {
        var i :| 0 <= i < |buckets| && buckets[i] == b;
        assert state'[u][b] == Quota(now, available[i] - cost as real);
      } else {
        assert b in QuotasOf(state, uid) && state'[u][b] == QuotasOf(state, uid)[b];
        assert ValidQuota(b, state[u][b], now);
      }
    }
  }

  /** With a clock that does not run backwards, every call keeps every stored
      quota between zero and its bucket's maximum. */
  lemma AcquirePreservesInvariant(state: State, uid: Uid, category: int, isInForeground: bool, now: int, later: int)
    requires QuotaInvariant(state, now) && now <= later
    ensures QuotaInvariant(TryAcquireApiCallQuota(state, uid, category, isInForeground, later).0, later)
  {
    forall u: Uid, b: int | u in state && b in state[u]
      ensures ValidQuota(b, state[u][b], later)
    {
      assert ValidQuota(b, state[u][b], now);
    }
    assert QuotaInvariant(state, later);
    if category == QuotaCategoryRead || category == QuotaCategoryWrite {
      AcquireOutcome(state, uid, category, isInForeground, later);
      var buckets := AffectedQuotaBuckets(category, isInForeground).value;
      var available := SeenAvailables(state, uid, buckets, later);
      var (state', result) := TryAcquireApiCallQuota(state, uid, category, isInForeground, later);
      forall i | 0 <= i < |buckets|
        ensures 0.0 <= available[i] <= ConfiguredMaxQuota(buckets[i]).value
      {
        SeenAvailableNonNegative(state, uid, buckets[i], later);
      }
      EffectPreservesInvariant(state, uid, buckets, available, DefaultApiCallCost, later, state', result.Success?);
    }
  }

  /** After the cache is cleared, a caller's first metered call passes and leaves
      both affected buckets one below their maximum. */
  lemma AcquireAfterClearCache(state: State, uid: Uid, category: int, isInForeground: bool, now: int)
    requires category == QuotaCategoryRead || category == QuotaCategoryWrite
    ensures var buckets := AffectedQuotaBuckets(category, isInForeground).value;
            var (state', result) := TryAcquireApiCallQuota(ClearCache(state), uid, category, isInForeground, now);
            && result.Success?
            && forall i :: 0 <= i < |buckets| ==>
                 state'[uid][buckets[i]] == Quota(now, ConfiguredMaxQuota(buckets[i]).value - 1.0)
  {
    var buckets := AffectedQuotaBuckets(category, isInForeground).value;
    forall i | 0 <= i < |buckets|
      ensures SeenAvailable(ClearCache(state), uid, buckets[i], now) == ConfiguredMaxQuota(buckets[i]).value
    {
      FirstUseFullQuota(ClearCache(state), uid, buckets[i], now);
    }
    AcquireOutcome(ClearCache(state), uid, category, isInForeground, now);
  }
}
