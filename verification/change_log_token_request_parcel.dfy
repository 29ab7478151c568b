/** `ChangeLogTokenRequestParcel`: the parcelable form of a change-log token
    request, holding the requested record types as an int array and the data
    origin filters as a list of package names. */
module ChangeLogTokenRequestParcel {
  import opened Wrappers
  import opened JavaTypes
  import opened Parcel
  import opened RecordInternal

  /** A record class, identified by its name. */
  datatype RecordClass = RecordClass(name: string)

  /** The public request: record classes in the iteration order of its set, and
      the data origin filters in list order. */
  datatype ChangeLogTokenRequest = ChangeLogTokenRequest(
    recordTypes: seq<RecordClass>,
    dataOriginFilters: seq<DataOrigin>)

  datatype RequestParcel = RequestParcel(recordTypes: seq<Int32>, packageNamesToFilter: seq<JString>)

  /** The constructor from a request. `recordTypeOf` stands for
      `RecordMapper.getRecordType`, which is not part of this model. */
  function FromRequest(request: ChangeLogTokenRequest, recordTypeOf: RecordClass -> Int32)
    : (r: RequestParcel)
    ensures |r.recordTypes| == |request.recordTypes|
    ensures forall i :: 0 <= i < |r.recordTypes| ==> r.recordTypes[i] == recordTypeOf(request.recordTypes[i])
    ensures |r.packageNamesToFilter| == |request.dataOriginFilters|
    ensures forall i :: 0 <= i < |r.packageNamesToFilter| ==>
              r.packageNamesToFilter[i] == request.dataOriginFilters[i].packageName
  {
    RequestParcel(
      seq(|request.recordTypes|, i requires 0 <= i < |request.recordTypes| => recordTypeOf(request.recordTypes[i])),
      seq(|request.dataOriginFilters|, i requires 0 <= i < |request.dataOriginFilters| =>
            request.dataOriginFilters[i].packageName))
  }

  /** `writeToParcel`: the int array, then the string list. */
  function WriteToParcel(p: Parcel, r: RequestParcel): (p': Parcel)
    ensures |p'| == |p| + 2 && p'[..|p|] == p
    ensures p'[|p|] == IntArrayValue(r.recordTypes)
    ensures p'[|p| + 1] == StringListValue(r.packageNamesToFilter)
  {
    p + [IntArrayValue(r.recordTypes), StringListValue(r.packageNamesToFilter)]
  }

  /** The constructor from a parcel: reads the int array, then the string list. */
  function FromParcel(p: Parcel, pos: nat): (r: Result<Read<RequestParcel>, ParcelError>)
    ensures r.Success? <==> pos + 1 < |p| && p[pos].IntArrayValue? && p[pos + 1].StringListValue?
    ensures r.Success? ==>
      && r.value.next == pos + 2
      && p[pos] == IntArrayValue(r.value.value.recordTypes)
      && p[pos + 1] == StringListValue(r.value.value.packageNamesToFilter)
  {
    var recordTypes :- CreateIntArray(p, pos);
    var packageNames :- CreateStringArrayList(p, recordTypes.next);
    Success(Read(RequestParcel(recordTypes.value, packageNames.value), packageNames.next))
  }

  /** Writing a request parcel and reading it back from the same position gives
      the same record types and package names, whatever surrounds it. */
  lemma ParcelRoundTrip(before: Parcel, r: RequestParcel, after: Parcel)
    ensures FromParcel(WriteToParcel(before, r) + after, |before|) == Success(Read(r, |before| + 2))
  {
    var p := WriteToParcel(before, r) + after;
    assert p[|before|] == IntArrayValue(r.recordTypes);
    assert p[|before| + 1] == StringListValue(r.packageNamesToFilter);
  }

  /** `describeContents`: the parcel carries no file descriptors. */
  function DescribeContents(r: RequestParcel): (flags: int)
    ensures flags == 0
  {
    0
  }
}
