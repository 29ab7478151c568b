/** The fields every health record carries (`RecordInternal`), their setters, the
    order in which they travel through a parcel, and the conversion to and from
    the public `Metadata`. The record-type-specific payload is left to the
    modules of the individual record types, which append it after these fields. */
module RecordInternal {
  import opened Wrappers
  import opened JavaTypes
  import opened Parcel

  /** The record types this model touches; the numeric identifiers live in
      `RecordTypeIdentifier`, which is not part of this model. */
  datatype RecordType =
    | BodyTemperatureType
    | ActiveCaloriesBurnedType
    | WheelchairPushesType
    | OtherRecordType(id: int)

  /** `Constants.DEFAULT_LONG` and `Constants.DEFAULT_INT`. */
  const DefaultLong: Int64 := -1
  const DefaultInt: Int32 := -1

  datatype RecordBase = RecordBase(
    recordType: RecordType,
    uuid: JString,
    packageName: JString,
    appName: JString,
    lastModifiedTime: Int64,
    clientRecordId: JString,
    clientRecordVersion: Int64,
    manufacturer: JString,
    model: JString,
    deviceType: Int32,
    deviceInfoId: Int64,
    appInfoId: Int64,
    rowId: Int32)

  /** A name for each field, so that "only this field changed" can be stated once. */
  datatype Field =
    | RecordTypeField | Uuid | PackageName | AppName | LastModifiedTime | ClientRecordId
    | ClientRecordVersion | Manufacturer | Model | DeviceType | DeviceInfoId | AppInfoId | RowId

  datatype FieldValue = TypeOf(t: RecordType) | Str(s: JString) | Long(l: Int64) | Int(i: Int32)

  function Get(r: RecordBase, f: Field): FieldValue {
    match f
    case RecordTypeField => TypeOf(r.recordType)
    case Uuid => Str(r.uuid)
    case PackageName => Str(r.packageName)
    case AppName => Str(r.appName)
    case LastModifiedTime => Long(r.lastModifiedTime)
    case ClientRecordId => Str(r.clientRecordId)
    case ClientRecordVersion => Long(r.clientRecordVersion)
    case Manufacturer => Str(r.manufacturer)
    case Model => Str(r.model)
    case DeviceType => Int(r.deviceType)
    case DeviceInfoId => Long(r.deviceInfoId)
    case AppInfoId => Long(r.appInfoId)
    case RowId => Int(r.rowId)
  }

  /** `a` and `b` agree on every field of `fields`. */
  predicate AgreeOn(a: RecordBase, b: RecordBase, fields: set<Field>) {
    forall f :: f in fields ==> Get(a, f) == Get(b, f)
  }

  /** `b` differs from `a` at most in field `f`. */
  predicate OnlyChanged(a: RecordBase, b: RecordBase, f: Field) {
    forall g :: g != f ==> Get(a, g) == Get(b, g)
  }

  /** Two records with the same value in every field are the same record. */
  lemma FieldsDetermineRecord(a: RecordBase, b: RecordBase)
    requires forall f :: Get(a, f) == Get(b, f)
    ensures a == b
  {
    assert Get(a, RecordTypeField) == Get(b, RecordTypeField);
    assert Get(a, Uuid) == Get(b, Uuid);
    assert Get(a, PackageName) == Get(b, PackageName);
    assert Get(a, AppName) == Get(b, AppName);
    assert Get(a, LastModifiedTime) == Get(b, LastModifiedTime);
    assert Get(a, ClientRecordId) == Get(b, ClientRecordId);
    assert Get(a, ClientRecordVersion) == Get(b, ClientRecordVersion);
    assert Get(a, Manufacturer) == Get(b, Manufacturer);
    assert Get(a, Model) == Get(b, Model);
    assert Get(a, DeviceType) == Get(b, DeviceType);
    assert Get(a, DeviceInfoId) == Get(b, DeviceInfoId);
    assert Get(a, AppInfoId) == Get(b, AppInfoId);
    assert Get(a, RowId) == Get(b, RowId);
  }

  /** A freshly constructed record of the given type: the identifier comes from the
      class annotation, reference fields are null, the device type is Java's zero,
      and the numeric fields take the defaults the class declares. */
  function NewRecordBase(recordType: RecordType): (r: RecordBase)
    ensures Get(r, RecordTypeField) == TypeOf(recordType)
    ensures forall f :: f in {Uuid, PackageName, AppName, ClientRecordId, Manufacturer, Model} ==> Get(r, f) == Str(None)
    ensures forall f :: f in {LastModifiedTime, ClientRecordVersion, DeviceInfoId, AppInfoId} ==> Get(r, f) == Long(DefaultLong)
    ensures Get(r, RowId) == Int(DefaultInt) && Get(r, DeviceType) == Int(0)
  {
    RecordBase(recordType, None, None, None, DefaultLong, None, DefaultLong, None, None, 0,
               DefaultLong, DefaultLong, DefaultInt)
  }

  // The setters. Each returns the record with one field replaced; the fluent
  // `return this` of the source becomes the returned value.

  function SetUuid(r: RecordBase, uuid: JString): (r': RecordBase)
    ensures Get(r', Uuid) == Str(uuid) && OnlyChanged(r, r', Uuid)
  {
    r.(uuid := uuid)
  }

  function SetPackageName(r: RecordBase, packageName: JString): (r': RecordBase)
    ensures Get(r', PackageName) == Str(packageName) && OnlyChanged(r, r', PackageName)
  {
    r.(packageName := packageName)
  }

  function SetRowId(r: RecordBase, rowId: Int32): (r': RecordBase)
    ensures Get(r', RowId) == Int(rowId) && OnlyChanged(r, r', RowId)
  {
    r.(rowId := rowId)
  }

  function SetAppName(r: RecordBase, appName: JString): (r': RecordBase)
    ensures Get(r', AppName) == Str(appName) && OnlyChanged(r, r', AppName)
  {
    r.(appName := appName)
  }

  function SetLastModifiedTime(r: RecordBase, lastModifiedTime: Int64): (r': RecordBase)
    ensures Get(r', LastModifiedTime) == Long(lastModifiedTime) && OnlyChanged(r, r', LastModifiedTime)
  {
    r.(lastModifiedTime := lastModifiedTime)
  }

  function SetClientRecordId(r: RecordBase, clientRecordId: JString): (r': RecordBase)
    ensures Get(r', ClientRecordId) == Str(clientRecordId) && OnlyChanged(r, r', ClientRecordId)
  {
    r.(clientRecordId := clientRecordId)
  }

  function SetClientRecordVersion(r: RecordBase, clientRecordVersion: Int64): (r': RecordBase)
    ensures Get(r', ClientRecordVersion) == Long(clientRecordVersion) && OnlyChanged(r, r', ClientRecordVersion)
  {
    r.(clientRecordVersion := clientRecordVersion)
  }

  function SetManufacturer(r: RecordBase, manufacturer: JString): (r': RecordBase)
    ensures Get(r', Manufacturer) == Str(manufacturer) && OnlyChanged(r, r', Manufacturer)
  {
    r.(manufacturer := manufacturer)
  }

  function SetModel(r: RecordBase, model: JString): (r': RecordBase)
    ensures Get(r', Model) == Str(model) && OnlyChanged(r, r', Model)
  {
    r.(model := model)
  }

  function SetDeviceType(r: RecordBase, deviceType: Int32): (r': RecordBase)
    ensures Get(r', DeviceType) == Int(deviceType) && OnlyChanged(r, r', DeviceType)
  {
    r.(deviceType := deviceType)
  }

  function SetDeviceInfoId(r: RecordBase, deviceInfoId: Int64): (r': RecordBase)
    ensures Get(r', DeviceInfoId) == Long(deviceInfoId) && OnlyChanged(r, r', DeviceInfoId)
  {
    r.(deviceInfoId := deviceInfoId)
  }

  function SetAppInfoId(r: RecordBase, appInfoId: Int64): (r': RecordBase)
    ensures Get(r', AppInfoId) == Long(appInfoId) && OnlyChanged(r, r', AppInfoId)
  {
    r.(appInfoId := appInfoId)
  }

  /** The fields `writeToParcel` writes, and `populateUsing` reads back. */
  const ParcelledFields: set<Field> :=
    {Uuid, PackageName, AppName, LastModifiedTime, ClientRecordId, ClientRecordVersion,
     Manufacturer, Model, DeviceType}

  /** The number of parcel values the common fields occupy. */
  const HeaderLength: nat := 9

  /** The values `writeToParcel` writes before the record-type payload, in order. */
  function HeaderValues(r: RecordBase): seq<Value> {
    [StringValue(r.uuid), StringValue(r.packageName), StringValue(r.appName),
     LongValue(r.lastModifiedTime), StringValue(r.clientRecordId), LongValue(r.clientRecordVersion),
     StringValue(r.manufacturer), StringValue(r.model), IntValue(r.deviceType)]
  }

  /** The common part of `writeToParcel`: appends the header values to the parcel. */
  function WriteHeader(p: Parcel, r: RecordBase): (p': Parcel)
    ensures |p'| == |p| + HeaderLength && p'[..|p|] == p
    ensures p'[|p|..] == HeaderValues(r)
  {
    p + HeaderValues(r)
  }

  /** The common part of `populateUsing(Parcel)`: reads the header fields into
      `target` in the order they were written, leaving the cursor on the payload. */
  function ReadHeader(target: RecordBase, p: Parcel, pos: nat): (r: Result<Read<RecordBase>, ParcelError>)
    ensures r.Success? ==> r.value.next == pos + HeaderLength
    ensures r.Success? ==> AgreeOn(r.value.value, target, set f | f !in ParcelledFields)
  {
    var uuid :- ReadString(p, pos);
    var packageName :- ReadString(p, uuid.next);
    var appName :- ReadString(p, packageName.next);
    var lastModifiedTime :- ReadLong(p, appName.next);
    var clientRecordId :- ReadString(p, lastModifiedTime.next);
    var clientRecordVersion :- ReadLong(p, clientRecordId.next);
    var manufacturer :- ReadString(p, clientRecordVersion.next);
    var model :- ReadString(p, manufacturer.next);
    var deviceType :- ReadInt(p, model.next);
    Success(Read(target.(uuid := uuid.value, packageName := packageName.value,
                         appName := appName.value, lastModifiedTime := lastModifiedTime.value,
                         clientRecordId := clientRecordId.value,
                         clientRecordVersion := clientRecordVersion.value,
                         manufacturer := manufacturer.value, model := model.value,
                         deviceType := deviceType.value),
                 deviceType.next))
  }

  /** Reading the header back from where it was written restores every parcelled
      field, keeps the target's identifier, device-info id, app-info id and row id,
      and leaves the cursor just past the header, whatever surrounds it. */
  lemma HeaderRoundTrip(before: Parcel, r: RecordBase, after: Parcel, target: RecordBase)
    ensures var p := WriteHeader(before, r) + after;
            ReadHeader(target, p, |before|).Success?
            && ReadHeader(target, p, |before|).value.next == |before| + HeaderLength
            && AgreeOn(ReadHeader(target, p, |before|).value.value, r, ParcelledFields)
            && AgreeOn(ReadHeader(target, p, |before|).value.value, target, set f | f !in ParcelledFields)
  {
    var p := WriteHeader(before, r) + after;
    var k := |before|;
    assert p[k..k + HeaderLength] == HeaderValues(r);
    var v := ReadHeader(target, p, k).value.value;
    assert v == target.(uuid := r.uuid, packageName := r.packageName, appName := r.appName,
                        lastModifiedTime := r.lastModifiedTime, clientRecordId := r.clientRecordId,
                        clientRecordVersion := r.clientRecordVersion, manufacturer := r.manufacturer,
                        model := r.model, deviceType := r.deviceType);
  }

  // ---- Conversion to and from the public Metadata ----

  datatype DataOrigin = DataOrigin(packageName: JString)
  datatype Device = Device(manufacturer: JString, model: JString, deviceType: Int32)
  datatype Metadata = Metadata(
    id: JString,
    dataOrigin: DataOrigin,
    lastModifiedTime: Instant,
    clientRecordId: JString,
    clientRecordVersion: Int64,
    device: Device)

  /** The fields `populateUsingInternal` copies from metadata and `buildMetaData`
      copies back. */
  const MetadataFields: set<Field> :=
    {Uuid, PackageName, LastModifiedTime, ClientRecordId, ClientRecordVersion,
     Manufacturer, Model, DeviceType}

  /** `toEpochMilli` threw. `partial` is the record as the exception leaves it:
      the uuid and package name, assigned before the conversion, are already set. */
  datatype ConversionError = EpochMillisOverflow(partial: RecordBase)

  /** `populateUsingInternal`, common part: copies the metadata into the record.
      The last-modified time is stored in milliseconds; `toEpochMilli` throws when
      that does not fit in a `long`. */
  function PopulateUsingInternal(r: RecordBase, m: Metadata): (res: Result<RecordBase, ConversionError>)
    ensures res.Success? <==> ToEpochMilli(m.lastModifiedTime).Some?
    ensures res.Success? ==>
      && Get(res.value, Uuid) == Str(m.id)
      && Get(res.value, PackageName) == Str(m.dataOrigin.packageName)
      && res.value.lastModifiedTime * NanosPerMilli <= m.lastModifiedTime.epochNanos
           < (res.value.lastModifiedTime + 1) * NanosPerMilli
      && Get(res.value, ClientRecordId) == Str(m.clientRecordId)
      && Get(res.value, ClientRecordVersion) == Long(m.clientRecordVersion)
      && Get(res.value, Manufacturer) == Str(m.device.manufacturer)
      && Get(res.value, Model) == Str(m.device.model)
      && Get(res.value, DeviceType) == Int(m.device.deviceType)
      && AgreeOn(res.value, r, set f | f !in MetadataFields)
    ensures res.Failure? ==>
      && Get(res.error.partial, Uuid) == Str(m.id)
      && Get(res.error.partial, PackageName) == Str(m.dataOrigin.packageName)
      && forall g :: g != Uuid && g != PackageName ==> Get(res.error.partial, g) == Get(r, g)
  {
    match ToEpochMilli(m.lastModifiedTime)
    case None => Failure(EpochMillisOverflow(r.(uuid := m.id, packageName := m.dataOrigin.packageName)))
    case Some(millis) =>
      Success(r.(uuid := m.id, packageName := m.dataOrigin.packageName, lastModifiedTime := millis,
                 clientRecordId := m.clientRecordId, clientRecordVersion := m.clientRecordVersion,
                 manufacturer := m.device.manufacturer, model := m.device.model,
                 deviceType := m.device.deviceType))
  }

  /** `buildMetaData`. */
  function BuildMetaData(r: RecordBase): (m: Metadata)
    ensures Str(m.id) == Get(r, Uuid) && Str(m.dataOrigin.packageName) == Get(r, PackageName)
    ensures ToEpochMilli(m.lastModifiedTime) == Some(r.lastModifiedTime)
    ensures Str(m.clientRecordId) == Get(r, ClientRecordId)
    ensures Long(m.clientRecordVersion) == Get(r, ClientRecordVersion)
    ensures Str(m.device.manufacturer) == Get(r, Manufacturer) && Str(m.device.model) == Get(r, Model)
    ensures Int(m.device.deviceType) == Get(r, DeviceType)
  {
    Metadata(r.uuid, DataOrigin(r.packageName), InstantOfEpochMilli(r.lastModifiedTime),
             r.clientRecordId, r.clientRecordVersion,
             Device(r.manufacturer, r.model, r.deviceType))
  }

  /** `t` with its sub-millisecond part dropped. */
  function TruncatedToMillis(t: Instant): Instant {
    Instant((t.epochNanos / NanosPerMilli) * NanosPerMilli)
  }

  /** Building metadata from a record and copying it into any target restores the
      record's metadata fields exactly and leaves the target's other fields alone. */
  lemma RecordToMetadataRoundTrip(r: RecordBase, target: RecordBase)
    ensures PopulateUsingInternal(target, BuildMetaData(r)).Success?
    ensures AgreeOn(PopulateUsingInternal(target, BuildMetaData(r)).value, r, MetadataFields)
    ensures AgreeOn(PopulateUsingInternal(target, BuildMetaData(r)).value, target, set f | f !in MetadataFields)
  {
    var v := PopulateUsingInternal(target, BuildMetaData(r)).value;
    assert v.lastModifiedTime == r.lastModifiedTime;
  }

  /** Copying metadata into a record and building metadata from it gives the
      original metadata back, with the last-modified time cut to milliseconds. */
  lemma MetadataToRecordRoundTrip(m: Metadata, target: RecordBase)
    requires PopulateUsingInternal(target, m).Success?
    ensures BuildMetaData(PopulateUsingInternal(target, m).value)
            == m.(lastModifiedTime := TruncatedToMillis(m.lastModifiedTime))
  {
    var v := PopulateUsingInternal(target, m).value;
    assert v.lastModifiedTime == m.lastModifiedTime.epochNanos / NanosPerMilli;
  }
}
