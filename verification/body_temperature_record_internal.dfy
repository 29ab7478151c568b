/** `BodyTemperatureRecordInternal`: an instant record whose payload is a
    measurement location and a temperature in degrees Celsius. The time and zone
    offset belong to `InstantRecordInternal`, which is not part of this model:
    they are carried as plain fields, read by `ToExternalRecord`, and their own
    parcel encoding is left out. */
module BodyTemperatureRecordInternal {
  import opened Wrappers
  import opened JavaTypes
  import opened Parcel
  import opened RecordInternal

  datatype BodyTemperature = BodyTemperature(
    base: RecordBase,
    time: Instant,
    zoneOffset: ZoneOffset,
    measurementLocation: Int32,
    temperature: real)

  /** The record keeps the body-temperature identifier it was constructed with. */
  predicate HasBodyTemperatureType(b: BodyTemperature) {
    b.base.recordType == BodyTemperatureType
  }

  /** A new record: the identifier comes from the class annotation, the payload
      fields start at Java's zero values. */
  function NewBodyTemperature(time: Instant, zoneOffset: ZoneOffset): (b: BodyTemperature)
    ensures HasBodyTemperatureType(b)
    ensures b.base == NewRecordBase(BodyTemperatureType)
    ensures b.measurementLocation == 0 && b.temperature == 0.0
  {
    BodyTemperature(NewRecordBase(BodyTemperatureType), time, zoneOffset, 0, 0.0)
  }

  function SetMeasurementLocation(b: BodyTemperature, measurementLocation: Int32): (b': BodyTemperature)
    ensures b'.measurementLocation == measurementLocation
    ensures b'.base == b.base && b'.time == b.time && b'.zoneOffset == b.zoneOffset
    ensures b'.temperature == b.temperature
  {
    b.(measurementLocation := measurementLocation)
  }

  function SetTemperature(b: BodyTemperature, temperature: real): (b': BodyTemperature)
    ensures b'.temperature == temperature
    ensures b'.base == b.base && b'.time == b.time && b'.zoneOffset == b.zoneOffset
    ensures b'.measurementLocation == b.measurementLocation
  {
    b.(temperature := temperature)
  }

  // ---- Parcel ----

  const PayloadLength: nat := 2

  /** `populateInstantRecordTo`: the location as an int, then the temperature as a double. */
  function WritePayload(p: Parcel, b: BodyTemperature): (p': Parcel)
    ensures |p'| == |p| + PayloadLength && p'[..|p|] == p
    ensures p'[|p|] == IntValue(b.measurementLocation) && p'[|p| + 1] == DoubleValue(b.temperature)
  {
    p + [IntValue(b.measurementLocation), DoubleValue(b.temperature)]
  }

  /** `populateInstantRecordFrom(Parcel)`: reads the two payload values in the order
      they were written. */
  function ReadPayload(b: BodyTemperature, p: Parcel, pos: nat): (r: Result<Read<BodyTemperature>, ParcelError>)
    ensures r.Success? <==> pos + 1 < |p| && p[pos].IntValue? && p[pos + 1].DoubleValue?
    ensures r.Success? ==>
      && r.value.next == pos + PayloadLength
      && p[pos] == IntValue(r.value.value.measurementLocation)
      && p[pos + 1] == DoubleValue(r.value.value.temperature)
      && r.value.value.base == b.base && r.value.value.time == b.time
      && r.value.value.zoneOffset == b.zoneOffset
  {
    var location :- ReadInt(p, pos);
    var temperature :- ReadDouble(p, location.next);
    Success(Read(b.(measurementLocation := location.value, temperature := temperature.value),
                 temperature.next))
  }

  /** `writeToParcel` for a body-temperature record: the common fields, then the
      payload. The time and zone offset that `InstantRecordInternal` writes are not
      part of this encoding. */
  function WriteToParcel(p: Parcel, b: BodyTemperature): (p': Parcel)
    ensures |p'| == |p| + HeaderLength + PayloadLength && p'[..|p|] == p
    ensures p'[|p|..|p| + HeaderLength] == HeaderValues(b.base)
    ensures p'[|p| + HeaderLength..] == [IntValue(b.measurementLocation), DoubleValue(b.temperature)]
  {
    WritePayload(WriteHeader(p, b.base), b)
  }

  /** `populateUsing(Parcel)` for a body-temperature record: the common fields, then
      the payload, read into `target`. */
  function PopulateUsingParcel(target: BodyTemperature, p: Parcel, pos: nat): (r: Result<Read<BodyTemperature>, ParcelError>)
    ensures r.Success? ==> r.value.value.base.recordType == target.base.recordType
  {
    var header :- ReadHeader(target.base, p, pos);
    ReadPayload(target.(base := header.value), p, header.next)
  }

  /** Writing a record and reading it back from the same position restores every
      parcelled field and the payload; the target keeps its identifier, device-info
      id, app-info id, row id, time and zone offset; the cursor ends after the record. */
  lemma ParcelRoundTrip(before: Parcel, b: BodyTemperature, after: Parcel, target: BodyTemperature)
    ensures var r := PopulateUsingParcel(target, WriteToParcel(before, b) + after, |before|);
            && r.Success?
            && r.value.next == |before| + HeaderLength + PayloadLength
            && AgreeOn(r.value.value.base, b.base, ParcelledFields)
            && AgreeOn(r.value.value.base, target.base, set f | f !in ParcelledFields)
            && r.value.value.measurementLocation == b.measurementLocation
            && r.value.value.temperature == b.temperature
            && r.value.value.time == target.time && r.value.value.zoneOffset == target.zoneOffset
  {
    var headerOnly := WriteHeader(before, b.base);
    var payload := [IntValue(b.measurementLocation), DoubleValue(b.temperature)];
    var p := WriteToParcel(before, b) + after;
    assert p == headerOnly + (payload + after);
    HeaderRoundTrip(before, b.base, payload + after, target.base);
    var header := ReadHeader(target.base, p, |before|).value;
    assert p[header.next] == IntValue(b.measurementLocation);
    assert p[header.next + 1] == DoubleValue(b.temperature);
  }

  // ---- The public record ----

  datatype Temperature = Temperature(inCelsius: real)

  /** `Temperature.fromCelsius`. */
  function FromCelsius(celsius: real): (t: Temperature)
    ensures t.inCelsius == celsius
  {
    Temperature(celsius)
  }

  datatype BodyTemperatureRecord = BodyTemperatureRecord(
    metadata: Metadata,
    time: Instant,
    measurementLocation: Int32,
    temperature: Temperature,
    zoneOffset: ZoneOffset)

  /** `toExternalRecord`. */
  function ToExternalRecord(b: BodyTemperature): (e: BodyTemperatureRecord)
    ensures e.metadata == BuildMetaData(b.base)
    ensures e.time == b.time && e.zoneOffset == b.zoneOffset
    ensures e.measurementLocation == b.measurementLocation
    ensures e.temperature.inCelsius == b.temperature
  {
    BodyTemperatureRecord(BuildMetaData(b.base), b.time, b.measurementLocation,
                          FromCelsius(b.temperature), b.zoneOffset)
  }

  /** `populateInstantRecordFrom(BodyTemperatureRecord)`: copies the location and
      the temperature in Celsius. */
  function PopulatePayloadFromRecord(b: BodyTemperature, e: BodyTemperatureRecord): (b': BodyTemperature)
    ensures b'.measurementLocation == e.measurementLocation
    ensures b'.temperature == e.temperature.inCelsius
    ensures b'.base == b.base && b'.time == b.time && b'.zoneOffset == b.zoneOffset
  {
    b.(measurementLocation := e.measurementLocation, temperature := e.temperature.inCelsius)
  }

  /** `populateUsing(Record)`: the common metadata, then the time and zone offset
      (`InstantRecordInternal.populateRecordFrom`), then the payload. */
  function PopulateUsingRecord(b: BodyTemperature, e: BodyTemperatureRecord): (r: Result<BodyTemperature, ConversionError>)
    ensures r.Success? <==> PopulateUsingInternal(b.base, e.metadata).Success?
    ensures r.Failure? ==> r.error == PopulateUsingInternal(b.base, e.metadata).error
    ensures r.Success? ==> r.value.base == PopulateUsingInternal(b.base, e.metadata).value
    ensures r.Success? ==> r.value.time == e.time && r.value.zoneOffset == e.zoneOffset
    ensures r.Success? ==> r.value.measurementLocation == e.measurementLocation
    ensures r.Success? ==> r.value.temperature == e.temperature.inCelsius
  {
    var base :- PopulateUsingInternal(b.base, e.metadata);
    Success(PopulatePayloadFromRecord(b.(base := base, time := e.time, zoneOffset := e.zoneOffset), e))
  }

  /** Converting a record to its public form and back restores the metadata
      fields, the time, the zone offset and the payload; the target's other fields
      are untouched. */
  lemma ExternalRoundTrip(b: BodyTemperature, target: BodyTemperature)
    ensures var r := PopulateUsingRecord(target, ToExternalRecord(b));
            && r.Success?
            && AgreeOn(r.value.base, b.base, MetadataFields)
            && AgreeOn(r.value.base, target.base, set f | f !in MetadataFields)
            && r.value.measurementLocation == b.measurementLocation
            && r.value.temperature == b.temperature
            && r.value.time == b.time && r.value.zoneOffset == b.zoneOffset
  {
    RecordToMetadataRoundTrip(b.base, target.base);
  }

  /** Populating from a public record and converting back gives the public record,
      with its last-modified time cut to milliseconds. */
  lemma RecordRoundTrip(e: BodyTemperatureRecord, target: BodyTemperature)
    requires PopulateUsingRecord(target, e).Success?
    ensures ToExternalRecord(PopulateUsingRecord(target, e).value)
            == e.(metadata := e.metadata.(lastModifiedTime := TruncatedToMillis(e.metadata.lastModifiedTime)))
  {
    MetadataToRecordRoundTrip(e.metadata, target.base);
  }
}
