/** Android's `Parcel`, seen as the sequence of typed values written into it.
    Writers append a value; readers take the value under a cursor and advance it.
    A read past the end, or of a value written with another type, is an error. */
module Parcel {
  import opened Wrappers
  import opened JavaTypes

  datatype Value =
    | IntValue(i: Int32)
    | LongValue(l: Int64)
    | DoubleValue(d: real)
    | StringValue(s: JString)
    | IntArrayValue(ints: seq<Int32>)
    | StringListValue(strings: seq<JString>)

  type Parcel = seq<Value>

  datatype ParcelError = EndOfParcel(position: nat) | TypeMismatch(position: nat)

  /** A value read from a parcel and the cursor position after it. */
  datatype Read<+T> = Read(value: T, next: nat)

  function ReadValue(p: Parcel, pos: nat): (r: Result<Read<Value>, ParcelError>)
    ensures r.Success? <==> pos < |p|
    ensures r.Success? ==> r.value == Read(p[pos], pos + 1)
  {
    if pos < |p| then Success(Read(p[pos], pos + 1)) else Failure(EndOfParcel(pos))
  }

  function ReadInt(p: Parcel, pos: nat): (r: Result<Read<Int32>, ParcelError>)
    ensures r.Success? <==> pos < |p| && p[pos].IntValue?
    ensures r.Success? ==> p[pos] == IntValue(r.value.value) && r.value.next == pos + 1
  {
    var v :- ReadValue(p, pos);
    if v.value.IntValue? then Success(Read(v.value.i, v.next)) else Failure(TypeMismatch(pos))
  }

  function ReadLong(p: Parcel, pos: nat): (r: Result<Read<Int64>, ParcelError>)
    ensures r.Success? <==> pos < |p| && p[pos].LongValue?
    ensures r.Success? ==> p[pos] == LongValue(r.value.value) && r.value.next == pos + 1
  {
    var v :- ReadValue(p, pos);
    if v.value.LongValue? then Success(Read(v.value.l, v.next)) else Failure(TypeMismatch(pos))
  }

  function ReadDouble(p: Parcel, pos: nat): (r: Result<Read<real>, ParcelError>)
    ensures r.Success? <==> pos < |p| && p[pos].DoubleValue?
    ensures r.Success? ==> p[pos] == DoubleValue(r.value.value) && r.value.next == pos + 1
  {
    var v :- ReadValue(p, pos);
    if v.value.DoubleValue? then Success(Read(v.value.d, v.next)) else Failure(TypeMismatch(pos))
  }

  function ReadString(p: Parcel, pos: nat): (r: Result<Read<JString>, ParcelError>)
    ensures r.Success? <==> pos < |p| && p[pos].StringValue?
    ensures r.Success? ==> p[pos] == StringValue(r.value.value) && r.value.next == pos + 1
  {
    var v :- ReadValue(p, pos);
    if v.value.StringValue? then Success(Read(v.value.s, v.next)) else Failure(TypeMismatch(pos))
  }

  /** `createIntArray`. */
  function CreateIntArray(p: Parcel, pos: nat): (r: Result<Read<seq<Int32>>, ParcelError>)
    ensures r.Success? <==> pos < |p| && p[pos].IntArrayValue?
    ensures r.Success? ==> p[pos] == IntArrayValue(r.value.value) && r.value.next == pos + 1
  {
    var v :- ReadValue(p, pos);
    if v.value.IntArrayValue? then Success(Read(v.value.ints, v.next)) else Failure(TypeMismatch(pos))
  }

  /** `createStringArrayList`. */
  function CreateStringArrayList(p: Parcel, pos: nat): (r: Result<Read<seq<JString>>, ParcelError>)
    ensures r.Success? <==> pos < |p| && p[pos].StringListValue?
    ensures r.Success? ==> p[pos] == StringListValue(r.value.value) && r.value.next == pos + 1
  {
    var v :- ReadValue(p, pos);
    if v.value.StringListValue? then Success(Read(v.value.strings, v.next)) else Failure(TypeMismatch(pos))
  }

  /** Whatever was written before a value, and whatever is written after it, the
      value is read back from the position it was written at. */
  lemma ReadBack(before: Parcel, v: Value, after: Parcel)
    ensures ReadValue(before + [v] + after, |before|) == Success(Read(v, |before| + 1))
  {
  }
}
