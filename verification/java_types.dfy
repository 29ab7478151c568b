/** The fixed-width Java integer types, Java's integer division and narrowing
    conversions, and the java.time values the model needs. */
module JavaTypes {
  import opened Wrappers

  const IntMin: int := -0x8000_0000
  const IntMax: int := 0x7fff_ffff
  const LongMin: int := -0x8000_0000_0000_0000
  const LongMax: int := 0x7fff_ffff_ffff_ffff

  /** A Java `int`. */
  type Int32 = x: int | -0x8000_0000 <= x <= 0x7fff_ffff

  /** A Java `long`. */
  type Int64 = x: int | -0x8000_0000_0000_0000 <= x <= 0x7fff_ffff_ffff_ffff

  /** A Java `String` reference, which may be null. */
  type JString = Option<string>

  predicate InLongRange(x: int) {
    LongMin <= x <= LongMax
  }

  /** Java's narrowing of a wider integer to `int`: keep the low 32 bits, read them
      as two's complement. */
  function ToInt32(x: int): (r: Int32)
    ensures (x - r) % 0x1_0000_0000 == 0
    ensures IntMin <= x <= IntMax ==> r == x
  {
    var low := x % 0x1_0000_0000;
    if low <= IntMax then low else low - 0x1_0000_0000
  }

  /** Java's `long` arithmetic result: the low 64 bits as two's complement. */
  function ToInt64(x: int): (r: Int64)
    ensures (x - r) % 0x1_0000_0000_0000_0000 == 0
    ensures InLongRange(x) ==> r == x
  {
    var low := x % 0x1_0000_0000_0000_0000;
    if low <= LongMax then low else low - 0x1_0000_0000_0000_0000
  }

  function Abs(x: int): nat {
    if x < 0 then -x else x
  }

  /** Java's integer division, which truncates toward zero (Dafny's `/` is
      Euclidean): the remainder takes the sign of the dividend. */
  function JavaDiv(a: int, b: int): (q: int)
    requires b != 0
    ensures a >= 0 ==> 0 <= a - b * q < Abs(b)
    ensures a < 0 ==> -(Abs(b) as int) < a - b * q <= 0
  {
    if a >= 0 then
      (if b > 0 then a / b else -(a / -b))
    else
      (if b > 0 then -(-a / b) else -a / -b)
  }

  /** A point on the time line, as nanoseconds since the epoch. */
  datatype Instant = Instant(epochNanos: int)

  const NanosPerMilli: int := 1_000_000

  /** `Instant.ofEpochMilli`. */
  function InstantOfEpochMilli(millis: Int64): (t: Instant)
    ensures t.epochNanos / NanosPerMilli == millis
  {
    Instant(millis * NanosPerMilli)
  }

  /** `Instant.toEpochMilli`: the floor of the time in milliseconds; the call throws
      when that does not fit in a `long`. */
  function ToEpochMilli(t: Instant): (r: Option<Int64>)
    ensures r.Some? <==> InLongRange(t.epochNanos / NanosPerMilli)
    ensures r.Some? ==> r.value * NanosPerMilli <= t.epochNanos < (r.value + 1) * NanosPerMilli
  {
    var millis := t.epochNanos / NanosPerMilli;
    if InLongRange(millis) then Some(millis) else None
  }

  /** `ZoneOffset`, by its total offset in seconds. */
  datatype ZoneOffset = ZoneOffset(totalSeconds: int)
}
