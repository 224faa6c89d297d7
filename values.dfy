/** The values a record slot can hold after casting: None, Decimal, bool, datetime or str. */
module Values {

  /** A zone-naive datetime, as left by the cast after conversion to the target zone. */
  datatype DateTime = DateTime(year: int, month: int, day: int, hour: int, minute: int, second: int, micro: int)
  {
    predicate IsMidnight() { hour == 0 && minute == 0 && second == 0 && micro == 0 }
  }

  /** A Decimal is carried by its str() text, which is what every sink writes out. */
  datatype Value = Null | Dec(text: string) | Bool(b: bool) | Time(t: DateTime) | Str(s: string)

  /** A record buffer: one slot per destination column. */
  type Record = seq<Value>
}
