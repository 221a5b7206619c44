/**
 * JSON values as the app stores them, and the daily message counter record
 * `{ date, count }` shared by the device cache, the user document and the server
 * (src/utils/storage.ts, src/utils/firestore.ts, functions/src/index.ts).
 * Serialisation is the identity: a stored value is the value itself.
 */
module Json {
  import opened Options

  /** A JSON value; numbers are integers here. */
  datatype Value =
    | Null
    | Bool(b: bool)
    | Num(n: int)
    | Str(s: string)
    | Arr(items: seq<Value>)
    | Obj(fields: map<string, Value>)

  /** Property access `v.name`: the field of an object that has it, otherwise nothing. */
  function Field(v: Value, name: string): (r: Option<Value>)
    ensures r.Some? <==> v.Obj? && name in v.fields
  {
    if v.Obj? && name in v.fields then Some(v.fields[name]) else None
  }

  /** A day's message count: the calendar day it belongs to and the messages sent on it. */
  datatype DailyCount = DailyCount(date: string, count: int)

  /** The stored form `{ date, count }`. */
  function EncodeDailyCount(d: DailyCount): Value {
    Obj(map["date" := Str(d.date), "count" := Num(d.count)])
  }

  /** The counter held by a stored value: an object with a string `date` and a numeric `count`. */
  function DecodeDailyCount(v: Value): Option<DailyCount> {
    match (Field(v, "date"), Field(v, "count"))
    case (Some(Str(date)), Some(Num(count))) => Some(DailyCount(date, count))
    case _ => None
  }

  /** Decoding an encoded counter gives it back. */
  lemma DecodeEncode(d: DailyCount)
    ensures DecodeDailyCount(EncodeDailyCount(d)) == Some(d)
  {
  }

  /**
   * The number of messages counted for `today` in a possibly absent stored counter:
   * its count when it is dated `today`, and 0 otherwise (a new day resets the count).
   */
  function CountForDay(stored: Option<Value>, today: string): (n: int)
    ensures n != 0 ==> stored.Some? && DecodeDailyCount(stored.value).Some? && DecodeDailyCount(stored.value).value == DailyCount(today, n)
  {
    match stored
    case Some(v) =>
      (match DecodeDailyCount(v)
       case Some(d) => if d.date == today then d.count else 0
       case None => 0)
    case None => 0
  }

  /** A counter written for `today` reads back as its count on that day, and as 0 on any other day. */
  lemma CountForDayOfEncoded(d: DailyCount, today: string)
    ensures CountForDay(Some(EncodeDailyCount(d)), today) == if d.date == today then d.count else 0
  {
    DecodeEncode(d);
  }
}
