/**
 * Values shared by the diary list screen and the entry form: the diary entry
 * itself and the loosely-typed property-list values that the key-value store
 * holds.
 */
module DiaryData {

  /** Swift's `Optional`. */
  datatype Option<+T> = None | Some(value: T)

  /** A point in time; `Date`'s floating-point interval is abstracted to an integer. */
  type Date = int

  /** One diary entry, as built by `Diary(title:contents:date:isStar:)`. */
  datatype Diary = Diary(title: string, contents: string, date: Date, isStar: bool)

  /**
   * A property-list value as the key-value store hands it back through `Any`:
   * one tag per dynamic type, so that a failed `as?` cast can be expressed.
   */
  datatype Value =
    | StringValue(s: string)
    | DateValue(t: Date)
    | BoolValue(b: bool)
    | NumberValue(n: int)
    | ArrayValue(items: seq<Value>)
    | DictValue(fields: map<string, Value>)

  /** A `[String: Any]` dictionary: a missing key is a missing field. */
  type Record = map<string, Value>
}
