/**
 * The flat record encoding of diary entries used by `saveDiaryList` and the
 * filtering decode used by `loadDiaryList`.
 */
module DiaryCodec {
  import opened DiaryData

  const TitleKey: string := "title"
  const ContentsKey: string := "contents"
  const DateKey: string := "date"
  const IsStarKey: string := "isStar"

  /** The single key under which the whole list is stored. */
  const DiaryListKey: string := "diaryList"

  /** The dictionary literal built for one entry inside `map`. */
  function EncodeDiary(d: Diary): (r: Record)
    ensures r.Keys == {TitleKey, ContentsKey, DateKey, IsStarKey}
  {
    map[TitleKey := StringValue(d.title),
        ContentsKey := StringValue(d.contents),
        DateKey := DateValue(d.date),
        IsStarKey := BoolValue(d.isStar)]
  }

  /** `diaryList.map { [...] }`: one record per entry, in list order. */
  function Encode(list: seq<Diary>): (r: seq<Record>)
    ensures |r| == |list|
    ensures forall i :: 0 <= i < |list| ==> r[i] == EncodeDiary(list[i])
  {
    if list == [] then [] else [EncodeDiary(list[0])] + Encode(list[1..])
  }

  /** `$0[key] as? String` */
  function AsString(rec: Record, key: string): Option<string>
  {
    if key in rec && rec[key].StringValue? then Some(rec[key].s) else None
  }

  /** `$0[key] as? Date` */
  function AsDate(rec: Record, key: string): Option<Date>
  {
    if key in rec && rec[key].DateValue? then Some(rec[key].t) else None
  }

  /** `$0[key] as? Bool` */
  function AsBool(rec: Record, key: string): Option<bool>
  {
    if key in rec && rec[key].BoolValue? then Some(rec[key].b) else None
  }

  /** A record that the four guards of the `compactMap` closure all let through. */
  predicate WellFormed(rec: Record)
  {
    && TitleKey in rec && rec[TitleKey].StringValue?
    && ContentsKey in rec && rec[ContentsKey].StringValue?
    && DateKey in rec && rec[DateKey].DateValue?
    && IsStarKey in rec && rec[IsStarKey].BoolValue?
  }

  /** The `compactMap` closure: four guarded casts, then the entry. */
  function DecodeDiary(rec: Record): (r: Option<Diary>)
    ensures r.Some? <==> WellFormed(rec)
    ensures r.Some? ==>
      && r.value.title == rec[TitleKey].s
      && r.value.contents == rec[ContentsKey].s
      && r.value.date == rec[DateKey].t
      && r.value.isStar == rec[IsStarKey].b
  {
    match AsString(rec, TitleKey)
    case None => None
    case Some(title) =>
      match AsString(rec, ContentsKey)
      case None => None
      case Some(contents) =>
        match AsDate(rec, DateKey)
        case None => None
        case Some(date) =>
          match AsBool(rec, IsStarKey)
          case None => None
          case Some(isStar) => Some(Diary(title, contents, date, isStar))
  }

  /** `data.compactMap { ... }`: the entries of the records that decode, in order. */
  function Decode(rs: seq<Record>): (r: seq<Diary>)
    ensures |r| <= |rs|
  {
    if rs == [] then []
    else
      match DecodeDiary(rs[0])
      case None => Decode(rs[1..])
      case Some(d) => [d] + Decode(rs[1..])
  }

  /** Number of records that survive decoding. */
  function CountWellFormed(rs: seq<Record>): nat
  {
    if rs == [] then 0 else (if WellFormed(rs[0]) then 1 else 0) + CountWellFormed(rs[1..])
  }

  /** What `userDefaults.set(_, forKey:)` stores for a `[[String: Any]]`. */
  function ToProperty(rs: seq<Record>): Value
  {
    ArrayValue(seq(|rs|, i requires 0 <= i < |rs| => DictValue(rs[i])))
  }

  /** `as? [[String: Any]]`: succeeds exactly on an array all of whose items are dictionaries. */
  function AsRecordList(v: Value): (r: Option<seq<Record>>)
    ensures r.Some? <==> v.ArrayValue? && forall i :: 0 <= i < |v.items| ==> v.items[i].DictValue?
  {
    if v.ArrayValue? && forall i :: 0 <= i < |v.items| ==> v.items[i].DictValue? then
      Some(seq(|v.items|, i requires 0 <= i < |v.items| => v.items[i].fields))
    else
      None
  }

  /** The guard at the top of `loadDiaryList`: the slot is present and holds a list of dictionaries. */
  function ReadSlot(defaults: map<string, Value>): (r: Option<seq<Record>>)
    ensures r.Some? ==> DiaryListKey in defaults
  {
    if DiaryListKey in defaults then AsRecordList(defaults[DiaryListKey]) else None
  }

  /** The store after `saveDiaryList` with `list` in memory: only the `"diaryList"` slot is replaced. */
  function Saved(defaults: map<string, Value>, list: seq<Diary>): (r: map<string, Value>)
    ensures r.Keys == defaults.Keys + {DiaryListKey}
    ensures forall k :: k in defaults && k != DiaryListKey ==> r[k] == defaults[k]
  {
    defaults[DiaryListKey := ToProperty(Encode(list))]
  }

  // ---------------------------------------------------------------------------
  // Properties of the encoding and the decoding

  /** Decoding the record saved for an entry gives back that entry, field for field. */
  lemma DecodeEncodeDiary(d: Diary)
    ensures DecodeDiary(EncodeDiary(d)) == Some(d)
  {
  }

  /** Decoding the saved records gives back the list exactly (same entries, same order). */
  lemma {:induction false} DecodeEncode(list: seq<Diary>)
    ensures Decode(Encode(list)) == list
  {
    if list != [] {
      DecodeEncodeDiary(list[0]);
      assert Encode(list)[1..] == Encode(list[1..]);
      DecodeEncode(list[1..]);
    }
  }

  /** A bad record does not abort the rest: decoding works record by record. */
  lemma {:induction false} DecodeAppend(a: seq<Record>, b: seq<Record>)
    ensures Decode(a + b) == Decode(a) + Decode(b)
  {
    if a == [] {
      assert a + b == b;
    } else {
      assert (a + b)[0] == a[0];
      assert (a + b)[1..] == a[1..] + b;
      DecodeAppend(a[1..], b);
    }
  }

  /**
   * A record among others is kept, as the entry holding its field values,
   * exactly when it is well formed, and is otherwise dropped; the records
   * around it decode as they would alone.
   */
  lemma DecodeAround(a: seq<Record>, rec: Record, b: seq<Record>)
    ensures WellFormed(rec) ==>
      Decode(a + [rec] + b) ==
        Decode(a) + [Diary(rec[TitleKey].s, rec[ContentsKey].s, rec[DateKey].t, rec[IsStarKey].b)] + Decode(b)
    ensures !WellFormed(rec) ==> Decode(a + [rec] + b) == Decode(a) + Decode(b)
  {
    DecodeAppend(a + [rec], b);
    DecodeAppend(a, [rec]);
    assert [rec][1..] == [];
  }

  /** Exactly the well-formed records produce entries. */
  lemma {:induction false} DecodeLength(rs: seq<Record>)
    ensures |Decode(rs)| == CountWellFormed(rs)
  {
    if rs != [] {
      DecodeLength(rs[1..]);
    }
  }

  /** The cast of the stored value succeeds on what was saved and yields the saved records. */
  lemma AsRecordListToProperty(rs: seq<Record>)
    ensures AsRecordList(ToProperty(rs)) == Some(rs)
  {
    var v := ToProperty(rs);
    assert forall i :: 0 <= i < |v.items| ==> v.items[i] == DictValue(rs[i]);
    assert AsRecordList(v).Some?;
    var back := AsRecordList(v).value;
    assert |back| == |rs| && forall i :: 0 <= i < |rs| ==> back[i] == rs[i];
    assert back == rs;
  }

  /** Conversely, whatever the cast accepts is exactly the stored form of the records it yields. */
  lemma ToPropertyAsRecordList(v: Value)
    requires AsRecordList(v).Some?
    ensures ToProperty(AsRecordList(v).value) == v
  {
  }

  /** After a save, the guard of `loadDiaryList` passes and reads back the saved records. */
  lemma ReadSlotSaved(defaults: map<string, Value>, list: seq<Diary>)
    ensures ReadSlot(Saved(defaults, list)) == Some(Encode(list))
  {
    AsRecordListToProperty(Encode(list));
  }

  /**
   * Each save fully replaces the previous one: only the last list saved is
   * visible, and saving twice without a change in between is the same as
   * saving once.
   */
  lemma SavedOverwrites(defaults: map<string, Value>, first: seq<Diary>, second: seq<Diary>)
    ensures Saved(Saved(defaults, first), second) == Saved(defaults, second)
  {
  }
}
