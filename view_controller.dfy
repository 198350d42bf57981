/**
 * The diary list screen's store: the in-memory `diaryList`, whose every
 * assignment re-serialises the whole list into the `"diaryList"` slot of the
 * app's key-value defaults.
 */
module DiaryListScreen {
  import opened DiaryData
  import opened DiaryCodec
  import opened DiaryOrder

  class ViewController {
    /** The entries shown on screen. */
    var diaryList: seq<Diary>
    /** The contents of `UserDefaults.standard`, key by key. */
    var defaults: map<string, Value>
    /** Every value written under `"diaryList"`, oldest first. */
    ghost var writes: seq<Value>

    /** The stored slot holds exactly the serialisation of the list in memory. */
    ghost predicate Mirrors()
      reads this
    {
      DiaryListKey in defaults && defaults[DiaryListKey] == ToProperty(Encode(diaryList))
    }

    /** The screen as created: empty list; the store holds whatever an earlier run left. */
    constructor (stored: map<string, Value>)
      ensures diaryList == [] && defaults == stored && writes == []
    {
      diaryList := [];
      defaults := stored;
      writes := [];
    }

    /** `saveDiaryList`: overwrites the `"diaryList"` slot with the encoded list; no other key changes. */
    method SaveDiaryList()
      modifies this`defaults, this`writes
      ensures defaults == Saved(old(defaults), diaryList) && Mirrors()
      ensures writes == old(writes) + [ToProperty(Encode(diaryList))]
    {
      var value := ToProperty(Encode(diaryList));
      defaults := defaults[DiaryListKey := value];
      writes := writes + [value];
    }

    /** An assignment to `diaryList`, running its `didSet` hook. */
    method SetDiaryList(list: seq<Diary>)
      modifies this
      ensures diaryList == list && defaults == Saved(old(defaults), list) && Mirrors()
      ensures writes == old(writes) + [ToProperty(Encode(list))]
    {
      diaryList := list;
      SaveDiaryList();
    }

    /**
     * `loadDiaryList`: when the slot is absent or not a list of dictionaries,
     * nothing is assigned and nothing is saved; otherwise the well-formed
     * records become the list (saved once), which is then sorted newest first
     * (saved again).
     */
    method LoadDiaryList()
      modifies this
      ensures ReadSlot(old(defaults)).None? ==>
        diaryList == old(diaryList) && defaults == old(defaults) && writes == old(writes)
      ensures ReadSlot(old(defaults)).Some? ==>
        var decoded := Decode(ReadSlot(old(defaults)).value);
        && LoadsFrom(old(defaults), diaryList)
        && SortedNewestFirst(diaryList)
        && multiset(diaryList) == multiset(decoded)
        && defaults == Saved(old(defaults), diaryList) && Mirrors()
        && writes == old(writes) + [ToProperty(Encode(decoded)), ToProperty(Encode(diaryList))]
    {
      var data := ReadSlot(defaults);
      if data.None? {
        return;
      }
      ghost var stored := defaults;
      var decoded := Decode(data.value);
      SetDiaryList(decoded);
      var sorted := SortNewestFirst(decoded);
      SetDiaryList(sorted);
      SavedOverwrites(stored, decoded, sorted);
    }

    /**
     * `didSelectRegister`: appends the new entry (saved once), then re-sorts
     * newest first (saved again).
     */
    method DidSelectRegister(diary: Diary)
      modifies this
      ensures SortedNewestFirst(diaryList)
      ensures multiset(diaryList) == multiset(old(diaryList)) + multiset{diary}
      ensures |diaryList| == |old(diaryList)| + 1
      ensures defaults == Saved(old(defaults), diaryList) && Mirrors()
      ensures writes == old(writes) + [ToProperty(Encode(old(diaryList) + [diary])), ToProperty(Encode(diaryList))]
    {
      ghost var stored := defaults;
      var appended := diaryList + [diary];
      assert multiset(appended) == multiset(diaryList) + multiset{diary};
      SetDiaryList(appended);
      var sorted := SortNewestFirst(appended);
      assert |sorted| == |multiset(sorted)| == |multiset(appended)| == |appended|;
      SetDiaryList(sorted);
      SavedOverwrites(stored, appended, sorted);
    }

    /** `collectionView(_:numberOfItemsInSection:)`: one cell per entry. */
    method NumberOfItemsInSection(section: int) returns (n: int)
      ensures n == |diaryList|
    {
      n := |diaryList|;
    }
  }

  /**
   * `loaded` is a possible outcome of `loadDiaryList` over `defaults` that
   * gets past its guard: the decoded records, sorted newest first.
   */
  ghost predicate LoadsFrom(defaults: map<string, Value>, loaded: seq<Diary>)
  {
    match ReadSlot(defaults)
    case None => false
    case Some(records) => SortedNewestFirst(loaded) && multiset(loaded) == multiset(Decode(records))
  }

  /**
   * What a later launch loads after a save: the guard passes and reads back
   * the encoded list, so a load holds the saved entries, field for field and
   * each as often as before; and when the saved list was already newest
   * first, the same date at every position.
   */
  lemma SaveThenLoad(stored: map<string, Value>, list: seq<Diary>, loaded: seq<Diary>)
    ensures ReadSlot(Saved(stored, list)) == Some(Encode(list))
    ensures LoadsFrom(Saved(stored, list), loaded) <==>
      SortedNewestFirst(loaded) && multiset(loaded) == multiset(list)
    ensures LoadsFrom(Saved(stored, list), loaded) && SortedNewestFirst(list) ==>
      |loaded| == |list| && forall i :: 0 <= i < |list| ==> loaded[i].date == list[i].date
  {
    ReadSlotSaved(stored, list);
    DecodeEncode(list);
    if SortedNewestFirst(loaded) && multiset(loaded) == multiset(list) && SortedNewestFirst(list) {
      SortedPermutationsAgreeOnDates(loaded, list);
    }
  }

  /** A save leaves the slot readable, so the load that follows never takes the early return. */
  method Relaunch(previous: ViewController) returns (next: ViewController)
    requires previous.Mirrors()
    ensures fresh(next)
    ensures multiset(next.diaryList) == multiset(previous.diaryList)
    ensures SortedNewestFirst(previous.diaryList) ==>
      |next.diaryList| == |previous.diaryList| &&
      forall i :: 0 <= i < |next.diaryList| ==> next.diaryList[i].date == previous.diaryList[i].date
  {
    next := new ViewController(previous.defaults);
    assert previous.defaults == Saved(previous.defaults, previous.diaryList);
    ReadSlotSaved(previous.defaults, previous.diaryList);
    next.LoadDiaryList();
    SaveThenLoad(previous.defaults, previous.diaryList, next.diaryList);
  }
}
