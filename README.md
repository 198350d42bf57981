# Diary: list store and entry form

A model of the two pieces of logic in a single-screen diary app.

- **The list screen's store** (`Diary/ViewController.swift`) keeps `diaryList`, an array of diary entries.
  Each entry has a title, contents, a date and a starred flag.
  Every assignment to `diaryList` runs a `didSet` hook.
  The hook re-serialises the whole list into the `"diaryList"` slot of the app's key-value defaults.
  Each entry is stored as a flat dictionary with the keys `title`, `contents`, `date` and `isStar`.
  Loading reads that slot back. It returns early when the slot is missing or is not an array of dictionaries.
  Otherwise it keeps only the records whose four fields all have the right type, and sorts the result newest first.
  Registering a new entry appends it and re-sorts.
- **The entry form** (`Diary/WriteDiaryViewController.swift`) holds three input texts, the date picked on a wheel and the confirm button's enabled flag.
  Edits of the title text and of the date text re-run the enable rule. So does picking a date, which fills in the date text.
  Edits of the contents do not re-run it (see "## Findings").
  Confirming hands the list screen one new, unstarred entry.

Files and modules:

- `diary_data.dfy` (`DiaryData`): the entry, `Option`, and the property-list values the store holds (one tag per dynamic type, so failed `as?` casts can be expressed). `Date` is an integer.
- `diary_codec.dfy` (`DiaryCodec`): the record encoding, the guarded decode, the `[[String: Any]]` cast and the slot update, with the round-trip and filtering lemmas.
- `diary_order.dfy` (`DiaryOrder`): the newest-first comparator, a concrete sort built on it, and lemmas on sortedness and permutations.
- `view_controller.dfy` (`DiaryListScreen`): class `ViewController` with fields `diaryList`, `defaults` (the contents of the key-value store) and a ghost log `writes` of every value written to the slot.
- `write_diary_view_controller.dfy` (`WriteDiaryScreen`): class `WriteDiaryViewController`, one method per event.

Behaviour of the code that the model keeps:

- Registering writes the slot twice, because the append and the re-sort are both assignments to `diaryList`.
- Loading from an absent or mistyped slot returns early. It assigns nothing, so the list keeps its initial empty value and nothing is written.
- Swift's `sorted(by:)` promises no order among entries with the same date, so the contracts leave that order open.
- The enable rule reads the date text, while confirming reads the picked date. A date text pasted into the field without picking a date enables the button, and confirming then produces nothing.

## Model

| member | source | states |
|---|---|---|
| DiaryCodec.EncodeDiary | Diary/ViewController.swift:46-51 | the record for an entry has exactly the four keys `title`, `contents`, `date`, `isStar` |
| DiaryCodec.Encode | Diary/ViewController.swift:45-52 | one record per entry, same length, the i-th record encodes the i-th entry |
| DiaryCodec.DecodeDiary | Diary/ViewController.swift:64-71 | a record decodes iff title and contents are strings, date is a Date and isStar a Bool; the entry then carries exactly those field values |
| DiaryCodec.Decode | Diary/ViewController.swift:64-71 | decoding never yields more entries than records |
| DiaryCodec.AsRecordList | Diary/ViewController.swift:61 | the `as? [[String: Any]]` cast succeeds iff the value is an array all of whose items are dictionaries |
| DiaryCodec.ReadSlot | Diary/ViewController.swift:60-61 | the load guard passes only when the `"diaryList"` key is present |
| DiaryCodec.Saved | Diary/ViewController.swift:54-55 | a save adds or replaces the `"diaryList"` key and leaves every other key as it was |
| DiaryCodec.DecodeEncodeDiary | Diary/ViewController.swift:45-52 | decoding the record saved for an entry gives back that entry |
| DiaryCodec.DecodeEncode | Diary/ViewController.swift:44-71 | decoding the saved records gives back the list exactly, in the same order |
| DiaryCodec.DecodeAppend | Diary/ViewController.swift:64-71 | decoding works record by record: decoding a concatenation gives the concatenation of the decodings |
| DiaryCodec.DecodeAround | Diary/ViewController.swift:64-71 | a record among others is kept, as the entry holding its field values, exactly when well formed, and otherwise dropped without affecting the rest |
| DiaryCodec.DecodeLength | Diary/ViewController.swift:64-71 | the number of decoded entries equals the number of well-formed records |
| DiaryCodec.AsRecordListToProperty | Diary/ViewController.swift:55-61 | the cast accepts the stored form of any list of records and yields those records |
| DiaryCodec.ToPropertyAsRecordList | Diary/ViewController.swift:55-61 | whatever the cast accepts is exactly the stored form of the records it yields |
| DiaryCodec.ReadSlotSaved | Diary/ViewController.swift:54-61 | after a save, the load guard passes and reads back the encoded list |
| DiaryCodec.SavedOverwrites | Diary/ViewController.swift:55 | a save fully replaces the previous one; saving twice without change equals saving once |
| DiaryOrder.Insert | Diary/ViewController.swift:74-76 | inserting into a newest-first list keeps it newest first and adds exactly the new entry |
| DiaryOrder.SortNewestFirst | Diary/ViewController.swift:74-76 | the sort result is newest first and a permutation of its input |
| DiaryOrder.SortedIffAdjacent | Diary/ViewController.swift:75 | newest first over all pairs holds iff no entry is strictly older than the one after it |
| DiaryOrder.SortedPermutationsAgreeOnDates | Diary/ViewController.swift:74-76 | two newest-first permutations of the same entries have the same date at every position |
| DiaryOrder.SortSortedKeepsDates | Diary/ViewController.swift:74-76 | sorting an already newest-first list changes no date at any position |
| DiaryListScreen.ViewController.constructor | Diary/ViewController.swift:14 | the list starts empty and the store is left as an earlier run left it |
| DiaryListScreen.ViewController.SaveDiaryList | Diary/ViewController.swift:44-56 | overwrites the slot with the encoded current list, changes no other key, logs one write |
| DiaryListScreen.ViewController.SetDiaryList | Diary/ViewController.swift:14-19 | every assignment to the list is followed by a save of the new list |
| DiaryListScreen.ViewController.LoadDiaryList | Diary/ViewController.swift:59-77 | absent or mistyped slot: nothing changes and nothing is written; otherwise the list is a newest-first permutation of the decoded records, the slot mirrors it, and exactly two writes happen (decoded, then sorted) |
| DiaryListScreen.ViewController.DidSelectRegister | Diary/ViewController.swift:121-127 | the list becomes a newest-first permutation of the old list plus the new entry, one longer; the slot mirrors it after two writes (appended, then sorted) |
| DiaryListScreen.ViewController.NumberOfItemsInSection | Diary/ViewController.swift:90-93 | the item count is the number of entries in the list |
| DiaryListScreen.SaveThenLoad | Diary/ViewController.swift:44-77 | after a save the load guard passes and reads back the encoded list; a load then holds exactly the saved entries (a newest-first permutation of them); for a newest-first list, every position keeps its date |
| DiaryListScreen.Relaunch | Diary/ViewController.swift:22-27 | a fresh screen over a store that mirrors a list loads a permutation of that list, with the same dates per position when it was newest first |
| WriteDiaryScreen.WriteDiaryViewController.constructor | Diary/WriteDiaryViewController.swift:15-25 | the form starts with empty texts, no picked date and the button enabled by default |
| WriteDiaryScreen.WriteDiaryViewController.ViewDidLoad | Diary/WriteDiaryViewController.swift:27-35 | on entry the confirm button is disabled |
| WriteDiaryScreen.WriteDiaryViewController.ValidateInputField | Diary/WriteDiaryViewController.swift:107-111 | the button is enabled iff title text and date text are present and non-empty and the contents are non-empty; a nil text counts as empty |
| WriteDiaryScreen.WriteDiaryViewController.TitleTextFieldDidChange | Diary/WriteDiaryViewController.swift:92-94 | a title edit stores the text and re-runs the enable rule |
| WriteDiaryScreen.WriteDiaryViewController.EditContents | Diary/WriteDiaryViewController.swift:115-120 | a contents edit stores the text and leaves the button as it was, since the declared handler is never called |
| WriteDiaryScreen.WriteDiaryViewController.TextViewDidChange | Diary/WriteDiaryViewController.swift:117-120 | the handler as intended: a contents edit stores the text and re-runs the enable rule |
| WriteDiaryScreen.WriteDiaryViewController.DateTextFieldDidChange | Diary/WriteDiaryViewController.swift:97-99 | any change of the date text (from the picker, or pasted or cut) stores the text and re-runs the enable rule |
| WriteDiaryScreen.WriteDiaryViewController.DatePickerValueDidChange | Diary/WriteDiaryViewController.swift:77-89 | picking a date stores it in `diaryDate`, fills the date text and re-validates, so the button is then enabled iff title and contents are non-empty |
| WriteDiaryScreen.WriteDiaryViewController.TabConfirmButton | Diary/WriteDiaryViewController.swift:65-74 | an entry is emitted iff the title text is non-nil and a date was picked; it carries the current title, contents and picked date and is not starred; with the button enabled and a date picked it always emits, with a non-empty title (and non-empty contents while the button matches all inputs) |
| WriteDiaryScreen.PastedDateTextEnablesWithoutEntry | Diary/WriteDiaryViewController.swift:65-68 | title, contents and a pasted date text with no picked date: the button is enabled, yet confirming emits nothing |
| WriteDiaryScreen.ClearedContentsStillEmits | Diary/WriteDiaryViewController.swift:115-120 | as written, clearing the contents after the button was enabled keeps it enabled, and confirming emits an entry with empty contents |
| WriteDiaryScreen.ClearedContentsDisablesWhenRechecked | Diary/WriteDiaryViewController.swift:107-120 | with the intended handler, the same steps leave the button disabled |

## Left out

- Rendering and layout: `configureCollectionView`, `cellForItemAt`, `sizeForItemAt`, `configureContentsTextView`, `configureDatePicker`, `touchesBegan`, `reloadData` and all of `Diary/DiaryCell.swift`. They have no behaviour beyond drawing.
- Date formatting (`dateToString` and the formatter in `datePickerValueDidChange`) is library behaviour. The formatted text is a parameter of `DatePickerValueDidChange`, required to be non-empty.
- `UserDefaults` is a map field `defaults` of the controller. Its writing to disk is not modelled.
- `Date` is an integer with its total order. Its floating-point time interval is not modelled.
- Segue and delegate wiring (`prepare(for:sender:)`, the weak `delegate`) and popping the navigation stack are UI glue. `TabConfirmButton` returns the entry it hands the delegate; a nil delegate, which would drop it, is not modelled.
- The target-action wiring of `configureInputField` is modelled by each event method calling the validation directly. The text change that UIKit makes before an action fires is the event method's parameter.
- `contentsTextView.text` is modelled as a plain string, because a text view never reports nil text. The guard on it in `tabConfirmButton` therefore always passes.
- Swift's bridging of numbers (an integer `0` or `1` read back `as? Bool`) is not modelled. Each dynamic type has its own tag.
- The `print` calls are debug output.
- DiaryListScreen.ViewController.LoadDiaryList: does not fix the order of entries that share a date, because Swift's `sorted(by:)` does not promise one. The model's own sort happens to be stable, but nothing relies on that.
- DiaryListScreen.ViewController.DidSelectRegister: does not fix the order of entries that share a date, for the same reason.

## Findings

| source | as written | input that shows it | evidently intended | confidence | as-written member | corrected member |
|---|---|---|---|---|---|---|
| Diary/WriteDiaryViewController.swift:115-120 | `textViewDidChange(_ textView: UITableView)` sits in a `UITableViewDelegate` extension. Its parameter type does not match the text view delegate's callback, so a contents edit never re-runs `validateInputField` | title "t", contents "c", pick a date (button enabled), then clear the contents: the button stays enabled and confirming emits an entry with empty contents | every contents edit re-runs the enable rule, so the button is enabled only while the contents are non-empty | not executed | WriteDiaryScreen.WriteDiaryViewController.EditContents, WriteDiaryScreen.ClearedContentsStillEmits | WriteDiaryScreen.WriteDiaryViewController.TextViewDidChange, WriteDiaryScreen.ClearedContentsDisablesWhenRechecked |
