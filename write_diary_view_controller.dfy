/**
 * The entry form: three input texts, the date picked on the wheel, and
 * whether the confirm button is enabled.
 */
module WriteDiaryScreen {
  import opened DiaryData

  /** `text?.isEmpty ?? true`: a missing text counts as empty. */
  predicate IsEmptyOrNil(text: Option<string>)
  {
    match text
    case None => true
    case Some(s) => s == ""
  }

  /** The rule of `validateInputField`: all three texts filled in. */
  predicate InputsFilled(title: Option<string>, dateText: Option<string>, contents: string)
  {
    !IsEmptyOrNil(title) && !IsEmptyOrNil(dateText) && contents != ""
  }

  class WriteDiaryViewController {
    /** `titleTextField.text` */
    var titleText: Option<string>
    /** `dateTextField.text`, the formatted picked date */
    var dateText: Option<string>
    /** `contentsTextView.text`; a text view always has a string */
    var contentsText: string
    /** `diaryDate`: the date picked on the wheel, if any */
    var diaryDate: Option<Date>
    /** `confirmButton.isEnabled` */
    var confirmEnabled: bool

    /**
     * Every path that can enable the button runs the enable rule, and the
     * title and date texts change only through handlers that run it again;
     * so an enabled button means the title and date texts are filled in.
     */
    ghost predicate Valid()
      reads this
    {
      confirmEnabled ==> !IsEmptyOrNil(titleText) && !IsEmptyOrNil(dateText)
    }

    /** The button reflects all three inputs: enabled only while all are filled in. */
    ghost predicate ButtonMatchesInputs()
      reads this
    {
      confirmEnabled ==> InputsFilled(titleText, dateText, contentsText)
    }

    /** The form as loaded from the storyboard: empty fields, no date, a bar button enabled by default. */
    constructor ()
      ensures titleText == Some("") && dateText == Some("") && contentsText == ""
      ensures diaryDate == None && confirmEnabled
    {
      titleText := Some("");
      dateText := Some("");
      contentsText := "";
      diaryDate := None;
      confirmEnabled := true;
    }

    /** `viewDidLoad`: the confirm button starts disabled. */
    method ViewDidLoad()
      modifies this`confirmEnabled
      ensures !confirmEnabled && Valid() && ButtonMatchesInputs()
    {
      confirmEnabled := false;
    }

    /** `validateInputField`: enabled exactly when title, date text and contents are all non-empty. */
    method ValidateInputField()
      modifies this`confirmEnabled
      ensures confirmEnabled <==>
        && titleText.Some? && titleText.value != ""
        && dateText.Some? && dateText.value != ""
        && contentsText != ""
      ensures confirmEnabled == InputsFilled(titleText, dateText, contentsText)
    {
      confirmEnabled := InputsFilled(titleText, dateText, contentsText);
    }

    /** The title field's text becomes `text`; its `.editingChanged` action `titleTextFieldDidChange` re-validates. */
    method TitleTextFieldDidChange(text: Option<string>)
      modifies this`titleText, this`confirmEnabled
      ensures titleText == text && Valid() && ButtonMatchesInputs()
      ensures confirmEnabled == InputsFilled(text, dateText, contentsText)
    {
      titleText := text;
      ValidateInputField();
    }

    /**
     * The user edits the text view and UIKit stores the new text. As
     * declared, `textViewDidChange(_: UITableView)` sits in a
     * `UITableViewDelegate` extension and does not match the text view
     * delegate's callback, so nothing of this class runs and the button
     * keeps its state.
     */
    method EditContents(text: string)
      modifies this`contentsText
      ensures contentsText == text
      ensures old(Valid()) ==> Valid()
    {
      contentsText := text;
    }

    /**
     * The contents edit as the handler evidently intends: the text view's
     * text becomes `text` and `textViewDidChange` re-runs the enable rule.
     */
    method TextViewDidChange(text: string)
      modifies this`contentsText, this`confirmEnabled
      ensures contentsText == text && Valid() && ButtonMatchesInputs()
      ensures confirmEnabled == InputsFilled(titleText, dateText, text)
    {
      contentsText := text;
      ValidateInputField();
    }

    /**
     * The date field's text becomes `text` (set by the picker, or pasted or
     * cut through the edit menu, which a custom input view leaves in place);
     * its `.editingChanged` action `dateTextFieldDidChange` re-validates.
     */
    method DateTextFieldDidChange(text: Option<string>)
      modifies this`dateText, this`confirmEnabled
      ensures dateText == text && Valid() && ButtonMatchesInputs()
      ensures confirmEnabled == InputsFilled(titleText, text, contentsText)
    {
      dateText := text;
      ValidateInputField();
    }

    /**
     * `datePickerValueDidChange`: stores the picked date, shows its formatted
     * text (`formatted`, what the date formatter returned; never empty) and
     * sends `.editingChanged` to the date field, which re-validates.
     */
    method DatePickerValueDidChange(picked: Date, formatted: string)
      requires formatted != ""
      modifies this`diaryDate, this`dateText, this`confirmEnabled
      ensures diaryDate == Some(picked) && dateText == Some(formatted)
      ensures Valid() && ButtonMatchesInputs()
      ensures confirmEnabled == (!IsEmptyOrNil(titleText) && contentsText != "")
    {
      diaryDate := Some(picked);
      DateTextFieldDidChange(Some(formatted));
    }

    /**
     * `tabConfirmButton`: hands the delegate one entry built from the current
     * title, contents and picked date, not starred; hands it nothing when the
     * title text is nil or no date has been picked. The date text plays no
     * part here, unlike in the enable rule: an enabled button produces an
     * entry only once a date has been picked.
     */
    method TabConfirmButton() returns (emitted: Option<Diary>)
      ensures emitted.Some? <==> titleText.Some? && diaryDate.Some?
      ensures emitted.Some? ==>
        && emitted.value.title == titleText.value
        && emitted.value.contents == contentsText
        && emitted.value.date == diaryDate.value
        && !emitted.value.isStar
      ensures Valid() && confirmEnabled && diaryDate.Some? ==> emitted.Some? && emitted.value.title != ""
      ensures ButtonMatchesInputs() && confirmEnabled && diaryDate.Some? ==> emitted.Some? && emitted.value.contents != ""
    {
      if titleText.None? {
        return None;
      }
      var title := titleText.value;
      var contents := contentsText;
      if diaryDate.None? {
        return None;
      }
      var date := diaryDate.value;
      emitted := Some(Diary(title, contents, date, false));
    }
  }

  // ---------------------------------------------------------------------------
  // Event sequences

  /**
   * The enable rule reads the date text, confirm reads the picked date: a
   * date text pasted without picking a date enables the button, and confirm
   * then hands the delegate nothing.
   */
  method PastedDateTextEnablesWithoutEntry() returns (enabled: bool, emitted: Option<Diary>)
    ensures enabled && emitted == None
  {
    var form := new WriteDiaryViewController();
    form.ViewDidLoad();
    form.TitleTextFieldDidChange(Some("t"));
    form.TextViewDidChange("c");
    form.DateTextFieldDidChange(Some("23-03-23"));
    enabled := form.confirmEnabled;
    emitted := form.TabConfirmButton();
  }

  /**
   * As written, clearing the contents after the button was enabled leaves it
   * enabled, and confirm hands the delegate an entry with empty contents.
   */
  method ClearedContentsStillEmits(picked: Date) returns (enabled: bool, emitted: Option<Diary>)
    ensures enabled && emitted == Some(Diary("t", "", picked, false))
  {
    var form := new WriteDiaryViewController();
    form.ViewDidLoad();
    form.TitleTextFieldDidChange(Some("t"));
    form.EditContents("c");
    form.DatePickerValueDidChange(picked, "2023-03-23");
    form.EditContents("");
    enabled := form.confirmEnabled;
    emitted := form.TabConfirmButton();
  }

  /** With the contents edit re-running the enable rule, the same steps leave the button disabled. */
  method ClearedContentsDisablesWhenRechecked(picked: Date) returns (enabled: bool)
    ensures !enabled
  {
    var form := new WriteDiaryViewController();
    form.ViewDidLoad();
    form.TitleTextFieldDidChange(Some("t"));
    form.TextViewDidChange("c");
    form.DatePickerValueDidChange(picked, "2023-03-23");
    form.TextViewDidChange("");
    enabled := form.confirmEnabled;
  }
}
