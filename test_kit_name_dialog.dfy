/**
  TestKitNameDialog: the window that asks for the name of a new test kit.
  It proposes a default name, shows the folder the kit will get as the name
  is typed, and accepts the name only when it passes three checks in order.
  The clock and the platform's invalid file-name characters are parameters.
*/
module NameDialog {
  import opened Wrappers
  import opened Text
  import opened Paths
  import opened Folders

  const Placeholder := "[Enter a name to see preview]"
  const EmptyMessage := "❌ Test Kit name cannot be empty!"
  const InvalidMessage := "❌ Name contains invalid characters!"
  const LongMessage := "❌ Name is too long (max 100 characters)!"

  /** The validation text shown for each rejected name. */
  function Message(e: NameError): string {
    match e
    case BlankName => EmptyMessage
    case InvalidCharacters => InvalidMessage
    case NameTooLong => LongMessage
  }

  /** The default name, `timestamp` being DateTime.Now in the form yyyyMMdd_HHmmss. */
  function DefaultName(number: int, timestamp: string): string {
    "TestKit_" + FormatD3(number) + "_" + timestamp
  }

  /** The folder preview for the text in the name box. */
  function Preview(root: string, text: string): string {
    var name := Trim(text);
    if name == [] then Placeholder else Combine(root, name) + "\\"
  }

  class TestKitNameDialog {
    /** The accepted name; null until Create accepts one. */
    var testKitName: Option<string>
    var projectName: string
    var testKitNumber: int
    var rootFolder: string
    /** The project name box. */
    var projectText: string
    /** The name box. */
    var nameText: string
    var previewText: string
    var validationText: string
    var validationVisible: bool
    /** Window.DialogResult, a nullable bool. */
    var dialogResult: Option<bool>
    var closed: bool

    /** The constructor: the fields, the default name in the name box, and its preview. */
    constructor(projectName: string, testKitNumber: int, rootFolder: string, timestamp: string)
      ensures this.projectName == projectName && this.testKitNumber == testKitNumber && this.rootFolder == rootFolder
      ensures projectText == projectName
      ensures nameText == DefaultName(testKitNumber, timestamp)
      ensures previewText == Preview(rootFolder, nameText)
      ensures testKitName == None && dialogResult == None && !closed
      ensures validationText == "" && !validationVisible
    {
      this.projectName := projectName;
      this.testKitNumber := testKitNumber;
      this.rootFolder := rootFolder;
      projectText := projectName;
      nameText := "TestKit_" + FormatD3(testKitNumber) + "_" + timestamp;
      testKitName := None;
      dialogResult := None;
      closed := false;
      validationText := "";
      validationVisible := false;
      previewText := "";
      new;
      UpdateFolderPreview();
    }

    /** UpdateFolderPreview: a placeholder for a blank name, otherwise the combined path with a trailing '\'. */
    method UpdateFolderPreview()
      modifies this
      ensures previewText == Preview(rootFolder, nameText)
      ensures testKitName == old(testKitName) && projectName == old(projectName)
      ensures testKitNumber == old(testKitNumber) && rootFolder == old(rootFolder)
      ensures projectText == old(projectText) && nameText == old(nameText)
      ensures validationText == old(validationText) && validationVisible == old(validationVisible)
      ensures dialogResult == old(dialogResult) && closed == old(closed)
    {
      var name := Trim(nameText);
      TrimmedBlankIsEmpty(nameText);
      if IsBlank(name) {
        previewText := Placeholder;
        return;
      }
      previewText := Combine(rootFolder, name) + "\\";
    }

    /** The TextChanged handler: the box takes the new text and the preview follows it. */
    method NameTextChanged(text: string)
      modifies this
      ensures nameText == text && previewText == Preview(rootFolder, text)
      ensures testKitName == old(testKitName) && projectName == old(projectName)
      ensures testKitNumber == old(testKitNumber) && rootFolder == old(rootFolder)
      ensures projectText == old(projectText)
      ensures validationText == old(validationText) && validationVisible == old(validationVisible)
      ensures dialogResult == old(dialogResult) && closed == old(closed)
    {
      nameText := text;
      UpdateFolderPreview();
    }

    /**
      BtnCreate_Click: the trimmed name is checked for blankness, then for an
      invalid character, then for length; the first failing check shows its
      message and leaves the dialog open, and a name passing all three is
      stored trimmed and closes the dialog with result true.
    */
    method BtnCreateClick(invalid: set<char>)
      modifies this
      ensures var err := ValidateTestKitName(Trim(nameText), invalid);
        && (err.Some? ==>
          && validationText == Message(err.value) && validationVisible
          && testKitName == old(testKitName) && dialogResult == old(dialogResult) && closed == old(closed))
        && (err.None? ==>
          && testKitName == Some(Trim(nameText)) && dialogResult == Some(true) && closed
          && validationText == old(validationText) && validationVisible == old(validationVisible))
      ensures nameText == old(nameText) && previewText == old(previewText) && projectText == old(projectText)
      ensures projectName == old(projectName) && testKitNumber == old(testKitNumber) && rootFolder == old(rootFolder)
    {
      var name := Trim(nameText);
      if IsBlank(name) {
        assert ValidateTestKitName(name, invalid) == Some(BlankName);
        validationText := EmptyMessage;
        validationVisible := true;
        return;
      }
      if HasInvalidChar(name, invalid) {
        assert ValidateTestKitName(name, invalid) == Some(InvalidCharacters);
        validationText := InvalidMessage;
        validationVisible := true;
        return;
      }
      if Utf16Length(name) > 100 {
        assert ValidateTestKitName(name, invalid) == Some(NameTooLong);
        validationText := LongMessage;
        validationVisible := true;
        return;
      }
      assert ValidateTestKitName(name, invalid) == None;
      testKitName := Some(name);
      dialogResult := Some(true);
      closed := true;
    }

    /** BtnCancel_Click: the dialog closes with result false. */
    method BtnCancelClick()
      modifies this
      ensures dialogResult == Some(false) && closed
      ensures testKitName == old(testKitName) && nameText == old(nameText) && previewText == old(previewText)
      ensures validationText == old(validationText) && validationVisible == old(validationVisible)
      ensures projectText == old(projectText) && projectName == old(projectName)
      ensures testKitNumber == old(testKitNumber) && rootFolder == old(rootFolder)
    {
      dialogResult := Some(false);
      closed := true;
    }
  }

  /** The preview shows the placeholder exactly when the name box is blank. */
  lemma PreviewPlaceholder(root: string, text: string)
    ensures Preview(root, text) == Placeholder <==> IsBlank(text)
  {
    TrimEmptyIffBlank(text);
    var name := Trim(text);
    if name != [] {
      var p := Combine(root, name) + "\\";
      assert p[|p| - 1] == '\\';
      assert Placeholder[|Placeholder| - 1] == ']';
    }
  }

  /**
    On Windows, where the separators and ':' are invalid in file names, the
    preview of an accepted name is the root folder, one separator unless the
    root already ends with one, the trimmed name and a final '\'.
  */
  lemma PreviewOfAccepted(root: string, text: string, invalid: set<char>)
    requires '\\' in invalid && '/' in invalid && ':' in invalid
    requires root != ""
    requires ValidateTestKitName(Trim(text), invalid) == None
    ensures Preview(root, text) == root + Joiner(root) + Trim(text) + "\\"
  {
    AcceptedNameStaysInRoot(root, Trim(text), invalid);
  }

  /**
    An accepted name is what it was trimmed to: not empty, without white
    space at either end, without an invalid character, and at most 100
    UTF-16 code units long.
  */
  lemma AcceptedNameShape(text: string, invalid: set<char>)
    requires ValidateTestKitName(Trim(text), invalid) == None
    ensures var name := Trim(text);
      && name != [] && Trim(name) == name
      && !IsWhiteSpace(name[0]) && !IsWhiteSpace(name[|name| - 1])
      && (forall i :: 0 <= i < |name| ==> name[i] !in invalid)
      && Utf16Length(name) <= MaxNameLength
  {
    var name := Trim(text);
    TrimIdempotent(text);
    TrimEndParts(TrimStart(text));
    TrimStartParts(text);
    var a := TrimStart(text);
    assert name == a[..|name|];
    assert name[0] == a[0];
  }

  /** A character the default name is made of: an ASCII letter, a digit or '_'. */
  predicate IsNameChar(c: char) {
    ('A' <= c <= 'Z') || ('a' <= c <= 'z') || ('0' <= c <= '9') || c == '_'
  }

  /** The default name: the prefix, the number in at least three digits, '_' and the timestamp. */
  lemma DefaultNameShape(number: nat, timestamp: string)
    ensures var name := DefaultName(number, timestamp);
      var digits := FormatD3(number);
      && name[..8] == "TestKit_"
      && IsDigits(digits) && DigitsValue(digits) == number && |digits| >= 3
      && (number < 1000 ==> |name| == 12 + |timestamp| && name[8..11] == digits && name[11] == '_')
      && name[|name| - |timestamp|..] == timestamp
  {
    var head := "TestKit_";
    var digits := FormatD3(number);
    var name := DefaultName(number, timestamp);
    FormatD3Digits(number);
    assert |head| == 8;
    var rest := digits + "_" + timestamp;
    assert name == head + rest;
    assert name[..8] == head;
    assert name[|name| - |timestamp|..] == timestamp;
    if number < 1000 {
      assert rest[..3] == digits && rest[3] == '_';
      assert name[8..11] == rest[..3];
    }
  }

  /**
    When no letter, digit or '_' is invalid in file names and the timestamp
    is made of such characters (as yyyyMMdd_HHmmss is), the default name of
    a kit numbered below 1000 passes the Create checks unchanged.
  */
  lemma DefaultNameAccepted(number: nat, timestamp: string, invalid: set<char>)
    requires number < 1000 && |timestamp| <= 88
    requires forall i :: 0 <= i < |timestamp| ==> IsNameChar(timestamp[i])
    requires forall c :: c in invalid ==> !IsNameChar(c)
    ensures Trim(DefaultName(number, timestamp)) == DefaultName(number, timestamp)
    ensures ValidateTestKitName(Trim(DefaultName(number, timestamp)), invalid) == None
  {
    var name := DefaultName(number, timestamp);
    var digits := FormatD3(number);
    FormatD3Digits(number);
    assert name == "TestKit_" + digits + "_" + timestamp;
    assert forall i :: 0 <= i < |name| ==> IsNameChar(name[i]) by {
      forall i | 0 <= i < |name| ensures IsNameChar(name[i]) {
        if i < 8 {
          assert name[i] == "TestKit_"[i];
        } else if i < 8 + |digits| {
          assert name[i] == digits[i - 8];
        } else if i == 8 + |digits| {
          assert name[i] == '_';
        } else {
          assert name[i] == timestamp[i - 9 - |digits|];
        }
      }
    }
    assert !IsWhiteSpace(name[0]) && !IsWhiteSpace(name[|name| - 1]);
    TrimUnchanged(name);
    assert !IsBlank(name);
    assert !HasInvalidChar(name, invalid);
    Utf16LengthBmp(name);
  }
}
