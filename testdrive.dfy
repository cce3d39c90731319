/** The submit handler of the test-drive form (static/main.js,
    initTestDriveFormValidation), with the page reduced to the text of its
    error elements. */
module TestDrive {
  import opened JsText
  import opened Patterns

  /** The `.value` of the five inputs at submission time. */
  datatype Submission = Submission(name: string, email: string, phone: string, bike: string, date: string)

  /** The text each field's error element shows; "" shows nothing. */
  datatype FieldMessages = FieldMessages(name: string, email: string, phone: string, bike: string, date: string)

  const NameRequired: string := "Full name is required."
  const EmailRequired: string := "Email address is required."
  const EmailInvalid: string := "Please enter a valid email address."
  const PhoneRequired: string := "Phone number is required."
  const PhoneInvalid: string := "Please enter a valid 10-digit phone number."
  const BikeRequired: string := "Please select a bike."
  const DateRequired: string := "Please choose a date."

  /** `// Validate Name`: emptiness is judged on the trimmed value. */
  function NameMessage(name: string): string {
    if Trim(name) == "" then NameRequired else ""
  }

  /** `// Validate Email`: missing when the trimmed value is empty, otherwise
      invalid when the raw value fails the pattern. */
  function EmailMessage(email: string): string {
    if Trim(email) == "" then EmailRequired
    else if !MatchesEmailPattern(email) then EmailInvalid else ""
  }

  /** `// Validate Phone`: as for the email, with the ten-digit pattern. */
  function PhoneMessage(phone: string): string {
    if Trim(phone) == "" then PhoneRequired
    else if !MatchesPhonePattern(phone) then PhoneInvalid else ""
  }

  /** `// Validate Bike Selection` and `// Validate Date`: the raw value, not
      trimmed. */
  function ChoiceMessage(value: string, required: string): string {
    if value == "" then required else ""
  }

  /** The message each field's check leaves, "" when it passes. */
  function Messages(s: Submission): FieldMessages {
    FieldMessages(NameMessage(s.name), EmailMessage(s.email), PhoneMessage(s.phone),
                  ChoiceMessage(s.bike, BikeRequired), ChoiceMessage(s.date, DateRequired))
  }

  /** A name that is all white space is reported as missing; any other is
      accepted. */
  lemma NameMessageMeaning(name: string)
    ensures NameMessage(name) == if AllWhitespace(name) then NameRequired else ""
    ensures NameMessage(name) == "" <==> !AllWhitespace(name)
  {
    TrimEmptyIff(name);
  }

  /** An email that is all white space is reported as missing and nothing
      else; any other is reported as invalid exactly when it is not of
      EmailShape. */
  lemma EmailMessageMeaning(email: string)
    ensures EmailMessage(email) ==
              if AllWhitespace(email) then EmailRequired
              else if !EmailShape(email) then EmailInvalid else ""
    ensures EmailMessage(email) == "" <==> !AllWhitespace(email) && EmailShape(email)
  {
    TrimEmptyIff(email);
    EmailPatternIff(email);
  }

  /** A phone number that is all white space is reported as missing; any
      other is reported as invalid exactly when it is not ten ASCII digits. */
  lemma PhoneMessageMeaning(phone: string)
    ensures PhoneMessage(phone) ==
              if AllWhitespace(phone) then PhoneRequired
              else if !IsTenDigits(phone) then PhoneInvalid else ""
    ensures PhoneMessage(phone) == "" <==> IsTenDigits(phone)
  {
    TrimEmptyIff(phone);
    PhonePatternIff(phone);
    if IsTenDigits(phone) {
      assert !IsJsWhitespace(phone[0]);
    }
  }

  predicate NoMessages(m: FieldMessages) {
    m == FieldMessages("", "", "", "", "")
  }

  /** The form is submitted exactly when every field passes its own check. */
  lemma AcceptedIff(s: Submission)
    ensures NoMessages(Messages(s)) <==>
              && !AllWhitespace(s.name)
              && !AllWhitespace(s.email) && EmailShape(s.email)
              && IsTenDigits(s.phone)
              && s.bike != "" && s.date != ""
  {
    NameMessageMeaning(s.name);
    EmailMessageMeaning(s.email);
    PhoneMessageMeaning(s.phone);
  }

  const NameErrorId: string := "name-error"
  const EmailErrorId: string := "email-error"
  const PhoneErrorId: string := "phone-error"
  const BikeErrorId: string := "bike-error"
  const DateErrorId: string := "date-error"

  const FieldErrorIds: seq<string> := [NameErrorId, EmailErrorId, PhoneErrorId, BikeErrorId, DateErrorId]

  lemma FieldErrorIdsDistinct()
    ensures forall i, j :: 0 <= i < j < |FieldErrorIds| ==> FieldErrorIds[i] != FieldErrorIds[j]
  {
    assert forall i :: 0 <= i < |FieldErrorIds| ==> FieldErrorIds[i][0] == "nepbd"[i];
  }

  /** The message a field's error element receives. */
  function MessageFor(m: FieldMessages, id: string): string {
    if id == NameErrorId then m.name
    else if id == EmailErrorId then m.email
    else if id == PhoneErrorId then m.phone
    else if id == BikeErrorId then m.bike
    else if id == DateErrorId then m.date
    else ""
  }

  /** The texts after the clearing loop: every listed element is empty. */
  function Cleared(text: map<string, string>, elements: seq<string>): (r: map<string, string>)
    ensures r.Keys == text.Keys
    ensures forall id :: id in text && id in elements ==> r[id] == ""
    ensures forall id :: id in text && id !in elements ==> r[id] == text[id]
  {
    map id | id in text :: if id in elements then "" else text[id]
  }

  /** One `showError(id, message)` call, made only when the field failed. */
  function ShowIfFailed(text: map<string, string>, id: string, message: string): map<string, string> {
    if message != "" then text[id := message] else text
  }

  /** The texts after the five checks, in the handler's order. */
  function Shown(text: map<string, string>, m: FieldMessages): map<string, string> {
    var t1 := ShowIfFailed(text, NameErrorId, m.name);
    var t2 := ShowIfFailed(t1, EmailErrorId, m.email);
    var t3 := ShowIfFailed(t2, PhoneErrorId, m.phone);
    var t4 := ShowIfFailed(t3, BikeErrorId, m.bike);
    ShowIfFailed(t4, DateErrorId, m.date)
  }

  /** Each field's element shows its own message when the field failed, and
      keeps its text otherwise; no other element changes. */
  lemma ShownTexts(text: map<string, string>, m: FieldMessages)
    requires forall id :: id in FieldErrorIds ==> id in text
    ensures Shown(text, m).Keys == text.Keys
    ensures forall id :: id in text && id !in FieldErrorIds ==> Shown(text, m)[id] == text[id]
    ensures forall id :: id in FieldErrorIds ==>
              Shown(text, m)[id] == if MessageFor(m, id) != "" then MessageFor(m, id) else text[id]
  {
    FieldErrorIdsDistinct();
    var r := Shown(text, m);
    assert r.Keys == text.Keys;
    forall id | id in FieldErrorIds
      ensures r[id] == if MessageFor(m, id) != "" then MessageFor(m, id) else text[id]
    {
      var i :| 0 <= i < 5 && FieldErrorIds[i] == id;
      if i == 0 {
        assert id == NameErrorId;
      } else if i == 1 {
        assert id == EmailErrorId;
      } else if i == 2 {
        assert id == PhoneErrorId;
      } else if i == 3 {
        assert id == BikeErrorId;
      } else {
        assert id == DateErrorId;
      }
    }
  }

  /** Messages left by earlier submissions do not survive: when every field's
      element is of class `error-message`, what the five elements show after a
      submission depends on that submission alone: two pages that start with
      any texts show the same five texts afterwards. */
  lemma OutcomeDependsOnlyOnSubmission(text1: map<string, string>, elements1: seq<string>,
                                       text2: map<string, string>, elements2: seq<string>, s: Submission)
    requires forall id :: id in FieldErrorIds ==> id in text1 && id in elements1
    requires forall id :: id in FieldErrorIds ==> id in text2 && id in elements2
    ensures forall id :: id in FieldErrorIds ==>
              Shown(Cleared(text1, elements1), Messages(s))[id] == Shown(Cleared(text2, elements2), Messages(s))[id]
  {
    SameShownAfterCleared(text1, elements1, text2, elements2, Messages(s));
  }

  /** Two cleared pages show the same five texts for the same messages. */
  lemma SameShownAfterCleared(text1: map<string, string>, elements1: seq<string>,
                              text2: map<string, string>, elements2: seq<string>, m: FieldMessages)
    requires forall id :: id in FieldErrorIds ==> id in text1 && id in elements1
    requires forall id :: id in FieldErrorIds ==> id in text2 && id in elements2
    ensures forall id :: id in FieldErrorIds ==>
              Shown(Cleared(text1, elements1), m)[id] == Shown(Cleared(text2, elements2), m)[id]
  {
    ShownAfterCleared(text1, elements1, m);
    ShownAfterCleared(text2, elements2, m);
  }

  /** After the clearing loop, each field's element shows exactly its own
      message, "" when the field passed. */
  lemma ShownAfterCleared(text: map<string, string>, elements: seq<string>, m: FieldMessages)
    requires forall id :: id in FieldErrorIds ==> id in text && id in elements
    ensures forall id :: id in FieldErrorIds ==> Shown(Cleared(text, elements), m)[id] == MessageFor(m, id)
  {
    ShownTexts(Cleared(text, elements), m);
  }

  /** The page as the handler sees it: the text of every element by id, and
      the ids of the elements of class `error-message`, in document order. */
  class TestDrivePage {
    var text: map<string, string>
    var errorElements: seq<string>

    /** `getElementById` finds each field's error element, and every
        `.error-message` element has a text. */
    ghost predicate Valid()
      reads this
    {
      && (forall id :: id in FieldErrorIds ==> id in text)
      && (forall i :: 0 <= i < |errorElements| ==> errorElements[i] in text)
    }

    constructor (text: map<string, string>, errorElements: seq<string>)
      requires forall id :: id in FieldErrorIds ==> id in text
      requires forall i :: 0 <= i < |errorElements| ==> errorElements[i] in text
      ensures Valid() && this.text == text && this.errorElements == errorElements
    {
      this.text := text;
      this.errorElements := errorElements;
    }

    /** The `showError` helper. The `isValid` flag it sets to false is the
        `failed` result of the Validate methods. */
    method ShowError(id: string, message: string)
      requires id in text
      modifies this
      ensures text == old(text)[id := message]
      ensures errorElements == old(errorElements)
    {
      text := text[id := message];
    }

    /** The clearing loop over the `.error-message` elements (main.js:106):
        each one's text becomes empty, in document order. */
    method ClearErrors()
      requires Valid()
      modifies this
      ensures Valid()
      ensures errorElements == old(errorElements)
      ensures text == Cleared(old(text), errorElements)
    {
      var k := 0;
      while k < |errorElements|
        invariant 0 <= k <= |errorElements|
        invariant Valid()
        invariant errorElements == old(errorElements)
        invariant text == Cleared(old(text), errorElements[..k])
      {
        assert errorElements[..k + 1] == errorElements[..k] + [errorElements[k]];
        text := text[errorElements[k] := ""];
        k := k + 1;
      }
      assert errorElements[..k] == errorElements;
    }

    /** The submit handler: clears every error element, shows the message of
        each failing field, and lets the submission go ahead only when no
        field failed. `submitted` is false when preventDefault is called. */
    method Submit(s: Submission) returns (submitted: bool)
      requires Valid()
      modifies this
      ensures Valid()
      ensures errorElements == old(errorElements)
      ensures text == Shown(Cleared(old(text), errorElements), Messages(s))
      ensures submitted <==> NoMessages(Messages(s))
    {
      ClearErrors();
      var isValid := true;
      var failed := ValidateName(s);
      if failed { isValid := false; }
      failed := ValidateEmail(s);
      if failed { isValid := false; }
      failed := ValidatePhone(s);
      if failed { isValid := false; }
      failed := ValidateBike(s);
      if failed { isValid := false; }
      failed := ValidateDate(s);
      if failed { isValid := false; }
      submitted := isValid;
    }

    /** `// Validate Name`: one showError call when the trimmed name is empty. */
    method ValidateName(s: Submission) returns (failed: bool)
      requires Valid()
      modifies this
      ensures Valid() && errorElements == old(errorElements)
      ensures text == ShowIfFailed(old(text), NameErrorId, NameMessage(s.name))
      ensures failed <==> NameMessage(s.name) != ""
    {
      failed := false;
      if Trim(s.name) == "" {
        ShowError(NameErrorId, NameRequired);
        failed := true;
      }
    }

    /** `// Validate Email`: missing when the trimmed value is empty, otherwise
        invalid when the raw value fails the pattern; at most one message. */
    method ValidateEmail(s: Submission) returns (failed: bool)
      requires Valid()
      modifies this
      ensures Valid() && errorElements == old(errorElements)
      ensures text == ShowIfFailed(old(text), EmailErrorId, EmailMessage(s.email))
      ensures failed <==> EmailMessage(s.email) != ""
    {
      failed := false;
      if Trim(s.email) == "" {
        ShowError(EmailErrorId, EmailRequired);
        failed := true;
      } else if !MatchesEmailPattern(s.email) {
        ShowError(EmailErrorId, EmailInvalid);
        failed := true;
      }
    }

    /** `// Validate Phone`: as for the email, with the ten-digit pattern. */
    method ValidatePhone(s: Submission) returns (failed: bool)
      requires Valid()
      modifies this
      ensures Valid() && errorElements == old(errorElements)
      ensures text == ShowIfFailed(old(text), PhoneErrorId, PhoneMessage(s.phone))
      ensures failed <==> PhoneMessage(s.phone) != ""
    {
      failed := false;
      if Trim(s.phone) == "" {
        ShowError(PhoneErrorId, PhoneRequired);
        failed := true;
      } else if !MatchesPhonePattern(s.phone) {
        ShowError(PhoneErrorId, PhoneInvalid);
        failed := true;
      }
    }

    /** `// Validate Bike Selection`: the raw value, untrimmed. */
    method ValidateBike(s: Submission) returns (failed: bool)
      requires Valid()
      modifies this
      ensures Valid() && errorElements == old(errorElements)
      ensures text == ShowIfFailed(old(text), BikeErrorId, ChoiceMessage(s.bike, BikeRequired))
      ensures failed <==> s.bike == ""
    {
      failed := false;
      if s.bike == "" {
        ShowError(BikeErrorId, BikeRequired);
        failed := true;
      }
    }

    /** `// Validate Date`: the raw value, untrimmed. */
    method ValidateDate(s: Submission) returns (failed: bool)
      requires Valid()
      modifies this
      ensures Valid() && errorElements == old(errorElements)
      ensures text == ShowIfFailed(old(text), DateErrorId, ChoiceMessage(s.date, DateRequired))
      ensures failed <==> s.date == ""
    {
      failed := false;
      if s.date == "" {
        ShowError(DateErrorId, DateRequired);
        failed := true;
      }
    }
  }
}
