/**
 * The contact step: the email-address fields (their validation, the error shown under each field,
 * adding and removing fields) and the number-of-people stepper.
 */
module UserInfo {
  import opened Wrappers
  import opened Text
  import opened Pricing

  // ---------------------------------------------------------------------------------------------
  // Email validation

  /** A character of `[^\s@]`: neither whitespace nor '@'. */
  predicate Plain(c: char) {
    !IsSpace(c) && c != '@'
  }

  predicate AllPlain(s: string) {
    forall k :: 0 <= k < |s| ==> Plain(s[k])
  }

  /**
   * The language of `/^[^\s@]+@[^\s@]+\.[^\s@]+$/`: three non-empty runs of plain characters,
   * the first two joined by '@' and the last two by '.'.
   */
  predicate EmailRegex(s: string) {
    exists i, j :: 0 < i && i + 1 < j < |s| - 1 && s[i] == '@' && s[j] == '.'
      && AllPlain(s[..i]) && AllPlain(s[i + 1..j]) && AllPlain(s[j + 1..])
  }

  predicate NoSpace(s: string) {
    forall k :: 0 <= k < |s| ==> !IsSpace(s[k])
  }

  /** The only '@' of `s` is at index `a`. */
  predicate OnlyAt(s: string, a: int) {
    forall k :: 0 <= k < |s| && s[k] == '@' ==> k == a
  }

  /** `t` has a '.' with at least one character on each side. */
  predicate HasInnerDot(t: string) {
    exists d :: 0 < d < |t| - 1 && t[d] == '.'
  }

  /**
   * An address in words: no whitespace, exactly one '@' with something before it, and a '.' after
   * the '@' with at least one character on each side.
   */
  predicate WellShapedEmail(s: string) {
    NoSpace(s) && exists a :: 0 < a < |s| && s[a] == '@' && OnlyAt(s, a) && HasInnerDot(s[a + 1..])
  }

  /** A match of the pattern, split at its '@' (index `i`) and its '.' (index `j`), is well shaped. */
  lemma RegexMatchIsWellShaped(s: string, i: int, j: int)
    requires 0 < i && i + 1 < j < |s| - 1 && s[i] == '@' && s[j] == '.'
    requires AllPlain(s[..i]) && AllPlain(s[i + 1..j]) && AllPlain(s[j + 1..])
    ensures WellShapedEmail(s)
  {
    forall k | 0 <= k < |s| ensures !IsSpace(s[k]) && (s[k] == '@' ==> k == i) {
      if k < i {
        assert s[k] == s[..i][k];
      } else if i < k < j {
        assert s[k] == s[i + 1..j][k - i - 1];
      } else if j < k {
        assert s[k] == s[j + 1..][k - j - 1];
      }
    }
    assert s[i + 1..][j - i - 1] == '.';
    assert HasInnerDot(s[i + 1..]);
  }

  /** A well-shaped address, with its '@' at `a` and a '.' at `a + 1 + d`, matches the pattern. */
  lemma WellShapedMatchesRegex(s: string, a: int, d: int)
    requires NoSpace(s) && 0 < a < |s| && s[a] == '@' && OnlyAt(s, a)
    requires 0 < d < |s| - a - 2 && s[a + 1 + d] == '.'
    ensures EmailRegex(s)
  {
    var j := a + 1 + d;
    assert AllPlain(s[..a]);
    assert AllPlain(s[a + 1..j]);
    assert AllPlain(s[j + 1..]);
  }

  /** The regular expression accepts exactly the well-shaped addresses. */
  lemma EmailRegexMeans(s: string)
    ensures EmailRegex(s) <==> WellShapedEmail(s)
  {
    if EmailRegex(s) {
      var i, j :| 0 < i && i + 1 < j < |s| - 1 && s[i] == '@' && s[j] == '.'
        && AllPlain(s[..i]) && AllPlain(s[i + 1..j]) && AllPlain(s[j + 1..]);
      RegexMatchIsWellShaped(s, i, j);
    }
    if WellShapedEmail(s) {
      var a :| 0 < a < |s| && s[a] == '@' && OnlyAt(s, a) && HasInnerDot(s[a + 1..]);
      var d :| 0 < d < |s[a + 1..]| - 1 && s[a + 1..][d] == '.';
      WellShapedMatchesRegex(s, a, d);
    }
  }

  /** `validateEmail`: a blank entry passes, anything else must match the pattern. */
  function ValidateEmail(email: string): (r: bool)
    ensures r <==> IsBlank(email) || WellShapedEmail(email)
  {
    TrimEmptyIffBlank(email);
    EmailRegexMeans(email);
    if Trim(email) == "" then true else EmailRegex(email)
  }

  /** A well-shaped address is never blank. */
  lemma WellShapedNotBlank(s: string)
    ensures WellShapedEmail(s) ==> !IsBlank(s) && Trim(s) != ""
  {
    if WellShapedEmail(s) {
      assert !IsSpace(s[0]);
      TrimEmptyIffBlank(s);
    }
  }

  /** What is left after trimming is blank only when it is empty. */
  lemma TrimmedNotBlank(s: string)
    ensures Trim(s) != "" ==> !IsBlank(Trim(s))
  {
    var t := TrimStart(s);
    if Trim(s) != "" {
      assert Trim(s)[0] == t[0];
    }
  }

  /** `emails[0] || ""` */
  function FirstEmail(emails: seq<string>): (r: string)
    ensures |emails| > 0 ==> r == emails[0]
    ensures |emails| == 0 ==> r == ""
  {
    if |emails| > 0 then emails[0] else ""
  }

  /** `isEmail1Valid`: the first address is filled in and passes validation; "Next" needs it. */
  function IsEmail1Valid(emails: seq<string>): (r: bool)
    ensures r <==> |emails| > 0 && WellShapedEmail(emails[0])
  {
    var first := FirstEmail(emails);
    TrimEmptyIffBlank(first);
    WellShapedNotBlank(first);
    Trim(first) != "" && ValidateEmail(first)
  }

  const RequiredMessage: string := "Email 1 is required"
  const InvalidMessage: string := "Please enter a valid email address"

  /**
   * The message `handleEmailBlur(emailIndex, value)` shows under the field, if any. The value is
   * trimmed before it is checked.
   */
  function BlurMessage(emailIndex: int, value: string): (r: Option<string>)
    ensures r.Some? <==> (emailIndex == 0 && IsBlank(value)) || (!IsBlank(value) && !WellShapedEmail(Trim(value)))
    ensures r.Some? ==> r.value == if IsBlank(value) then RequiredMessage else InvalidMessage
  {
    var trimmed := Trim(value);
    BlurChecks(value);
    if emailIndex == 0 && trimmed == "" then Some(RequiredMessage)
    else if trimmed != "" && !ValidateEmail(trimmed) then Some(InvalidMessage)
    else None
  }

  /** `handleEmailBlur(emailIndex, value)`: the error map after leaving a field. */
  function BlurErrors(errors: map<int, string>, emailIndex: int, value: string): (r: map<int, string>)
    ensures forall k :: k != emailIndex ==> (k in r <==> k in errors)
    ensures forall k :: k != emailIndex && k in errors ==> r[k] == errors[k]
    ensures emailIndex in r <==> BlurMessage(emailIndex, value).Some?
    ensures emailIndex in r ==> r[emailIndex] == BlurMessage(emailIndex, value).value
  {
    match BlurMessage(emailIndex, value)
    case Some(message) => errors[emailIndex := message]
    case None => errors - {emailIndex}
  }

  /** The two checks of `handleEmailBlur` on the trimmed value, in terms of the untrimmed one. */
  lemma BlurChecks(value: string)
    ensures Trim(value) == "" <==> IsBlank(value)
    ensures Trim(value) != "" && !ValidateEmail(Trim(value)) <==> !IsBlank(value) && !WellShapedEmail(Trim(value))
  {
    TrimEmptyIffBlank(value);
    TrimmedNotBlank(value);
  }

  /**
   * For a first address without surrounding whitespace, leaving the field shows no error exactly
   * when "Next" is enabled.
   */
  lemma BlurAgreesWithNext(errors: map<int, string>, emails: seq<string>)
    requires |emails| > 0 && Trim(emails[0]) == emails[0]
    ensures 0 !in BlurErrors(errors, 0, emails[0]) <==> IsEmail1Valid(emails)
  {
    TrimEmptyIffBlank(emails[0]);
    WellShapedNotBlank(emails[0]);
  }

  /**
   * With a trailing space the two checks part ways: leaving the field trims the value and shows
   * no error, while "Next" checks the untrimmed value and stays disabled.
   */
  lemma TrailingSpaceBlocksNext()
    ensures 0 !in BlurErrors(map[], 0, "a@b.c ")
    ensures !IsEmail1Valid(["a@b.c "])
  {
    TrimTrailingSpace();
    ShortAddressWellShaped();
    TrailingSpaceNotWellShaped("a@b.c ");
  }

  lemma TrailingSpaceNotWellShaped(s: string)
    requires s == "a@b.c "
    ensures !WellShapedEmail(s)
  {
    assert IsSpace(s[5]);
  }

  lemma TrimTrailingSpace()
    ensures Trim("a@b.c ") == "a@b.c"
  {
    NoLeadingSpace("a@b.c ");
    DropTrailingSpace("a@b.c ", "a@b.c");
    NoTrailingSpace("a@b.c");
  }

  lemma NoLeadingSpace(s: string)
    requires s == "a@b.c "
    ensures TrimStart(s) == s
  {
    assert !IsSpace(s[0]);
  }

  lemma DropTrailingSpace(s: string, t: string)
    requires s == "a@b.c " && t == "a@b.c"
    ensures TrimEnd(s) == TrimEnd(t)
  {
    assert s[..|s| - 1] == t;
    assert IsSpace(s[|s| - 1]);
  }

  lemma NoTrailingSpace(t: string)
    requires t == "a@b.c"
    ensures TrimEnd(t) == t
  {
    assert !IsSpace(t[|t| - 1]);
  }

  lemma ShortAddressWellShaped()
    ensures WellShapedEmail("a@b.c") && !IsBlank("a@b.c")
  {
    var s := "a@b.c";
    assert s[2..][1] == '.';
    assert HasInnerDot(s[2..]);
    assert OnlyAt(s, 1);
    assert !IsSpace(s[0]);
  }

  // ---------------------------------------------------------------------------------------------
  // Number of people

  /** `parseInt(numberOfPeople) || 1` */
  function CurrentPeople(numberOfPeople: string): int {
    CountOrOne(ParseInt(numberOfPeople))
  }

  /** `decrementPeople`: one fewer, only while more than one. */
  function DecrementPeople(numberOfPeople: string): (r: string)
    ensures CurrentPeople(numberOfPeople) > 1 ==> ParseInt(r) == Some(CurrentPeople(numberOfPeople) - 1)
    ensures CurrentPeople(numberOfPeople) <= 1 ==> r == numberOfPeople
  {
    var current := CurrentPeople(numberOfPeople);
    ParseIntOfIntToString(current - 1);
    if current > 1 then IntToString(current - 1) else numberOfPeople
  }

  /** `incrementPeople`: one more up to nine, then "10+", then nothing. */
  function IncrementPeople(numberOfPeople: string): (r: string)
    ensures CurrentPeople(numberOfPeople) < 9 ==> ParseInt(r) == Some(CurrentPeople(numberOfPeople) + 1)
    ensures CurrentPeople(numberOfPeople) == 9 ==> r == "10+"
    ensures CurrentPeople(numberOfPeople) > 9 ==> r == numberOfPeople
  {
    var current := CurrentPeople(numberOfPeople);
    ParseIntOfIntToString(current + 1);
    if current < 9 then IntToString(current + 1)
    else if current == 9 then "10+"
    else numberOfPeople
  }

  /** `displayPeople` */
  function DisplayPeople(numberOfPeople: string): string {
    if numberOfPeople == "10+" then "10+" else IntToString(CurrentPeople(numberOfPeople))
  }

  /** The values the stepper offers: "1" to "9" and "10+". */
  predicate IsPeopleChoice(s: string) {
    s == "10+" || exists n :: 1 <= n <= 9 && s == IntToString(n)
  }

  lemma TenPlusReadsTen()
    ensures ParseInt("10+") == Some(10)
  {
    TenPlusUnsigned();
    TenPlusDigits();
    TenValue();
  }

  lemma TenPlusUnsigned()
    ensures TrimStart("10+") == "10+" && SignFree("10+") == "10+"
  {
    assert !IsSpace("10+"[0]);
  }

  lemma TenPlusDigits()
    ensures LeadingDigits("10+") == "10"
  {
    assert AllDigits("10") && !IsDigit("+"[0]);
    LeadingDigitsStop("10", "+");
    assert "10" + "+" == "10+";
  }

  lemma TenValue()
    ensures AllDigits("10") && DecimalValue("10") == 10
  {
    assert "10"[..1] == "1" && "1"[..0] == "";
  }

  /** Stepping from n in 1..9 goes to n - 1 (stopping at 1) and to n + 1 (reaching "10+" from 9). */
  lemma PeopleStepsFromNumber(n: int)
    requires 1 <= n <= 9
    ensures DecrementPeople(IntToString(n)) == IntToString(if n > 1 then n - 1 else n)
    ensures IncrementPeople(IntToString(n)) == if n < 9 then IntToString(n + 1) else "10+"
  {
    ParseIntOfIntToString(n);
  }

  /** From "10+" the stepper goes down to "9" and does not go further up. */
  lemma PeopleStepsFromTenPlus()
    ensures DecrementPeople("10+") == "9"
    ensures IncrementPeople("10+") == "10+"
  {
    TenPlusReadsTen();
    assert IntToString(9) == "9";
  }

  /** The steppers never leave the offered values, and each value is shown as itself. */
  lemma PeopleChoicesClosed(s: string)
    requires IsPeopleChoice(s)
    ensures IsPeopleChoice(DecrementPeople(s)) && IsPeopleChoice(IncrementPeople(s))
    ensures DisplayPeople(s) == s
  {
    if s == "10+" {
      PeopleStepsFromTenPlus();
      assert "9" == IntToString(9);
    } else {
      var n :| 1 <= n <= 9 && s == IntToString(n);
      PeopleStepsFromNumber(n);
      ParseIntOfIntToString(n);
      if n > 1 {
        assert IsPeopleChoice(IntToString(n - 1));
      }
      if n < 9 {
        assert IsPeopleChoice(IntToString(n + 1));
      }
    }
  }

  // ---------------------------------------------------------------------------------------------
  // The email fields

  /** The key an error moves to when field `index` is removed. */
  function Shift(k: int, index: int): int {
    if k > index then k - 1 else k
  }

  /** The errors of the keys in `done`, other than `index`, moved to their shifted keys. */
  function ShiftedPart(errors: map<int, string>, index: int, done: set<int>): map<int, string> {
    map k | k in done && k in errors && k != index :: Shift(k, index) := errors[k]
  }

  /** The error map after removing field `index`: each other key moved to its shifted key. */
  function ShiftDown(errors: map<int, string>, index: int): map<int, string> {
    ShiftedPart(errors, index, errors.Keys)
  }

  /**
   * After removing field `index`, the field's own error is gone, errors below it stay where
   * they were, and errors above it move down by one.
   */
  lemma ShiftDownAt(errors: map<int, string>, index: int, j: int)
    ensures j in ShiftDown(errors, index) <==> (j < index && j in errors) || (j >= index && j + 1 in errors)
    ensures j in ShiftDown(errors, index) ==> ShiftDown(errors, index)[j] == if j < index then errors[j] else errors[j + 1]
  {
    if j >= index && j + 1 in errors {
      assert Shift(j + 1, index) == j;
    } else if j < index && j in errors {
      assert Shift(j, index) == j;
    }
  }

  /** Shifting one more key extends the shifted map by that key. */
  lemma ShiftedPartStep(errors: map<int, string>, index: int, done: set<int>, key: int)
    requires key in errors && key != index && key !in done
    ensures ShiftedPart(errors, index, done + {key})
            == ShiftedPart(errors, index, done)[Shift(key, index) := errors[key]]
  {
  }

  /** A set is empty or has a member. */
  lemma EmptyOrHasMember(s: set<int>)
    ensures s == {} || exists x :: x in s
  {
    if forall x :: x !in s {
      assert s == {};
    }
  }

  /** Dropping the removed field's own error first does not change the shifted map. */
  lemma ShiftedPartWithout(errors: map<int, string>, index: int)
    ensures ShiftedPart(errors - {index}, index, (errors - {index}).Keys) == ShiftedPart(errors, index, errors.Keys)
  {
  }

  /**
   * The errors after removing field `index`: its own error is deleted, then every remaining key is
   * visited and copied to its shifted key.
   */
  method ShiftErrors(errors: map<int, string>, index: int) returns (updated: map<int, string>)
    ensures updated == ShiftDown(errors, index)
  {
    var newErrors := errors - {index};
    updated := map[];
    var todo := newErrors.Keys;
    while todo != {}
      invariant todo <= newErrors.Keys
      invariant updated == ShiftedPart(newErrors, index, newErrors.Keys - todo)
      decreases |todo|
    {
      EmptyOrHasMember(todo);
      var key :| key in todo;
      ShiftedPartStep(newErrors, index, newErrors.Keys - todo, key);
      assert newErrors.Keys - (todo - {key}) == (newErrors.Keys - todo) + {key};
      updated := updated[Shift(key, index) := newErrors[key]];
      todo := todo - {key};
    }
    ShiftedPartWithout(errors, index);
  }

  /** The email fields on screen, the error under each, and the people count. */
  class UserInfoForm {
    var emails: seq<string>
    var emailErrors: map<int, string>
    var numberOfEmailFields: int
    var maxNumberOfEmails: int

    constructor (initialEmails: seq<string>, maxEmails: int)
      ensures emails == initialEmails && maxNumberOfEmails == maxEmails
      ensures emailErrors == map[] && numberOfEmailFields == 1
    {
      emails := initialEmails;
      maxNumberOfEmails := maxEmails;
      emailErrors := map[];
      numberOfEmailFields := 1;
    }

    /** `handleEmailChange(index, value)`: pad with empty entries up to `index`, then set it. */
    method EmailChange(index: nat, value: string)
      modifies this`emails
      ensures |emails| == if index < |old(emails)| then |old(emails)| else index + 1
      ensures emails[index] == value
      ensures forall k :: 0 <= k < |emails| && k != index ==>
                emails[k] == if k < |old(emails)| then old(emails)[k] else ""
    {
      var newEmails := emails;
      while |newEmails| <= index
        invariant |emails| <= |newEmails| <= if index < |emails| then |emails| else index + 1
        invariant newEmails[..|emails|] == emails
        invariant forall k :: |emails| <= k < |newEmails| ==> newEmails[k] == ""
        decreases index + 1 - |newEmails|
      {
        newEmails := newEmails + [""];
      }
      newEmails := newEmails[index := value];
      emails := newEmails;
    }

    /** `handleEmailBlur(emailIndex, value)` */
    method EmailBlur(emailIndex: int, value: string)
      modifies this`emailErrors
      ensures emailErrors == BlurErrors(old(emailErrors), emailIndex, value)
    {
      emailErrors := BlurErrors(emailErrors, emailIndex, value);
    }

    /** `addEmailField`: one more field, only while below the limit. */
    method AddEmailField()
      modifies this`numberOfEmailFields
      ensures old(numberOfEmailFields) < maxNumberOfEmails ==> numberOfEmailFields == old(numberOfEmailFields) + 1
      ensures old(numberOfEmailFields) >= maxNumberOfEmails ==> numberOfEmailFields == old(numberOfEmailFields)
    {
      if numberOfEmailFields < maxNumberOfEmails {
        numberOfEmailFields := numberOfEmailFields + 1;
      }
    }

    /**
     * `removeEmailField(index)`: the first field stays; any other is cut out of the list, its
     * error dropped and the errors after it moved down.
     */
    method RemoveEmailField(index: nat)
      modifies this`emails, this`emailErrors, this`numberOfEmailFields
      ensures index == 0 ==> emails == old(emails) && emailErrors == old(emailErrors)
                             && numberOfEmailFields == old(numberOfEmailFields)
      ensures index > 0 ==> emails == (if index < |old(emails)| then old(emails)[..index] + old(emails)[index + 1..] else old(emails))
      ensures index > 0 ==> emailErrors == ShiftDown(old(emailErrors), index)
      ensures index > 0 ==> numberOfEmailFields == old(numberOfEmailFields) - 1
    {
      if index == 0 {
        return;
      }
      var newEmails := if index < |emails| then emails[..index] + emails[index + 1..] else emails;
      var updated := ShiftErrors(emailErrors, index);
      emails := newEmails;
      emailErrors := updated;
      numberOfEmailFields := numberOfEmailFields - 1;
    }
  }
}
