/** The registration form's field record and its validation rule table:
    `validateField`, which rewrites one entry of the error map, and
    `isFormValid`, the conjunction that enables and gates submission. */
module Form {
  import opened JsText

  /** The eleven string fields of the form. */
  datatype FormData = FormData(
    firstName: string, lastName: string, username: string, email: string,
    password: string, phoneCode: string, phoneNumber: string,
    country: string, city: string, pan: string, aadhar: string)

  /** Every field starts empty. */
  const InitialState := FormData("", "", "", "", "", "", "", "", "", "", "")

  /** The record's property names, in its own key order. */
  const FieldNames: seq<string> :=
    ["firstName", "lastName", "username", "email", "password", "phoneCode",
     "phoneNumber", "country", "city", "pan", "aadhar"]

  /** The keys the rules write into the error map: one per field, except that
      `phoneCode` and `phoneNumber` share `phone`. */
  const ErrorKeys: set<string> :=
    {"firstName", "lastName", "username", "email", "password", "phone",
     "country", "city", "pan", "aadhar"}

  /** `name` is one of the record's property names. */
  predicate IsField(name: string) {
    || name == "firstName" || name == "lastName" || name == "username" || name == "email"
    || name == "password" || name == "phoneCode" || name == "phoneNumber"
    || name == "country" || name == "city" || name == "pan" || name == "aadhar"
  }

  /** `d[name]`. */
  function Get(d: FormData, name: string): string
    requires IsField(name)
  {
    if name == "firstName" then d.firstName
    else if name == "lastName" then d.lastName
    else if name == "username" then d.username
    else if name == "email" then d.email
    else if name == "password" then d.password
    else if name == "phoneCode" then d.phoneCode
    else if name == "phoneNumber" then d.phoneNumber
    else if name == "country" then d.country
    else if name == "city" then d.city
    else if name == "pan" then d.pan
    else d.aadhar
  }

  /** `{ ...d, [name]: value }`: `name` now holds `value`, every other field is as it was. */
  function Set(d: FormData, name: string, value: string): (r: FormData)
    requires IsField(name)
    ensures Get(r, name) == value
    ensures forall m | IsField(m) && m != name :: Get(r, m) == Get(d, m)
  {
    if name == "firstName" then d.(firstName := value)
    else if name == "lastName" then d.(lastName := value)
    else if name == "username" then d.(username := value)
    else if name == "email" then d.(email := value)
    else if name == "password" then d.(password := value)
    else if name == "phoneCode" then d.(phoneCode := value)
    else if name == "phoneNumber" then d.(phoneNumber := value)
    else if name == "country" then d.(country := value)
    else if name == "city" then d.(city := value)
    else if name == "pan" then d.(pan := value)
    else d.(aadhar := value)
  }

  /** Writing a field's own value back leaves the record as it was. */
  lemma SetOwnValue(d: FormData, name: string)
    requires IsField(name)
    ensures Set(d, name, Get(d, name)) == d
  {
  }

  /** `Object.entries(d)`: one pair per field, in key order. */
  function Entries(d: FormData): (r: seq<(string, string)>)
    ensures |r| == |FieldNames|
    ensures forall i | 0 <= i < |r| :: r[i] == (FieldNames[i], Get(d, FieldNames[i]))
  {
    [("firstName", d.firstName), ("lastName", d.lastName), ("username", d.username),
     ("email", d.email), ("password", d.password), ("phoneCode", d.phoneCode),
     ("phoneNumber", d.phoneNumber), ("country", d.country), ("city", d.city),
     ("pan", d.pan), ("aadhar", d.aadhar)]
  }

  /** The error-map key that the rule of field `name` writes. */
  function ErrorKey(name: string): (k: string)
    ensures IsField(name) ==> k in ErrorKeys
  {
    if name == "phoneCode" || name == "phoneNumber" then "phone" else name
  }

  /** The message shown when the rule behind error key `key` fails. */
  function Message(key: string): (m: string)
    requires key in ErrorKeys
    ensures m != ""
  {
    if key == "firstName" then "First Name is required"
    else if key == "lastName" then "Last Name is required"
    else if key == "username" then "Username is required"
    else if key == "email" then "Invalid email"
    else if key == "password" then "Min 6 characters"
    else if key == "phone" then "Phone number is required"
    else if key == "country" then "Select a country"
    else if key == "city" then "Select a city"
    else if key == "pan" then "PAN number is required"
    else "Aadhar must be 12 digits"
  }

  /** `\S+` matches `s[lo..hi]`. */
  predicate NonSpaceRun(s: string, lo: int, hi: int) {
    0 <= lo < hi <= |s| && forall m | lo <= m < hi :: !IsSpace(s[m])
  }

  /** `\S+@\S+\.\S+` matches `s[i..j]`, with its `@` at `a` and its `.` at `b`. */
  predicate EmailMatchAt(s: string, i: int, a: int, b: int, j: int) {
    && NonSpaceRun(s, i, a) && a < |s| && s[a] == '@'
    && NonSpaceRun(s, a + 1, b) && b < |s| && s[b] == '.'
    && NonSpaceRun(s, b + 1, j)
  }

  /** `/\S+@\S+\.\S+/.test(s)`: the pattern is not anchored, so some substring of `s` matches. */
  predicate EmailTest(s: string) {
    exists i, a, b, j | 0 <= i < |s| && i < a < |s| && a < b < |s| && b < j <= |s| ::
      EmailMatchAt(s, i, a, b, j)
  }

  /** The same test by two positions only: an `@` right after a non-space character,
      a later `.` right before a non-space character, and between them at least one
      character, none of them space. */
  predicate EmailShape(s: string) {
    exists a, b | 0 < a < |s| && a < b < |s| :: EmailShapeAt(s, a, b)
  }

  predicate EmailShapeAt(s: string, a: int, b: int) {
    && 0 < a && a + 1 < b && b + 1 < |s|
    && s[a] == '@' && s[b] == '.' && !IsSpace(s[a - 1]) && !IsSpace(s[b + 1])
    && NonSpaceRun(s, a + 1, b)
  }

  /** The message the rule of field `name` gives for `value` on the record `data`
      (the right-hand side of each case of `validateField`'s switch), `""` when the
      rule passes. */
  function Verdict(name: string, value: string, data: FormData): string
    requires IsField(name)
  {
    if name == "firstName" then
      if Trim(value) != "" then "" else Message("firstName")
    else if name == "lastName" then
      if Trim(value) != "" then "" else Message("lastName")
    else if name == "username" then
      if Trim(value) != "" then "" else Message("username")
    else if name == "email" then
      if EmailTest(value) then "" else Message("email")
    else if name == "password" then
      if Utf16Length(value) >= 6 then "" else Message("password")
    else if name == "phoneCode" || name == "phoneNumber" then
      if Trim(data.phoneCode) != "" && Trim(data.phoneNumber) != "" then ""
      else Message("phone")
    else if name == "country" then
      if value != "" then "" else Message("country")
    else if name == "city" then
      if value != "" then "" else Message("city")
    else if name == "pan" then
      if Trim(value) != "" then "" else Message("pan")
    else
      if Utf16Length(value) == 12 then "" else Message("aadhar")
  }

  /** `validateField(name, value, data)` applied to the error map `errors`: a copy of
      `errors` in which only the entry of `name`'s rule, its own key or the shared
      `phone`, is (re)written; a name without a rule (the `default` case) leaves the
      map as it was. */
  function ValidateField(errors: map<string, string>, name: string, value: string,
                         data: FormData): (r: map<string, string>)
    ensures !IsField(name) ==> r == errors
    ensures forall k :: k in r <==> k in errors || (IsField(name) && k == ErrorKey(name))
    ensures forall k | k in errors && (!IsField(name) || k != ErrorKey(name)) ::
      r[k] == errors[k]
    ensures IsField(name) ==> r[ErrorKey(name)] == Verdict(name, value, data)
  {
    if IsField(name) then errors[ErrorKey(name) := Verdict(name, value, data)]
    else errors
  }

  /** Every entry of the error map is the empty string. */
  predicate NoErrors(errors: map<string, string>) {
    forall k | k in errors :: errors[k] == ""
  }

  /** `isFormValid()`: the raw, untrimmed field conditions and an error map with no
      message in it. */
  predicate IsFormValid(d: FormData, errors: map<string, string>) {
    && d.firstName != ""
    && d.lastName != ""
    && d.username != ""
    && EmailTest(d.email)
    && Utf16Length(d.password) >= 6
    && d.phoneCode != ""
    && d.phoneNumber != ""
    && d.country != ""
    && d.city != ""
    && d.pan != ""
    && Utf16Length(d.aadhar) == 12
    && NoErrors(errors)
  }

  // ---------------------------------------------------------------------------
  // The rules one by one

  /** `firstName`, `lastName`, `username` and `pan` pass exactly when the value has a
      character other than white space. */
  lemma {:induction false} PresenceRule(errors: map<string, string>, name: string,
                                        value: string, data: FormData)
    requires name == "firstName" || name == "lastName" || name == "username" || name == "pan"
    ensures ValidateField(errors, name, value, data)[name]
         == if HasNonSpace(value) then "" else Message(name)
  {
    TrimNonEmptyIff(value);
  }

  /** `email` passes exactly when some `@` has a non-space character before it and is
      followed by a run of non-space characters, a `.` and a non-space character. */
  lemma EmailRule(errors: map<string, string>, value: string, data: FormData)
    ensures ValidateField(errors, "email", value, data)["email"]
         == if EmailShape(value) then "" else Message("email")
  {
    EmailTestIff(value);
  }

  /** `password` passes exactly when its untrimmed length is at least 6, and `aadhar`
      exactly when it is 12, with no check of what the characters are. */
  lemma LengthRules(errors: map<string, string>, value: string, data: FormData)
    requires InBmp(value)
    ensures ValidateField(errors, "password", value, data)["password"] == ""
        <==> |value| >= 6
    ensures ValidateField(errors, "aadhar", value, data)["aadhar"] == ""
        <==> |value| == 12
  {
    Utf16LengthBounds(value);
  }

  /** The shared `phone` entry ignores the value passed in: it passes exactly when both
      phone fields of the record have a non-space character, whichever of them is
      being validated. */
  lemma PhoneRule(errors: map<string, string>, name: string, value: string, data: FormData)
    requires name == "phoneCode" || name == "phoneNumber"
    ensures ValidateField(errors, name, value, data)["phone"]
         == if HasNonSpace(data.phoneCode) && HasNonSpace(data.phoneNumber) then ""
            else Message("phone")
  {
    TrimNonEmptyIff(data.phoneCode);
    TrimNonEmptyIff(data.phoneNumber);
  }

  /** `country` and `city` pass exactly when something is selected; the city is not
      checked against the country's list. */
  lemma SelectionRule(errors: map<string, string>, name: string, value: string,
                      data: FormData)
    requires name == "country" || name == "city"
    ensures ValidateField(errors, name, value, data)[name] == "" <==> value != ""
  {
  }

  /** Matching `\S+@\S+\.\S+` anywhere in `s` needs only one non-space character
      before the `@` and one after the `.`. */
  lemma EmailTestIff(s: string)
    ensures EmailTest(s) <==> EmailShape(s)
  {
    if EmailTest(s) {
      EmailTestGivesShape(s);
    }
    if EmailShape(s) {
      EmailShapeGivesTest(s);
    }
  }

  lemma EmailShapeGivesTest(s: string)
    requires EmailShape(s)
    ensures EmailTest(s)
  {
    var a, b :| 0 < a < |s| && a < b < |s| && EmailShapeAt(s, a, b);
    assert NonSpaceRun(s, a - 1, a);
    assert NonSpaceRun(s, b + 1, b + 2);
    assert EmailMatchAt(s, a - 1, a, b, b + 2);
  }

  lemma EmailTestGivesShape(s: string)
    requires EmailTest(s)
    ensures EmailShape(s)
  {
    var i, a, b, j :| 0 <= i < |s| && i < a < |s| && a < b < |s| && b < j <= |s|
                      && EmailMatchAt(s, i, a, b, j);
    assert !IsSpace(s[a - 1]) by { assert i <= a - 1 < a; }
    assert !IsSpace(s[b + 1]) by { assert b + 1 <= b + 1 < j; }
    assert EmailShapeAt(s, a, b);
  }

  /** The address of the complete registration passes; one without a `.` after
      the `@`, or with nothing before the `@`, does not; the test is unanchored. */
  lemma EmailAccepts()
    ensures EmailTest("a@b.co")
    ensures EmailTest("my mail: ann@lee.org, please")
  {
    assert EmailMatchAt("a@b.co", 0, 1, 3, 6);
    var s := "my mail: ann@lee.org, please";
    assert EmailMatchAt(s, 9, 12, 16, 20);
  }

  /** Without a `.`, or with no `@` after the first character, nothing matches. */
  lemma EmailNeedsDotAndAt(s: string)
    requires (forall k | 0 <= k < |s| :: s[k] != '.') || (forall k | 0 < k < |s| :: s[k] != '@')
    ensures !EmailTest(s)
  {
  }

  lemma EmailRejects()
    ensures !EmailTest("a@b")
    ensures !EmailTest("@b.co")
  {
    EmailNeedsDotAndAt("a@b");
    EmailNeedsDotAndAt("@b.co");
  }

  // ---------------------------------------------------------------------------
  // The rule table against the submit gate

  /** The rule of a field other than the phone pair reads only the value it is given;
      the phone rule reads only the record's two phone fields. */
  lemma VerdictReads(name: string, value: string, d1: FormData, d2: FormData)
    requires IsField(name)
    requires ErrorKey(name) == "phone" ==>
      d1.phoneCode == d2.phoneCode && d1.phoneNumber == d2.phoneNumber
    ensures Verdict(name, value, d1) == Verdict(name, value, d2)
    ensures ErrorKey(name) == "phone" ==> Verdict(name, value, d1) == Verdict("phoneCode", "", d1)
  {
  }

  /** The record's entry for `name` agrees with the error map: once the rule has run
      its entry is the rule's verdict on the current record, and until then the
      field still holds its initial empty value. */
  predicate Agrees(d: FormData, errors: map<string, string>, name: string)
    requires IsField(name)
  {
    if ErrorKey(name) in errors then errors[ErrorKey(name)] == Verdict(name, Get(d, name), d)
    else Get(d, name) == ""
  }

  /** What holds of every state the form reaches from its initial one by field
      changes: the error map holds only the rules' keys, and every field agrees
      with it. */
  ghost predicate Consistent(d: FormData, errors: map<string, string>) {
    && errors.Keys <= ErrorKeys
    && forall name | IsField(name) :: Agrees(d, errors, name)
  }

  /** Every field's rule passes on the record. */
  ghost predicate AllRulesPass(d: FormData) {
    forall name | IsField(name) :: Verdict(name, Get(d, name), d) == ""
  }

  lemma InitialConsistent()
    ensures Consistent(InitialState, map[])
  {
  }

  /** A field change, `{ ...d, [name]: value }` followed by `validateField` on the
      updated record, keeps the record and the error map consistent. */
  lemma {:induction false} ChangeKeepsConsistent(d: FormData, errors: map<string, string>,
                                                 name: string, value: string)
    requires Consistent(d, errors) && IsField(name)
    ensures var d' := Set(d, name, value);
      Consistent(d', ValidateField(errors, name, value, d'))
  {
    var d' := Set(d, name, value);
    var e' := ValidateField(errors, name, value, d');
    forall f | IsField(f) ensures Agrees(d', e', f) {
      assert Agrees(d, errors, f);
      if ErrorKey(f) == ErrorKey(name) {
        if f != name {
          VerdictReads(f, Get(d', f), d', d');
          VerdictReads(name, value, d', d');
        } else {
          assert Get(d', f) == value;
        }
      } else {
        assert f != name && Get(d', f) == Get(d, f);
        if ErrorKey(f) == "phone" {
          assert Get(d', "phoneCode") == Get(d, "phoneCode");
          assert Get(d', "phoneNumber") == Get(d, "phoneNumber");
        }
        VerdictReads(f, Get(d, f), d', d);
      }
    }
  }

  /** A submit's run of `validateField` on a field's current value, from a consistent
      state, gives an error map that is consistent with the record again. */
  lemma SubmitRunKeepsConsistent(d: FormData, errors: map<string, string>, name: string)
    requires Consistent(d, errors) && IsField(name)
    ensures Consistent(d, ValidateField(errors, name, Get(d, name), d))
  {
    SetOwnValue(d, name);
    ChangeKeepsConsistent(d, errors, name, Get(d, name));
  }

  /** Every run of a submit's re-validation, from a consistent state, gives an error
      map consistent with the record. */
  lemma SubmitRunsKeepConsistent(d: FormData, errors: map<string, string>)
    requires Consistent(d, errors)
    ensures forall i | 0 <= i < |FieldNames| ::
      Consistent(d, ValidateField(errors, FieldNames[i], Get(d, FieldNames[i]), d))
  {
    forall i | 0 <= i < |FieldNames|
      ensures Consistent(d, ValidateField(errors, FieldNames[i], Get(d, FieldNames[i]), d))
    {
      SubmitRunKeepsConsistent(d, errors, FieldNames[i]);
    }
  }

  /** On every consistent state, `isFormValid` holds exactly when every field's rule
      passes: the untrimmed conjuncts never let through a value that `validateField`
      rejects, because the rule's message is in the error map by then. */
  lemma {:induction false} GateMatchesRules(d: FormData, errors: map<string, string>)
    requires Consistent(d, errors)
    ensures IsFormValid(d, errors) <==> AllRulesPass(d)
  {
    if IsFormValid(d, errors) {
      forall name | IsField(name) ensures Verdict(name, Get(d, name), d) == "" {
        assert Agrees(d, errors, name);
        assert Get(d, name) != "" by {
          if name == "email" {
            assert EmailTest(d.email);
          }
        }
      }
    }
    if AllRulesPass(d) {
      RulesPassGivesRawConditions(d);
      forall k | k in errors ensures errors[k] == "" {
        var name := if k == "phone" then "phoneCode" else k;
        assert IsField(name) && ErrorKey(name) == k;
        assert Agrees(d, errors, name);
        assert Verdict(name, Get(d, name), d) == "";
      }
    }
  }

  /** When every rule passes, so do the untrimmed conditions of `isFormValid`. */
  lemma RulesPassGivesRawConditions(d: FormData)
    requires AllRulesPass(d)
    ensures d.firstName != "" && d.lastName != "" && d.username != ""
    ensures EmailTest(d.email) && Utf16Length(d.password) >= 6
    ensures d.phoneCode != "" && d.phoneNumber != "" && d.country != "" && d.city != ""
    ensures d.pan != "" && Utf16Length(d.aadhar) == 12
  {
    PresenceFieldsNonEmpty(d);
    assert Verdict("email", Get(d, "email"), d) == "";
    assert Verdict("password", Get(d, "password"), d) == "";
    assert Verdict("country", Get(d, "country"), d) == "";
    assert Verdict("city", Get(d, "city"), d) == "";
    assert Verdict("aadhar", Get(d, "aadhar"), d) == "";
  }

  /** Fields whose rule trims are not empty when the rule passes. */
  lemma PresenceFieldsNonEmpty(d: FormData)
    requires AllRulesPass(d)
    ensures d.firstName != "" && d.lastName != "" && d.username != "" && d.pan != ""
    ensures d.phoneCode != "" && d.phoneNumber != ""
  {
    assert Verdict("firstName", Get(d, "firstName"), d) == "";
    assert Verdict("lastName", Get(d, "lastName"), d) == "";
    assert Verdict("username", Get(d, "username"), d) == "";
    assert Verdict("pan", Get(d, "pan"), d) == "";
    assert Verdict("phoneCode", Get(d, "phoneCode"), d) == "";
    TrimmedNonEmpty(d.firstName);
    TrimmedNonEmpty(d.lastName);
    TrimmedNonEmpty(d.username);
    TrimmedNonEmpty(d.pan);
    TrimmedNonEmpty(d.phoneCode);
    TrimmedNonEmpty(d.phoneNumber);
  }

  lemma TrimmedNonEmpty(s: string)
    ensures Trim(s) != "" ==> s != ""
  {
    TrimSpec(s);
  }

  /** `isFormValid` does not trim: a first name made only of white space satisfies
      its conjunct, so a record that passes `isFormValid` with an empty error map
      still does with such a name, while `validateField` rejects the name. On a
      consistent state the two agree again: the error map then holds the rule's
      message for the name, and `isFormValid` fails. */
  lemma BlankNameDivergence(s: string, d: FormData)
    requires s != "" && AllSpace(s)
    requires IsFormValid(d, map[])
    ensures IsFormValid(d.(firstName := s), map[])
    ensures Verdict("firstName", s, d) == Message("firstName")
    ensures forall e | Consistent(d.(firstName := s), e) ::
      && "firstName" in e && e["firstName"] == Message("firstName")
      && !IsFormValid(d.(firstName := s), e)
  {
    TrimSpec(s);
    var d' := d.(firstName := s);
    assert Get(d', "firstName") == s;
    forall e | Consistent(d', e)
      ensures "firstName" in e && e["firstName"] == Message("firstName")
      ensures !IsFormValid(d', e)
    {
      assert Agrees(d', e, "firstName");
      GateMatchesRules(d', e);
    }
  }

  /** The complete registration with a first name of one blank is such a record. */
  lemma BlankNameExample()
    ensures IsFormValid(BlankNameRecord, map[])
    ensures Verdict("firstName", " ", ExampleRecord) == "First Name is required"
    ensures forall e | Consistent(BlankNameRecord, e) :: !IsFormValid(BlankNameRecord, e)
  {
    ExampleGate();
    assert AllSpace(" ");
    BlankNameDivergence(" ", ExampleRecord);
  }

  /** With an empty error map, the complete registration passes `isFormValid`. */
  lemma ExampleGate()
    ensures IsFormValid(ExampleRecord, map[])
  {
    ExampleEmail();
    ExampleLengths();
  }

  /** A complete registration: every field filled in. */
  const ExampleRecord :=
    FormData("Ann", "Lee", "annlee", "a@b.co", "secret1", "+1", "5551234",
             "India", "Mumbai", "ABCDE1234F", "123456789012")

  /** The complete registration with a first name of one blank. */
  const BlankNameRecord := ExampleRecord.(firstName := " ")

  lemma ExampleEmail()
    ensures EmailTest(ExampleRecord.email)
  {
    EmailAccepts();
  }

  lemma ExampleLengths()
    ensures Utf16Length(ExampleRecord.password) == 7
    ensures Utf16Length(ExampleRecord.aadhar) == 12
  {
  }

  lemma ExampleFilled()
    ensures Trim(ExampleRecord.firstName) != "" && Trim(ExampleRecord.lastName) != ""
    ensures Trim(ExampleRecord.username) != "" && Trim(ExampleRecord.pan) != ""
    ensures Trim(ExampleRecord.phoneCode) != "" && Trim(ExampleRecord.phoneNumber) != ""
  {
  }

  /** The complete registration passes every rule. */
  lemma ExampleRecordPasses()
    ensures AllRulesPass(ExampleRecord)
  {
    ExampleEmail();
    ExampleLengths();
    ExampleFilled();
  }

  /** `isFormValid` holds on the complete registration with any consistent error map. */
  lemma ExampleRecordAccepted(errors: map<string, string>)
    requires Consistent(ExampleRecord, errors)
    ensures IsFormValid(ExampleRecord, errors)
  {
    ExampleRecordPasses();
    GateMatchesRules(ExampleRecord, errors);
  }

  /** An Aadhar number of five characters is rejected by its rule and by `isFormValid`,
      whatever the rest of the record and the error map. */
  lemma ShortAadharRejected(d: FormData, errors: map<string, string>)
    requires d.aadhar == "12345"
    ensures ValidateField(errors, "aadhar", d.aadhar, d)["aadhar"] == "Aadhar must be 12 digits"
    ensures !IsFormValid(d, errors)
  {
    assert InBmp(d.aadhar);
    Utf16LengthBounds(d.aadhar);
  }
}
