/** The form component's state, its record and its error map, and the two event
    handlers that change or read it. */
module FormComponent {
  import opened Form
  import Success

  /** What a submit leads to: to the success page, with the record's entries as the
      router state, or nowhere. */
  datatype Outcome = Navigate(payload: seq<(string, string)>) | Stay

  class FormState {
    var data: FormData
    var errors: map<string, string>

    /** The state is one the form reaches from its initial state. */
    ghost predicate Valid()
      reads this
    {
      Consistent(data, errors)
    }

    /** Every field empty and no entry in the error map. */
    constructor ()
      ensures data == InitialState && errors == map[]
      ensures Valid()
    {
      data := InitialState;
      errors := map[];
      InitialConsistent();
    }

    /** `handleChange`: the input named `name` now reads `value`. The record is
        updated first and the field's rule then runs on the updated record, so the
        phone rule sees the new value. */
    method HandleChange(name: string, value: string)
      requires IsField(name)
      requires Valid()
      modifies this
      ensures data == Set(old(data), name, value)
      ensures errors == ValidateField(old(errors), name, value, data)
      ensures Valid()
    {
      var updated := Set(data, name, value);
      ChangeKeepsConsistent(data, errors, name, value);
      errors := ValidateField(errors, name, value, updated);
      data := updated;
    }

    /** `handleSubmit`: runs `validateField` on every key of the record, in key
        order, each run starting from the same snapshot of the error map, and
        returns the maps so produced; whether the form navigates is decided by
        `isFormValid` on the state as it was before the submit. On a reachable
        state that decision is exactly "every rule passes". */
    method HandleSubmit() returns (updates: seq<map<string, string>>, outcome: Outcome)
      ensures |updates| == |FieldNames|
      ensures forall i | 0 <= i < |FieldNames| ::
        updates[i] == ValidateField(errors, FieldNames[i], Get(data, FieldNames[i]), data)
      ensures outcome == if IsFormValid(data, errors) then Navigate(Entries(data)) else Stay
      ensures Valid() ==> (outcome.Navigate? <==> AllRulesPass(data))
      ensures Valid() ==> forall i | 0 <= i < |updates| :: Consistent(data, updates[i])
    {
      var entries := Entries(data);
      updates := [];
      for i := 0 to |entries|
        invariant |updates| == i
        invariant forall j | 0 <= j < i ::
          updates[j] == ValidateField(errors, entries[j].0, entries[j].1, data)
      {
        var (key, value) := entries[i];
        updates := updates + [ValidateField(errors, key, value, data)];
      }
      if IsFormValid(data, errors) {
        outcome := Navigate(entries);
      } else {
        outcome := Stay;
      }
      if Valid() {
        GateMatchesRules(data, errors);
        SubmitRunsKeepConsistent(data, errors);
      }
    }
  }

  /** A submit never asks for navigation with anything but the record: the success
      page then lists one item per field, in key order, whose title gives back the
      key and whose value is the field's value. */
  lemma SubmittedListing(d: FormData)
    ensures var page := Success.Render(Success.Some(Entries(d)));
      && page.Listing? && |page.items| == |FieldNames|
      && forall i | 0 <= i < |FieldNames| ::
           Success.Unlabel(page.items[i].title) == FieldNames[i]
           && page.items[i].value == Get(d, FieldNames[i])
  {
    Success.ListingMatchesRecord(Entries(d));
  }

  /** Types the first half of the complete registration into `form`, field by field. */
  method FillInAccount(form: FormState)
    requires form.Valid()
    modifies form
    ensures form.Valid()
    ensures form.data == old(form.data).(firstName := "Ann", lastName := "Lee",
      username := "annlee", email := "a@b.co", password := "secret1")
  {
    form.HandleChange("firstName", "Ann");
    form.HandleChange("lastName", "Lee");
    form.HandleChange("username", "annlee");
    form.HandleChange("email", "a@b.co");
    form.HandleChange("password", "secret1");
  }

  /** Types the second half of the example registration into `form`. */
  method FillInContact(form: FormState)
    requires form.Valid()
    modifies form
    ensures form.Valid()
    ensures form.data == old(form.data).(phoneCode := "+1", phoneNumber := "5551234",
      country := "India", city := "Mumbai", pan := "ABCDE1234F", aadhar := "123456789012")
  {
    form.HandleChange("phoneCode", "+1");
    form.HandleChange("phoneNumber", "5551234");
    form.HandleChange("country", "India");
    form.HandleChange("city", "Mumbai");
    form.HandleChange("pan", "ABCDE1234F");
    form.HandleChange("aadhar", "123456789012");
  }

  /** Filling in the complete registration and submitting it navigates with exactly
      its eleven entries. */
  method ExampleRegistration() returns (outcome: Outcome)
    ensures outcome == Navigate(Entries(ExampleRecord))
  {
    var form := new FormState();
    FillInAccount(form);
    FillInContact(form);
    assert form.data == ExampleRecord;
    ExampleRecordAccepted(form.errors);
    var updates;
    updates, outcome := form.HandleSubmit();
  }

  /** Submitting a form whose Aadhar number has five characters stays on the form,
      and the submit's run of the Aadhar rule carries its message while leaving
      every other entry of the error map as it was. */
  method ShortAadharSubmission(form: FormState)
      returns (updates: seq<map<string, string>>, outcome: Outcome)
    requires form.data.aadhar == "12345"
    ensures outcome == Stay
    ensures |updates| == |FieldNames|
    ensures updates[10] == ValidateField(form.errors, "aadhar", form.data.aadhar, form.data)
    ensures updates[10]["aadhar"] == "Aadhar must be 12 digits"
    ensures forall k | k in form.errors && k != "aadhar" :: updates[10][k] == form.errors[k]
  {
    ShortAadharRejected(form.data, form.errors);
    updates, outcome := form.HandleSubmit();
    assert FieldNames[10] == "aadhar";
  }

  /** Choosing another country after a city leaves the city and its error entry as
      they were: the city is not validated again until it is changed itself. */
  method CountryChangeAfterCity() returns (country: string, city: string, cityError: string)
    ensures country == "B" && city == "X" && cityError == ""
  {
    var form := new FormState();
    form.HandleChange("country", "A");
    form.HandleChange("city", "X");
    form.HandleChange("country", "B");
    country, city, cityError := form.data.country, form.data.city, form.errors["city"];
  }
}
