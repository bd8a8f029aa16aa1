/**
 * The personal-info step: eight fields kept in the component's `formData`
 * and, once all are filled, stored for the result step under `"personalInfo"`.
 */
module Personal {
  import opened Wrappers
  import opened Wire

  const IncompleteMessage := "Please fill in all the fields."
  const NextRoute := "/result-modal"

  /** The options of the fields entered through a select, besides the empty placeholder. */
  const GenderOptions: set<string> := {"m", "f"}
  const EthnicityOptions: set<string> := {"White-European", "Asian", "Black", "Hispanic", "Other"}
  const YesNoOptions: set<string> := {"yes", "no"}
  const RelationOptions: set<string> := {"self", "parent", "caregiver", "medical_staff", "relative"}

  /** Every select field of `r` holds one of its options; `age` and `country_of_residence` are typed in. */
  predicate ChosenFromOptions(r: Record) {
    && Field(r, "gender").Some? && r["gender"] in GenderOptions
    && Field(r, "ethnicity").Some? && r["ethnicity"] in EthnicityOptions
    && Field(r, "jaundice").Some? && r["jaundice"] in YesNoOptions
    && Field(r, "autism").Some? && r["autism"] in YesNoOptions
    && Field(r, "used_app_before").Some? && r["used_app_before"] in YesNoOptions
    && Field(r, "relation").Some? && r["relation"] in RelationOptions
  }

  class PersonalInfo {
    var formData: Record
    var error: Option<string>

    /** The form starts with its eight fields, all empty. */
    constructor()
      ensures formData.Keys == PersonalKeySet()
      ensures forall k :: k in formData ==> formData[k] == ""
      ensures error == None
    {
      formData := map k | k in PersonalKeySet() :: "";
      error := None;
    }

    /** `handleChange`: the named field takes the new value; every other field keeps its own. */
    method HandleChange(name: string, value: string)
      modifies this`formData
      ensures formData == old(formData)[name := value]
    {
      formData := formData[name := value];
    }

    /**
     * `handleNext`: all or nothing. An empty field sets the error and leaves
     * storage and route alone; otherwise the error is cleared, the record
     * replaces the stored personal-info record and the wizard moves on.
     * After a failure some control is highlighted; after a success none is.
     */
    method HandleNext(storage: Storage) returns (storage': Storage, navigation: Option<string>)
      modifies this`error
      ensures !AllFilled(formData) ==> error == Some(IncompleteMessage) && storage' == storage && navigation == None
      ensures AllFilled(formData) ==> error == None && navigation == Some(NextRoute)
      ensures AllFilled(formData) ==> storage' == storage[PersonalKey := formData]
      ensures formData.Keys == PersonalKeySet() && !AllFilled(formData) ==>
        exists i :: 0 <= i < 8 && FieldInvalid(PersonalKeys[i])
      ensures AllFilled(formData) ==> forall name :: !FieldInvalid(name)
    {
      var isValid := AllFilled(formData);
      if !isValid {
        error := Some(IncompleteMessage);
        if formData.Keys == PersonalKeySet() {
          IncompleteHighlightsAField(formData);
          var i :| 0 <= i < 8 && FieldEmpty(formData, PersonalKeys[i]);
          assert FieldInvalid(PersonalKeys[i]);
        }
        return storage, None;
      }
      error := None;
      storage' := storage[PersonalKey := formData];
      navigation := Some(NextRoute);
    }

    /** `isInvalid` of the control for field `name`: an error is shown and the field is empty. */
    predicate FieldInvalid(name: string)
      reads this
    {
      error.Some? && FieldEmpty(formData, name)
    }
  }

  /**
   * When the eight-field form fails the validator, at least one of its
   * controls is highlighted; when it passes, none is.
   */
  lemma IncompleteHighlightsAField(formData: Record)
    requires formData.Keys == PersonalKeySet()
    ensures !AllFilled(formData) <==> exists i :: 0 <= i < 8 && FieldEmpty(formData, PersonalKeys[i])
  {
    if !AllFilled(formData) {
      var k :| k in formData && formData[k] == "";
      var i :| 0 <= i < 8 && PersonalKeys[i] == k;
    }
  }

  /** A form whose selects hold options and whose two typed fields are non-empty passes the validator. */
  lemma OptionsPassValidation(r: Record)
    requires r.Keys == PersonalKeySet() && ChosenFromOptions(r)
    requires Field(r, "age") != Some("") && Field(r, "country_of_residence") != Some("")
    ensures AllFilled(r)
  {
    forall k | k in r
      ensures r[k] != ""
    {
      var i :| 0 <= i < 8 && PersonalKeys[i] == k;
    }
  }

  /** The validator checks only that fields are non-empty: a value outside every option set passes. */
  lemma ValidationIgnoresOptions()
    ensures exists r: Record :: r.Keys == PersonalKeySet() && AllFilled(r) && !ChosenFromOptions(r)
  {
    var r: Record := map k | k in PersonalKeySet() :: "x";
    assert "gender" in PersonalKeySet();
    assert r["gender"] !in GenderOptions;
  }
}
