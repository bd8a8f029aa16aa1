/**
 * The home page: the name and age the user types, and the submit handler
 * that validates both before the wizard starts.
 */
module Home {
  import opened Wrappers
  import Numbers

  const NameRequired := "Name is required."
  const NameInvalid := "Name should be valid!!"
  const AgeRequired := "Age is required."
  const AgeInvalid := "Please enter a valid age!!"
  const NextRoute := "/behavioral-questions"

  /**
   * The age test of the submit handler: `isNaN(age) || age < 18 || age > 100`
   * fails. Both `isNaN` and the comparisons convert the text with `Number`.
   */
  predicate AgeInRange(age: string) {
    match Numbers.StringToNumber(age)
    case Some(v) => 18.0 <= v <= 100.0
    case None => false
  }

  /** The message the name check leaves: none for a name of four characters or more. */
  function NameError(name: string): (e: string)
    ensures e == "" <==> |name| >= 4
    ensures e != "" ==> e == (if name == "" then NameRequired else NameInvalid)
  {
    if name == "" then NameRequired
    else if |name| < 4 then NameInvalid
    else ""
  }

  /** The message the age check leaves: none for a number from 18 to 100. */
  function AgeError(age: string): (e: string)
    ensures e == "" <==> age != "" && AgeInRange(age)
    ensures e != "" ==> e == (if age == "" then AgeRequired else AgeInvalid)
  {
    if age == "" then AgeRequired
    else if !AgeInRange(age) then AgeInvalid
    else ""
  }

  class HomePage {
    var name: string
    var age: string
    var nameError: string
    var ageError: string

    /** Both inputs start empty and no error is shown. */
    constructor()
      ensures name == "" && age == "" && nameError == "" && ageError == ""
    {
      name, age := "", "";
      nameError, ageError := "", "";
    }

    /** The `onChange` of the name input. */
    method SetName(value: string)
      modifies this`name
      ensures name == value
    {
      name := value;
    }

    /** The `onChange` of the age input. */
    method SetAge(value: string)
      modifies this`age
      ensures age == value
    {
      age := value;
    }

    /**
     * `handleSubmit`: both errors are reset, then each check sets its own
     * message; the wizard moves on only when neither check failed. The
     * inputs themselves are left as typed.
     */
    method HandleSubmit() returns (navigation: Option<string>)
      modifies this`nameError, this`ageError
      ensures nameError == NameError(name) && ageError == AgeError(age)
      ensures navigation == Some(NextRoute) <==> nameError == "" && ageError == ""
      ensures navigation.Some? ==> navigation == Some(NextRoute)
    {
      nameError := "";
      ageError := "";
      var valid := true;
      if name == "" {
        nameError := NameRequired;
        valid := false;
      } else if |name| < 4 {
        nameError := NameInvalid;
        valid := false;
      }
      if age == "" {
        ageError := AgeRequired;
        valid := false;
      } else if !AgeInRange(age) {
        ageError := AgeInvalid;
        valid := false;
      }
      navigation := if valid then Some(NextRoute) else None;
    }
  }

  /** A whole age typed in decimal is accepted exactly from 18 to 100. */
  lemma WholeAgesAccepted(n: nat)
    ensures AgeError(Numbers.DecimalString(n)) == "" <==> 18 <= n <= 100
  {
    Numbers.DecimalNumber(n);
  }

  /** The edges of the range: 18 and 100 pass, 17 and 101 do not. */
  lemma AgeBoundaries()
    ensures AgeError(Numbers.DecimalString(18)) == ""
    ensures AgeError(Numbers.DecimalString(100)) == ""
    ensures AgeError(Numbers.DecimalString(17)) == AgeInvalid
    ensures AgeError(Numbers.DecimalString(101)) == AgeInvalid
  {
    WholeAgesAccepted(18);
    WholeAgesAccepted(100);
    WholeAgesAccepted(17);
    WholeAgesAccepted(101);
  }
}
