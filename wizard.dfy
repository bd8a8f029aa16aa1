/**
 * One pass through the whole application: the home page, both forms typed
 * in field by field, the result page, and the endpoint as written answering
 * its request.
 */
module Wizard {
  import opened Wrappers
  import opened Wire
  import Home
  import Behavioral
  import Personal
  import Result
  import Service

  /** The user types `answers` into the behavioral form, one question after another. */
  method TypeAnswers(form: Behavioral.BehavioralQuestions, answers: Record)
    requires form.formData.Keys == ScoreKeySet() && answers.Keys == ScoreKeySet()
    modifies form`formData
    ensures form.formData == answers
  {
    var i := 0;
    while i < |ScoreKeys|
      invariant 0 <= i <= |ScoreKeys|
      invariant form.formData.Keys == ScoreKeySet()
      invariant forall k :: k in ScoreKeys[..i] ==> form.formData[k] == answers[k]
    {
      assert ScoreKeys[i] in ScoreKeySet();
      form.HandleChange(ScoreKeys[i], answers[ScoreKeys[i]]);
      assert ScoreKeys[..i + 1] == ScoreKeys[..i] + [ScoreKeys[i]];
      i := i + 1;
    }
    assert ScoreKeys[..i] == ScoreKeys;
  }

  /** The user fills in `details` on the personal-info form, one field after another. */
  method TypeDetails(form: Personal.PersonalInfo, details: Record)
    requires form.formData.Keys == PersonalKeySet() && details.Keys == PersonalKeySet()
    modifies form`formData
    ensures form.formData == details
  {
    var i := 0;
    while i < |PersonalKeys|
      invariant 0 <= i <= |PersonalKeys|
      invariant form.formData.Keys == PersonalKeySet()
      invariant forall k :: k in PersonalKeys[..i] ==> form.formData[k] == details[k]
    {
      assert PersonalKeys[i] in PersonalKeySet();
      form.HandleChange(PersonalKeys[i], details[PersonalKeys[i]]);
      assert PersonalKeys[..i + 1] == PersonalKeys[..i] + [PersonalKeys[i]];
      i := i + 1;
    }
    assert PersonalKeys[..i] == PersonalKeys;
  }

  /**
   * Both forms, completely filled in: each stores its record under its own
   * key and sends the user to the next page.
   */
  method FillForms(answers: Record, details: Record, storage: Storage)
    returns (storage': Storage, routes: seq<string>)
    requires answers.Keys == ScoreKeySet() && AllFilled(answers)
    requires details.Keys == PersonalKeySet() && AllFilled(details)
    ensures storage' == storage[BehavioralKey := answers][PersonalKey := details]
    ensures routes == [Behavioral.NextRoute, Personal.NextRoute]
  {
    var questions := new Behavioral.BehavioralQuestions();
    TypeAnswers(questions, answers);
    var afterQuestions, toPersonal := questions.HandleNext(storage);

    var personal := new Personal.PersonalInfo();
    TypeDetails(personal, details);
    var toResult;
    storage', toResult := personal.HandleNext(afterQuestions);
    routes := [toPersonal.value, toResult.value];
  }

  /**
   * The result page over storage holding both records, with the endpoint as
   * written answering and the browser delivering its answer: the request
   * carries the payload of the two records and the page ends on the generic
   * failure alert.
   */
  method ShowResult(storage: Storage) returns (request: Option<Payload>, shown: Result.Body)
    requires BehavioralKey in storage && PersonalKey in storage
    ensures request == Some(Result.BuildPayload(storage[BehavioralKey], storage[PersonalKey]))
    ensures shown == Result.Alert(Result.FetchErrorMessage)
  {
    var payload := Result.BuildPayload(storage[BehavioralKey], storage[PersonalKey]);
    var response := Service.Delivered(Service.Handle(payload));
    Service.StoredAnswersReachHandlerAndFail(storage[BehavioralKey], storage[PersonalKey]);
    var modal := new Result.ResultModal();
    request := modal.Effect(storage, response);
    shown := modal.Shown();
  }

  /**
   * A user with a valid name and age answers every question and fills in
   * every field. The pages move on in order, the request carries exactly
   * the payload of what was typed, and since the endpoint as written fails
   * every such request the result page ends on the generic failure alert.
   */
  method CompleteWizard(name: string, age: string, answers: Record, details: Record, storage: Storage)
    returns (routes: seq<string>, request: Option<Payload>, shown: Result.Body)
    requires Home.NameError(name) == "" && Home.AgeError(age) == ""
    requires answers.Keys == ScoreKeySet() && AllFilled(answers)
    requires details.Keys == PersonalKeySet() && AllFilled(details)
    ensures routes == [Home.NextRoute, Behavioral.NextRoute, Personal.NextRoute]
    ensures request == Some(Result.BuildPayload(answers, details))
    ensures shown == Result.Alert(Result.FetchErrorMessage)
  {
    var home := new Home.HomePage();
    home.SetName(name);
    home.SetAge(age);
    var toQuestions := home.HandleSubmit();
    var filled, formRoutes := FillForms(answers, details, storage);
    assert filled[BehavioralKey] == answers;
    request, shown := ShowResult(filled);
    routes := [toQuestions.value] + formRoutes;
  }
}
