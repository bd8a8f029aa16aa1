/**
 * The behavioral step: ten yes/no questions whose answers are kept in the
 * component's `formData` and, once all are answered, stored for the result
 * step under `"behavioralFormData"`.
 */
module Behavioral {
  import opened Wrappers
  import opened Wire

  const IncompleteMessage := "Please answer all the questions."
  const NextRoute := "/personal-info"

  /** The values each question's select offers besides its empty placeholder: Yes is "1", No is "0". */
  const AnswerOptions: set<string> := {"1", "0"}

  class BehavioralQuestions {
    var formData: Record
    var error: Option<string>

    /** The form starts with the ten fields A1_Score..A10_Score, all unanswered. */
    constructor()
      ensures formData.Keys == ScoreKeySet()
      ensures forall k :: k in formData ==> formData[k] == ""
      ensures error == None
    {
      formData := map k | k in ScoreKeySet() :: "";
      error := None;
    }

    /** `handleChange`: the named field takes the new value; every other field keeps its own. */
    method HandleChange(name: string, value: string)
      modifies this`formData
      ensures formData == old(formData)[name := value]
    {
      formData := formData[name := value];
    }

    /**
     * `handleNext`: all or nothing. An unanswered question sets the error and
     * leaves storage and route alone; otherwise the error is cleared, the
     * answers replace the stored behavioral record and the wizard moves on.
     * After a failure some question is highlighted; after a success none is.
     */
    method HandleNext(storage: Storage) returns (storage': Storage, navigation: Option<string>)
      modifies this`error
      ensures !AllFilled(formData) ==> error == Some(IncompleteMessage) && storage' == storage && navigation == None
      ensures AllFilled(formData) ==> error == None && navigation == Some(NextRoute)
      ensures AllFilled(formData) ==> storage' == storage[BehavioralKey := formData]
      ensures formData.Keys == ScoreKeySet() && !AllFilled(formData) ==>
        exists index :: 0 <= index < 10 && QuestionInvalid(index)
      ensures AllFilled(formData) ==> forall index :: 0 <= index < 10 ==> !QuestionInvalid(index)
    {
      var isValid := AllFilled(formData);
      if !isValid {
        error := Some(IncompleteMessage);
        if formData.Keys == ScoreKeySet() {
          IncompleteHighlightsAQuestion(formData);
          var k :| 1 <= k <= 10 && FieldEmpty(formData, ScoreKey(k));
          assert QuestionInvalid(k - 1);
        }
        return storage, None;
      }
      error := None;
      storage' := storage[BehavioralKey := formData];
      navigation := Some(NextRoute);
    }

    /** `isInvalid` of question `index` (counted from 0): an error is shown and its field is empty. */
    predicate QuestionInvalid(index: nat)
      requires index < 10
      reads this
    {
      error.Some? && FieldEmpty(formData, ScoreKey(index + 1))
    }
  }

  /**
   * When the ten-field form fails the validator, at least one question k
   * (its field A{k}_Score empty) is highlighted; when it passes, none is.
   */
  lemma IncompleteHighlightsAQuestion(formData: Record)
    requires formData.Keys == ScoreKeySet()
    ensures !AllFilled(formData) <==> exists k :: 1 <= k <= 10 && FieldEmpty(formData, ScoreKey(k))
  {
    ScoreKeysDistinct();
    if !AllFilled(formData) {
      var k :| k in formData && formData[k] == "";
      var i :| 1 <= i <= 10 && k == ScoreKey(i);
      assert FieldEmpty(formData, ScoreKey(i));
    }
  }

  /** The validator checks only that answers are non-empty: an answer other than "1" or "0" passes. */
  lemma ValidationIgnoresAnswerDomain()
    ensures exists r: Record :: r.Keys == ScoreKeySet() && AllFilled(r) && exists k :: k in r && r[k] !in AnswerOptions
  {
    var r: Record := map k | k in ScoreKeySet() :: "2";
    assert ScoreKey(1) in ScoreKeySet();
    assert r[ScoreKey(1)] !in AnswerOptions;
  }
}
