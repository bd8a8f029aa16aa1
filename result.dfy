/**
 * The result step: reads both stored records, normalises them into the
 * eighteen-field request body, and turns the outcome of the prediction
 * request into the message the modal shows.
 */
module Result {
  import opened Wrappers
  import opened Wire
  import Numbers
  import Text

  /** The two failure messages the modal can show. */
  const NotFoundMessage := "Required form data " + "not found" + ". Please complete both forms."
  const FetchErrorMessage := "An " + "error" + " occurred while fetching the prediction."

  /**
   * `isNaN(parseInt(b[`A${i}_Score`], 10)) ? 0 : parseInt(...)`. A missing
   * property is `undefined`, which `parseInt` reads as the text "undefined".
   */
  function ScoreOf(b: Record, i: Question): int {
    Numbers.ParseInt(Field(b, ScoreKey(i)).GetOr("undefined")).GetOr(0)
  }

  /** The converted behavioral data as a function of the stored answers. */
  function Scores(b: Record): (scores: Payload)
    ensures scores.Keys == ScoreFieldSet()
  {
    map k | k in ScoreFieldSet() :: Int(ScoreOf(b, k.q))
  }

  /** The `for` loop filling `convertedBehavioralData`, question 1 to question 10. */
  method ConvertScores(b: Record) returns (converted: Payload)
    ensures converted == Scores(b)
  {
    converted := map[];
    var i: nat := 1;
    while i <= 10
      invariant 1 <= i <= 11
      invariant converted.Keys == set n: nat | 1 <= n < i :: Score(n)
      invariant forall n: nat :: 1 <= n < i ==> converted[Score(n)] == Int(ScoreOf(b, n))
    {
      var key := ScoreKey(i);
      var score := Numbers.ParseInt(Field(b, key).GetOr("undefined"));
      converted := converted[Score(i) := Int(if score.None? then 0 else score.value)];
      i := i + 1;
    }
  }

  /** `personalInfo[key] || ""`: a missing or empty property becomes "". */
  function TextOrEmpty(p: Record, key: string): string {
    Field(p, key).GetOr("")
  }

  /** `personalInfo[key] === "yes"`: a strict, case-sensitive comparison. */
  function IsYes(p: Record, key: string): bool {
    Field(p, key) == Some("yes")
  }

  /** `isNaN(parseFloat(personalInfo.age)) ? 0 : parseFloat(personalInfo.age)`. */
  function AgeOf(p: Record): real {
    Numbers.ParseFloat(Field(p, "age").GetOr("undefined")).GetOr(0.0)
  }

  /** The `relation` rule: "self" is sent as "parent"; a missing or empty value as "". */
  function RelationOf(p: Record): string {
    if Field(p, "relation") == Some("self") then "parent" else TextOrEmpty(p, "relation")
  }

  /** The initializer of property `k` in `mappedPersonalInfo`. */
  function PersonalValue(p: Record, k: Key): Value
    requires k in PersonalFieldSet()
  {
    match k
    case Score(_) => assert false; Int(0)
    case Age => Num(AgeOf(p))
    case Gender => Str(TextOrEmpty(p, "gender"))
    case Ethnicity => Str(TextOrEmpty(p, "ethnicity"))
    case Jaundice => Bool(IsYes(p, "jaundice"))
    case Autism => Bool(IsYes(p, "autism"))
    case CountryOfResidence => Str(TextOrEmpty(p, "country_of_residence"))
    case UsedAppBefore => Bool(IsYes(p, "used_app_before"))
    case Relation => Str(RelationOf(p))
  }

  /** `mappedPersonalInfo`: the eight personal fields with the types the service expects. */
  function MapPersonalInfo(p: Record): (m: Payload)
    ensures m.Keys == PersonalFieldSet()
  {
    map k | k in PersonalFieldSet() :: PersonalValue(p, k)
  }

  /** `{...convertedBehavioralData, ...mappedPersonalInfo}`: on a shared key the second wins. */
  function BuildPayload(b: Record, p: Record): (payload: Payload)
    ensures payload.Keys == ScoreFieldSet() + PersonalFieldSet()
  {
    Scores(b) + MapPersonalInfo(p)
  }

  /**
   * Whatever the stored records hold, the payload has exactly the eighteen
   * fields of the backend's request model, each of its declared type.
   */
  lemma PayloadConforms(b: Record, p: Record)
    ensures Conforms(BuildPayload(b, p))
    ensures |BuildPayload(b, p)| == 18
  {
    PayloadKeys(b, p);
    PayloadTyped(b, p);
  }

  lemma PayloadKeys(b: Record, p: Record)
    ensures BuildPayload(b, p).Keys == RequestKeySet()
    ensures |BuildPayload(b, p)| == 18
  {
    RequestKeysDistinct();
  }

  lemma PayloadTyped(b: Record, p: Record)
    ensures forall k :: k in BuildPayload(b, p) ==> HasType(BuildPayload(b, p)[k], TypeOf(k))
  {
    var payload := BuildPayload(b, p);
    MergeKeepsBoth(b, p);
    forall k | k in payload
      ensures HasType(payload[k], TypeOf(k))
    {
      if k !in Scores(b) {
        assert k in MapPersonalInfo(p);
      }
    }
  }

  /**
   * The spread overwrites nothing: the two halves have no key in common, so
   * every score and every personal field arrives as it was converted.
   */
  lemma MergeKeepsBoth(b: Record, p: Record)
    ensures Scores(b).Keys !! MapPersonalInfo(p).Keys
    ensures forall k :: k in Scores(b) ==> BuildPayload(b, p)[k] == Scores(b)[k]
    ensures forall k :: k in MapPersonalInfo(p) ==> BuildPayload(b, p)[k] == MapPersonalInfo(p)[k]
  {
    assert ScoreFieldSet() !! PersonalFieldSet();
  }

  /**
   * Field A{i}_Score carries the integer `parseInt` reads from the stored
   * answer, and 0 when the answer is missing or has no digit after an optional sign.
   */
  lemma ScoreField(b: Record, p: Record, i: Question)
    ensures Score(i) in BuildPayload(b, p)
    ensures Field(b, ScoreKey(i)).None? ==> BuildPayload(b, p)[Score(i)] == Int(0)
    ensures Field(b, ScoreKey(i)).Some? ==>
      BuildPayload(b, p)[Score(i)] == Int(Numbers.ParseInt(b[ScoreKey(i)]).GetOr(0))
  {
    assert Score(i) !in PersonalFieldSet();
    assert Score(i) in Scores(b);
    if Field(b, ScoreKey(i)).None? {
      Numbers.NotANumber("undefined");
    }
  }

  /** The answers the select offers arrive as 1 (Yes) and 0 (No); an empty answer as 0. */
  lemma ScoreFromOption(b: Record, p: Record, i: Question)
    ensures Field(b, ScoreKey(i)) == Some("1") ==> BuildPayload(b, p)[Score(i)] == Int(1)
    ensures Field(b, ScoreKey(i)) == Some("0") ==> BuildPayload(b, p)[Score(i)] == Int(0)
    ensures Field(b, ScoreKey(i)) == Some("") ==> BuildPayload(b, p)[Score(i)] == Int(0)
  {
    ScoreField(b, p, i);
    Numbers.ParseIntDecimal(1, []);
    Numbers.ParseIntDecimal(0, []);
    assert Numbers.DecimalString(1) + [] == "1";
    assert Numbers.DecimalString(0) + [] == "0";
  }

  /** `age` carries the number `parseFloat` reads, and 0 when there is none. */
  lemma AgeField(b: Record, p: Record)
    ensures Field(p, "age").Some? && Numbers.ParseFloat(p["age"]).Some? ==>
      BuildPayload(b, p)[Age] == Num(Numbers.ParseFloat(p["age"]).value)
    ensures Field(p, "age").None? || Numbers.ParseFloat(p["age"]).None? ==>
      BuildPayload(b, p)[Age] == Num(0.0)
  {
    assert Age in PersonalFieldSet();
    assert Age !in Scores(b);
    if Field(p, "age").None? {
      Numbers.NotANumber("undefined");
    }
  }

  /**
   * The three yes/no fields are true exactly for the stored text "yes";
   * "no", "", "YES" and a missing field all give false.
   */
  lemma YesNoFields(b: Record, p: Record, key: Key)
    requires key in {Jaundice, Autism, UsedAppBefore}
    ensures BuildPayload(b, p)[key] == Bool(true) <==> Field(p, Name(key)) == Some("yes")
    ensures BuildPayload(b, p)[key] == Bool(false) <==> Field(p, Name(key)) != Some("yes")
  {
    assert key in PersonalFieldSet();
    assert key !in Scores(b);
  }

  /**
   * `relation` "self" is sent as "parent"; any other non-empty value is sent
   * unchanged; missing or empty, it is "". The service never receives "self".
   */
  lemma RelationField(b: Record, p: Record)
    ensures Field(p, "relation") == Some("self") ==> BuildPayload(b, p)[Relation] == Str("parent")
    ensures Field(p, "relation").Some? && p["relation"] != "self" ==>
      BuildPayload(b, p)[Relation] == Str(p["relation"])
    ensures Field(p, "relation").None? ==> BuildPayload(b, p)[Relation] == Str("")
    ensures BuildPayload(b, p)[Relation] != Str("self")
  {
    assert Relation in PersonalFieldSet();
    assert Relation !in Scores(b);
  }

  /** `gender`, `ethnicity` and `country_of_residence` pass through; missing, they are "". */
  lemma TextFields(b: Record, p: Record, key: Key)
    requires key in {Gender, Ethnicity, CountryOfResidence}
    ensures BuildPayload(b, p)[key] == Str(if Name(key) in p then p[Name(key)] else "")
  {
    assert key in PersonalFieldSet();
    assert key !in Scores(b);
  }

  /** `${value}`: an absent body field renders as "undefined". */
  function Render(value: Option<string>): string {
    value.GetOr("undefined")
  }

  /**
   * The message the promise chain leaves in `result`: the prediction and its
   * percentage on a readable 2xx response, the generic failure otherwise.
   */
  function ResponseMessage(response: Response): string {
    match response
    case Ok(prediction, percentage) => Render(prediction) + " (" + Render(percentage) + ")"
    case _ => FetchErrorMessage
  }

  /** `result.toLowerCase()` contains "error" or "not found": the result is shown as an alert. */
  predicate IsErrorAlert(result: string) {
    Text.Contains(Text.ToLower(result), "error") || Text.Contains(Text.ToLower(result), "not found")
  }

  /** Text with the lower-case `word` in the middle is shown as an alert when `word` is one the test looks for. */
  lemma AlertAround(before: string, word: string, after: string)
    requires word == "error" || word == "not found"
    ensures IsErrorAlert(before + word + after)
  {
    Text.ToLowerAppend(before + word, after);
    Text.ToLowerAppend(before, word);
    Text.ToLowerOfLower(word);
    Text.ContainsMiddle(Text.ToLower(before), word, Text.ToLower(after));
  }

  /** Both failure messages the modal can set are shown as alerts. */
  lemma FailureMessagesAreAlerts()
    ensures IsErrorAlert(NotFoundMessage)
    ensures IsErrorAlert(FetchErrorMessage)
  {
    AlertAround("Required form data ", "not found", ". Please complete both forms.");
    AlertAround("An ", "error", " occurred while fetching the prediction.");
  }

  /** A failed request, whichever way it fails, ends in an alert. */
  lemma FailedResponseIsAlert(response: Response)
    requires !response.Ok?
    ensures ResponseMessage(response) == FetchErrorMessage
    ensures IsErrorAlert(ResponseMessage(response))
  {
    FailureMessagesAreAlerts();
  }

  /** What the modal body shows. */
  datatype Body = Spinner | Alert(text: string) | Plain(text: string)

  class ResultModal {
    var result: string
    var loading: bool
    var isOpen: bool

    /** Before the effect runs: no result, loading, modal closed. */
    constructor()
      ensures result == "" && loading && !isOpen
    {
      result := "";
      loading := true;
      isOpen := false;
    }

    /**
     * The mount effect. Without both stored records no request is built and
     * the result is the not-found message. Otherwise the request carries
     * `BuildPayload` of the two records and the result is the message for the
     * response. Every branch ends with loading off and the modal open.
     */
    method Effect(storage: Storage, response: Response) returns (request: Option<Payload>)
      modifies this
      ensures !loading && isOpen
      ensures Get(storage, BehavioralKey).None? || Get(storage, PersonalKey).None? ==>
        request == None && result == NotFoundMessage
      ensures BehavioralKey in storage && PersonalKey in storage ==>
        request == Some(BuildPayload(storage[BehavioralKey], storage[PersonalKey]))
      ensures BehavioralKey in storage && PersonalKey in storage ==>
        result == ResponseMessage(response)
    {
      var behavioralData := Get(storage, BehavioralKey);
      var personalInfo := Get(storage, PersonalKey);
      if behavioralData.Some? && personalInfo.Some? {
        var convertedBehavioralData := ConvertScores(behavioralData.value);
        var mappedPersonalInfo := MapPersonalInfo(personalInfo.value);
        var payload := convertedBehavioralData + mappedPersonalInfo;
        request := Some(payload);
        match response {
          case Ok(prediction, percentage) =>
            result := Render(prediction) + " (" + Render(percentage) + ")";
          case _ =>
            result := FetchErrorMessage;
        }
        loading := false;
        isOpen := true;
      } else {
        request := None;
        result := NotFoundMessage;
        loading := false;
        isOpen := true;
      }
    }

    /** The modal body: a spinner while loading, then the result as an alert or as plain text. */
    function Shown(): Body
      reads this
    {
      if loading then Spinner
      else if IsErrorAlert(result) then Alert(result)
      else Plain(result)
    }
  }
}
