/**
 * The backend endpoint `/autism_prediction`: the request model it declares
 * and how it validates a body, the label it would give a prediction, what
 * the handler as written does with every request, and what the browser
 * receives.
 */
module Service {
  import opened Wrappers
  import Text
  import Numbers
  import opened Wire
  import Result

  /** The two label texts of the response. */
  const PositiveLabel := "Positive for ASD"
  const NegativeLabel := "Negative for ASD"
  const Suffix := " for ASD"

  /** Both labels end in the same suffix. */
  lemma LabelSpelling()
    ensures PositiveLabel == "Positive" + Suffix
    ensures NegativeLabel == "Negative" + Suffix
  {
  }

  /** `f"{probability * 100:.2f}%"` of the fixed probability `0.0`. */
  const Percentage := "0.00%"

  /** The `prediction` text of the response: positive exactly for class 1. */
  function Label(prediction: int): (text: string)
    ensures text == PositiveLabel <==> prediction == 1
    ensures text == NegativeLabel <==> prediction != 1
  {
    assert PositiveLabel[0] != NegativeLabel[0];
    if prediction == 1 then PositiveLabel else NegativeLabel
  }

  /** Texts that the request model's lax mode reads as true or false, once lower-cased. */
  const TrueWords := {"1", "on", "t", "true", "y", "yes"}
  const FalseWords := {"0", "off", "f", "false", "n", "no"}

  /** An optional sign followed by one or more digits. */
  predicate IntegerText(s: string) {
    |s| > Numbers.SignLength(s) && Numbers.AllDigits(s[Numbers.SignLength(s)..])
  }

  /**
   * Whether the request model's lax validation turns the JSON value `v` into
   * a value of a field of type `t`. An int field also takes an integral
   * number, a boolean, or integer text. A float field also takes a boolean
   * or decimal text. A bool field also takes 0 or 1 and the words above, in
   * any case. A str field takes text only.
   */
  predicate Admits(v: Value, t: FieldType) {
    match t
    case IntField => (
      match v
      case Int(_) => true
      case Num(r) => r == r.Floor as real
      case Bool(_) => true
      case Str(s) => IntegerText(s))
    case FloatField => (
      match v
      case Str(s) => s != [] && Numbers.StringToNumber(s).Some?
      case _ => true)
    case BoolField => (
      match v
      case Bool(_) => true
      case Int(i) => i == 0 || i == 1
      case Num(r) => r == 0.0 || r == 1.0
      case Str(s) => Text.ToLower(s) in TrueWords + FalseWords)
    case StrField => v.Str?
  }

  /** The body passes the request model: every declared field is present and admitted. */
  predicate Validates(p: Payload) {
    && (forall k :: k in RequestKeySet() ==> k in p)
    && (forall k :: k in p ==> Admits(p[k], TypeOf(k)))
  }

  /**
   * The endpoint as written. A body the request model refuses is answered
   * with 422 before the handler runs; one it accepts reaches the handler,
   * whose first use of the undefined `input_parameters` raises, and the
   * global exception handler answers 500.
   */
  function Handle(payload: Payload): (response: Response)
    ensures response.NotOk?
    ensures response == NotOk(500) <==> Validates(payload)
    ensures response == NotOk(422) <==> !Validates(payload)
  {
    if Validates(payload) then NotOk(500) else NotOk(422)
  }

  /**
   * What the browser's `fetch` makes of the server's answer. The 500 of the
   * global exception handler is sent from outside the CORS middleware, so it
   * lacks the CORS headers and the cross-origin `fetch` rejects; any other
   * answer passes through the CORS middleware and arrives as sent.
   */
  function Delivered(sent: Response): (seen: Response)
    ensures seen == TransportFailure <==> sent == NotOk(500) || sent == TransportFailure
    ensures sent != NotOk(500) ==> seen == sent
  {
    if sent == NotOk(500) then TransportFailure else sent
  }

  /** Every property is declared by the request model. */
  lemma EveryKeyDeclared(k: Key)
    ensures k in RequestKeySet()
  {
    match k
    case Score(q) => assert k == RequestKeys[q - 1];
    case Age => assert k == RequestKeys[10];
    case Gender => assert k == RequestKeys[11];
    case Ethnicity => assert k == RequestKeys[12];
    case Jaundice => assert k == RequestKeys[13];
    case Autism => assert k == RequestKeys[14];
    case CountryOfResidence => assert k == RequestKeys[15];
    case UsedAppBefore => assert k == RequestKeys[16];
    case Relation => assert k == RequestKeys[17];
  }

  /** A body of the declared JSON types passes the request model. */
  lemma ConformingValidates(p: Payload)
    requires Conforms(p)
    ensures Validates(p)
  {
    forall k | k in p
      ensures Admits(p[k], TypeOf(k))
    {
      assert HasType(p[k], TypeOf(k));
    }
  }

  /** A body missing any property is refused with 422. */
  lemma MissingFieldRefused(p: Payload, k: Key)
    requires k !in p
    ensures Handle(p) == NotOk(422)
  {
    EveryKeyDeclared(k);
  }

  /**
   * Replacing one value of an accepted body keeps it accepted exactly when
   * the request model admits the new value for that field.
   */
  lemma ReplacedField(p: Payload, k: Key, v: Value)
    requires Validates(p)
    ensures Validates(p[k := v]) <==> Admits(v, TypeOf(k))
  {
    var q := p[k := v];
    if Admits(v, TypeOf(k)) {
      forall j | j in q
        ensures Admits(q[j], TypeOf(j))
      {
        if j != k {
          assert q[j] == p[j];
        }
      }
    } else {
      assert k in q && q[k] == v;
    }
  }

  /**
   * Whatever the two stored records hold, the request the result page
   * builds passes the request model and fails in the handler; the 500
   * reaches the page as a rejected `fetch`, and the page shows the generic
   * failure as an alert.
   */
  lemma StoredAnswersReachHandlerAndFail(b: Record, p: Record)
    ensures Handle(Result.BuildPayload(b, p)) == NotOk(500)
    ensures Delivered(Handle(Result.BuildPayload(b, p))) == TransportFailure
    ensures Result.ResponseMessage(Delivered(Handle(Result.BuildPayload(b, p)))) == Result.FetchErrorMessage
    ensures Result.IsErrorAlert(Result.ResponseMessage(Delivered(Handle(Result.BuildPayload(b, p)))))
  {
    Result.PayloadConforms(b, p);
    ConformingValidates(Result.BuildPayload(b, p));
    Result.FailedResponseIsAlert(TransportFailure);
  }

  /**
   * Lax validation of single values: age as the text "18", a yes/no field
   * as "YES" and a score as a boolean are admitted; a number for a text
   * field and a fractional score are not.
   */
  lemma LaxValues()
    ensures Admits(Str("18"), FloatField)
    ensures Admits(Str("YES"), BoolField)
    ensures Admits(Bool(true), IntField)
    ensures !Admits(Int(1), StrField)
    ensures !Admits(Num(1.5), IntField)
  {
    Numbers.DecimalNumber(18);
    assert Numbers.DecimalString(18) == "18";
    assert Text.ToLower("YES") == "yes";
    assert (1.5).Floor == 1;
  }

  /**
   * The age as text, put into an accepted body such as the one the result
   * page builds: the body still reaches the handler.
   */
  lemma AgeTextAccepted(body: Payload)
    requires Validates(body)
    ensures Handle(body[Age := Str("18")]) == NotOk(500)
  {
    LaxValues();
    ReplacedField(body, Age, Str("18"));
  }

  /** A yes/no field as "YES", put into an accepted body: the body still reaches the handler. */
  lemma YesWordAccepted(body: Payload)
    requires Validates(body)
    ensures Handle(body[Jaundice := Str("YES")]) == NotOk(500)
  {
    LaxValues();
    ReplacedField(body, Jaundice, Str("YES"));
  }

  /** The refused values above put into an accepted body: the body is answered with 422. */
  lemma StrictValuesRefused(body: Payload)
    requires Validates(body)
    ensures Handle(body[Gender := Int(1)]) == NotOk(422)
    ensures Handle(body[Score(1) := Num(1.5)]) == NotOk(422)
  {
    LaxValues();
    ReplacedField(body, Gender, Int(1));
    ReplacedField(body, Score(1), Num(1.5));
  }

  /** Text made only of digits, `.` and `%`, as a formatted percentage is. */
  predicate PercentText(s: string) {
    forall i :: 0 <= i < |s| ==> s[i] in "0123456789.%"
  }

  /** The pieces the labels are spelled in, lower-cased. */
  lemma LowerPieces()
    ensures Text.ToLower("Positive") == "positive"
    ensures Text.ToLower("Negative") == "negative"
    ensures Text.ToLower(Suffix) == " for asd"
  {
  }

  /** The lower-cased labels have no `e` before `r` and no `u` at all, and end in `d`. */
  lemma LabelsLowered(prediction: int)
    ensures |Text.ToLower(Label(prediction))| > 0
    ensures Text.ToLower(Label(prediction))[|Label(prediction)| - 1] == 'd'
    ensures Text.PairFree(Text.ToLower(Label(prediction)), 'e', 'r')
    ensures Text.PairFree(Text.ToLower(Label(prediction)), 'o', 'u')
  {
    var word := if prediction == 1 then "Positive" else "Negative";
    LabelSpelling();
    Text.ToLowerAppend(word, Suffix);
    LowerPieces();
    Text.PairFreeAppend(Text.ToLower(word), Text.ToLower(Suffix), 'e', 'r');
    Text.PairFreeAppend(Text.ToLower(word), Text.ToLower(Suffix), 'o', 'u');
  }

  /** Lower-casing the success message touches only the label: the rest has no letters. */
  lemma LoweredMessage(front: string, pct: string)
    requires PercentText(pct)
    ensures Text.ToLower(front + " (" + pct + ")") == Text.ToLower(front) + " (" + pct + ")"
  {
    Text.ToLowerAppend(front + " (" + pct, ")");
    Text.ToLowerAppend(front + " (", pct);
    Text.ToLowerAppend(front, " (");
    Text.ToLowerOfLower(pct);
  }

  /** Wrapping a pair-free text in " (" pct ")" cannot make the pair when `x` appears in none of the added characters. */
  lemma PairFreeAround(text: string, pct: string, x: char, y: char)
    requires Text.PairFree(text, x, y) && (text == [] || text[|text| - 1] != x)
    requires PercentText(pct) && x !in " ()0123456789.%"
    ensures Text.PairFree(text + " (" + pct + ")", x, y)
  {
    var s := text + " (" + pct + ")";
    forall i | 0 <= i < |s| - 1
      ensures !(s[i] == x && s[i + 1] == y)
    {
      if i < |text| - 1 {
        assert s[i] == text[i] && s[i + 1] == text[i + 1];
      } else if i == |text| - 1 {
        assert s[i] == text[i];
      } else if i < |text| + 2 {
        assert s[i] == " ("[i - |text|];
      } else {
        assert s[i] == pct[i - |text| - 2];
      }
    }
  }

  /**
   * A success carrying one of the labels above and a formatted percentage is
   * shown as plain text: its lower-cased message contains neither "error"
   * nor "not found".
   */
  lemma LabelShownPlain(prediction: int, pct: string)
    requires PercentText(pct)
    ensures !Result.IsErrorAlert(Result.ResponseMessage(Ok(Some(Label(prediction)), Some(pct))))
  {
    var shown := Label(prediction);
    LoweredMessage(shown, pct);
    LabelsLowered(prediction);
    var lowered := Text.ToLower(shown) + " (" + pct + ")";
    assert Text.ToLower(Result.ResponseMessage(Ok(Some(shown), Some(pct)))) == lowered;
    PairFreeAround(Text.ToLower(shown), pct, 'e', 'r');
    PairFreeAround(Text.ToLower(shown), pct, 'o', 'u');
    Text.NoAdjacentPairNoContains(lowered, "error", 0);
    Text.NoAdjacentPairNoContains(lowered, "not found", 5);
  }

  /** In particular the two responses the handler was written to send. */
  lemma IntendedResponsesShownPlain()
    ensures !Result.IsErrorAlert(Result.ResponseMessage(Ok(Some(PositiveLabel), Some(Percentage))))
    ensures !Result.IsErrorAlert(Result.ResponseMessage(Ok(Some(NegativeLabel), Some(Percentage))))
  {
    LabelShownPlain(1, Percentage);
    LabelShownPlain(0, Percentage);
  }
}
