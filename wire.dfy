/**
 * The shapes that cross component boundaries: a form's record of answers,
 * the browser's `localStorage` holding the records of completed steps, the
 * field names, the JSON payload of the prediction request with the backend's
 * request model, and the HTTP outcome of that request.
 */
module Wire {
  import opened Wrappers
  import Numbers

  /** A form's state object: field name to the text the user entered or chose. */
  type Record = map<string, string>

  /** `localStorage` after `JSON.stringify`/`JSON.parse`: key to stored record. */
  type Storage = map<string, Record>

  /** Storage keys written by the behavioral and personal-info steps. */
  const BehavioralKey := "behavioralFormData"
  const PersonalKey := "personalInfo"

  /** `JSON.parse(localStorage.getItem(key))`: a key never written reads as `null`. */
  function Get(storage: Storage, key: string): Option<Record> {
    if key in storage then Some(storage[key]) else None
  }

  /** Property access on a record: a missing property is `undefined`. */
  function Field(r: Record, key: string): Option<string> {
    if key in r then Some(r[key]) else None
  }

  /** `Object.values(r).every(v => v !== "")`: the step validator of both forms. */
  predicate AllFilled(r: Record) {
    forall k :: k in r ==> r[k] != ""
  }

  /** `r[k] === ""`: a missing property is not the empty string. */
  predicate FieldEmpty(r: Record, k: string) {
    k in r && r[k] == ""
  }

  /** The ten behavioral field names, question 1 first. */
  const ScoreKeys: seq<string> :=
    ["A1_Score", "A2_Score", "A3_Score", "A4_Score", "A5_Score",
     "A6_Score", "A7_Score", "A8_Score", "A9_Score", "A10_Score"]

  /** A question number. */
  type Question = n: nat | 1 <= n <= 10 witness 1

  /** The field name of question `i`: the template literal `A${i}_Score`. */
  function ScoreKey(i: Question): string {
    ScoreKeys[i - 1]
  }

  /** The table of names is the template literal `A${i}_Score` spelled out. */
  lemma ScoreKeyIsTemplate(i: Question)
    ensures ScoreKey(i) == "A" + Numbers.DecimalString(i) + "_Score"
  {
    if i == 10 {
      assert Numbers.DecimalString(10) == Numbers.DecimalString(1) + ['0'];
    }
  }

  function ScoreKeySet(): set<string> {
    set k | k in ScoreKeys
  }

  /** The eight personal-info field names, in the order of the form. */
  const PersonalKeys: seq<string> :=
    ["age", "gender", "ethnicity", "jaundice", "autism",
     "country_of_residence", "used_app_before", "relation"]

  function PersonalKeySet(): set<string> {
    set k | k in PersonalKeys
  }

  ghost predicate Distinct<T>(s: seq<T>) {
    forall i, j :: 0 <= i < j < |s| ==> s[i] != s[j]
  }

  /** A sequence without repetitions has as many distinct elements as entries. */
  lemma {:induction false} DistinctCard<T>(s: seq<T>)
    requires Distinct(s)
    ensures |set x | x in s| == |s|
  {
    if s != [] {
      var rest := s[1..];
      assert Distinct(rest);
      DistinctCard(rest);
      assert (set x | x in s) == (set x | x in rest) + {s[0]};
      assert s[0] !in rest;
    }
  }

  /**
   * Question k answers field A{k}_Score and no other: the ten names are
   * distinct, and each of them is the name of one question.
   */
  lemma ScoreKeysDistinct()
    ensures Distinct(ScoreKeys)
    ensures |ScoreKeySet()| == 10
    ensures forall i, j :: 1 <= i <= 10 && 1 <= j <= 10 && ScoreKey(i) == ScoreKey(j) ==> i == j
    ensures forall k :: k in ScoreKeySet() <==> exists i :: 1 <= i <= 10 && k == ScoreKey(i)
  {
    DistinctCard(ScoreKeys);
    forall k | k in ScoreKeySet()
      ensures exists i :: 1 <= i <= 10 && k == ScoreKey(i)
    {
      var n :| 0 <= n < 10 && ScoreKeys[n] == k;
      assert k == ScoreKey(n + 1);
    }
  }

  /** The eight personal names are distinct and none of them names a behavioral field. */
  lemma PersonalKeysDistinct()
    ensures Distinct(PersonalKeys)
    ensures |PersonalKeySet()| == 8
    ensures ScoreKeySet() !! PersonalKeySet()
  {
    DistinctCard(PersonalKeys);
    forall k | k in ScoreKeySet()
      ensures k[0] == 'A'
    {
    }
  }

  /** A JSON value of the request body. */
  datatype Value = Int(i: int) | Num(r: real) | Bool(b: bool) | Str(s: string)

  /** The eighteen properties of the request body; `Name` gives each one's JSON spelling. */
  datatype Key =
    | Score(q: Question)
    | Age | Gender | Ethnicity | Jaundice | Autism
    | CountryOfResidence | UsedAppBefore | Relation

  function Name(k: Key): string {
    match k
    case Score(q) => ScoreKey(q)
    case Age => "age"
    case Gender => "gender"
    case Ethnicity => "ethnicity"
    case Jaundice => "jaundice"
    case Autism => "autism"
    case CountryOfResidence => "country_of_residence"
    case UsedAppBefore => "used_app_before"
    case Relation => "relation"
  }

  /** The personal properties, in the order of the personal-info form. */
  const PersonalFields: seq<Key> :=
    [Age, Gender, Ethnicity, Jaundice, Autism, CountryOfResidence, UsedAppBefore, Relation]

  function ScoreFieldSet(): set<Key> {
    set n: nat | 1 <= n <= 10 :: Score(n)
  }

  function PersonalFieldSet(): set<Key> {
    set k | k in PersonalFields
  }

  /**
   * Different properties have different JSON names, so a JSON object built
   * from them loses nothing; the personal properties are spelled as the
   * fields of the personal-info form.
   */
  lemma NamesDistinct()
    ensures forall k1, k2 :: Name(k1) == Name(k2) ==> k1 == k2
    ensures forall i :: 0 <= i < 8 ==> Name(PersonalFields[i]) == PersonalKeys[i]
  {
    forall k1, k2 | Name(k1) == Name(k2)
      ensures k1 == k2
    {
      NameInjective(k1, k2);
    }
  }

  lemma NameInjective(k1: Key, k2: Key)
    requires Name(k1) == Name(k2)
    ensures k1 == k2
  {
    if k1.Score? && k2.Score? {
      ScoreKeysDistinct();
    } else if !k1.Score? && !k2.Score? {
      PersonalKeysDistinct();
      assert Name(k1) in PersonalKeys;
    }
  }

  /** A request body: property to value. */
  type Payload = map<Key, Value>

  /** The field types of the backend's request model. */
  datatype FieldType = IntField | FloatField | BoolField | StrField

  /** Whether `v` is, as JSON, of the type the request model declares: an integer also counts as a float. */
  predicate HasType(v: Value, t: FieldType) {
    match t
    case IntField => v.Int?
    case FloatField => v.Int? || v.Num?
    case BoolField => v.Bool?
    case StrField => v.Str?
  }

  /** The request model of the prediction endpoint: eighteen named, typed fields. */
  const RequestModel: seq<(string, FieldType)> :=
    [("A1_Score", IntField), ("A2_Score", IntField), ("A3_Score", IntField),
     ("A4_Score", IntField), ("A5_Score", IntField), ("A6_Score", IntField),
     ("A7_Score", IntField), ("A8_Score", IntField), ("A9_Score", IntField),
     ("A10_Score", IntField), ("age", FloatField), ("gender", StrField),
     ("ethnicity", StrField), ("jaundice", BoolField), ("autism", BoolField),
     ("country_of_residence", StrField), ("used_app_before", BoolField),
     ("relation", StrField)]

  /** The properties the request model names, in its order. */
  const RequestKeys: seq<Key> :=
    [Score(1), Score(2), Score(3), Score(4), Score(5), Score(6), Score(7), Score(8),
     Score(9), Score(10), Age, Gender, Ethnicity, Jaundice, Autism,
     CountryOfResidence, UsedAppBefore, Relation]

  /** The type the request model declares for each property. */
  function TypeOf(k: Key): FieldType {
    match k
    case Score(_) => IntField
    case Age => FloatField
    case Jaundice | Autism | UsedAppBefore => BoolField
    case Gender | Ethnicity | CountryOfResidence | Relation => StrField
  }

  /** `RequestKeys` spells the names of the request model, in its order, with its types. */
  lemma RequestKeysSpellModel()
    ensures |RequestKeys| == |RequestModel|
    ensures forall j :: 0 <= j < |RequestKeys| ==> Name(RequestKeys[j]) == RequestModel[j].0
    ensures forall j :: 0 <= j < |RequestKeys| ==> TypeOf(RequestKeys[j]) == RequestModel[j].1
  {
  }

  /** The request model names eighteen different properties: ten scores and eight personal fields. */
  lemma RequestKeysDistinct()
    ensures RequestKeySet() == ScoreFieldSet() + PersonalFieldSet()
    ensures |RequestKeySet()| == 18
  {
    assert Distinct(RequestKeys);
    DistinctCard(RequestKeys);
    forall k | k in ScoreFieldSet()
      ensures k in RequestKeySet()
    {
      assert k == RequestKeys[k.q - 1];
    }
  }

  function RequestKeySet(): set<Key> {
    set k | k in RequestKeys
  }

  /** `p` has exactly the fields of the request model, each of its declared JSON type. */
  predicate Conforms(p: Payload) {
    && p.Keys == RequestKeySet()
    && forall k :: k in p ==> HasType(p[k], TypeOf(k))
  }

  /**
   * An answer to the prediction request: a 2xx response whose JSON body may
   * lack `prediction` or `probability_percentage`, a 2xx response whose body
   * is not JSON, a non-2xx status, or no response at all. The same type
   * serves for what the server sends and for what the frontend's `fetch`
   * ends in; the two differ when the browser rejects an answer that lacks
   * the CORS headers.
   */
  datatype Response =
    | Ok(prediction: Option<string>, percentage: Option<string>)
    | OkUnreadable
    | NotOk(status: int)
    | TransportFailure
}
