# Autism screening wizard — a Dafny model

This project models the logic of a small autism-screening web application
and proves properties of that model.

The frontend is a four-page wizard:

1. A home page checks a name and an age.
2. A behavioral form collects ten yes/no answers, A1_Score to A10_Score.
3. A personal-info form collects eight details.
4. A result page reads both stored forms and builds an 18-property JSON
   request. It posts the request to the backend, turns the answer into a
   result text, and shows that text either as an error alert or as plain
   text.

A stepper shows the user's place in the wizard. The backend declares the
request model, maps a class prediction to a label, and classifies with a
hand-written random forest of decision trees.

Modules, one per source file or concern:

- `Wrappers`: `Option`.
- `Text`: ASCII `toLowerCase` and `includes`.
- `Numbers`: the decimal subset of `parseInt`, `parseFloat` and `Number`.
- `Wire`: the records kept in browser storage, the request properties
  (`Key`, with `Name` giving each one's JSON spelling), the request model of
  the backend, and the abstract response.
- `Behavioral` and `Personal`: the two form components, as classes.
- `Home`: the home page, as a class.
- `Steps`: the stepper of the layout.
- `Result`: the result page's effect and display, with the effect as a
  class.
- `Service`: the endpoint's validation of a request body, its handler and
  label, and what the browser receives.
- `Forest`: the trees and the forest, with the forest as a class.
- `Wizard`: one complete pass through the pages.

## Model

| member | source | states |
|---|---|---|
| Text.ToLower | frontend/src/ResultModal.jsx:112-113 | `result.toLowerCase()` keeps the length and lower-cases each ASCII capital, character by character |
| Text.ContainsIffOccurs | frontend/src/ResultModal.jsx:112-113 | the `includes` scan succeeds exactly when the word occurs at some index of the text |
| Text.Contains | frontend/src/ResultModal.jsx:112-113 | `includes`: the word occurs as a contiguous run of the text; `ContainsIffOccurs` states this against an index |
| Numbers.ParseInt | frontend/src/ResultModal.jsx:33 | `parseInt` is NaN exactly when no digit follows the optional sign; without a minus sign the value is not negative |
| Numbers.ParseIntDecimal | frontend/src/ResultModal.jsx:33 | `parseInt` reads the decimal text of n back as n, whatever non-digit text follows |
| Numbers.NotANumber | frontend/src/ResultModal.jsx:33-41 | text starting with neither a digit, a sign nor a point (such as the "undefined" of a missing field) is NaN for both `parseInt` and `parseFloat` |
| Numbers.ParseFloat | frontend/src/ResultModal.jsx:39-41 | `parseFloat` is NaN exactly when the text has no decimal prefix |
| Numbers.DecimalPrefix | frontend/src/ResultModal.jsx:39-41 | the decimal prefix `parseFloat` reads (optional sign, digits, optional point and digits, at least one digit) is never longer than the text |
| Numbers.StringToNumber | frontend/src/HomePage.jsx:54 | where `Number` of non-empty text gives a value, `parseFloat` gives the same value |
| Numbers.DecimalNumber | frontend/src/HomePage.jsx:54 | both `parseFloat` and `Number` read the decimal text of n as n |
| Numbers.DecimalFraction | frontend/src/ResultModal.jsx:39-41 | `parseFloat` reads the decimal text of n, a point and fraction digits as n plus the value of the fraction digits, whatever non-digit text follows; `Number` reads the same value when nothing follows |
| Wire.ScoreKeyIsTemplate | frontend/src/ResultModal.jsx:32-34 | the field of question i is spelled `A${i}_Score` |
| Wire.ScoreKeysDistinct | frontend/src/BehavioralQuestions.jsx:15-26 | the ten field names are distinct, and each is the name of exactly one question 1..10 |
| Wire.PersonalKeysDistinct | frontend/src/PersonalInfo.jsx:17-26 | the eight personal field names are distinct and share none with the behavioral names |
| Wire.NamesDistinct | frontend/src/ResultModal.jsx:31-51 | no two request properties share a JSON name; the personal properties are spelled as the form's fields |
| Wire.RequestKeysSpellModel | backend/main.py:143-161 | the request properties, in order, have the names and types of the backend's request model |
| Wire.RequestKeysDistinct | backend/main.py:143-161 | the request model has 18 distinct properties: the ten scores plus the eight personal fields |
| Wire.AllFilled | frontend/src/BehavioralQuestions.jsx:38 | the step validator `every(v => v !== "")` of both forms: no property holds the empty text |
| Behavioral.BehavioralQuestions.constructor | frontend/src/BehavioralQuestions.jsx:15-28 | the form starts with exactly the ten score fields, all empty, and no error |
| Behavioral.BehavioralQuestions.HandleChange | frontend/src/BehavioralQuestions.jsx:31-34 | the named field takes the new value and every other field is unchanged |
| Behavioral.BehavioralQuestions.HandleNext | frontend/src/BehavioralQuestions.jsx:36-48 | with an empty answer: the error message, storage untouched, no navigation, and on the ten-field form some question flagged invalid; otherwise: no error and no question flagged, the answers replace the stored "behavioralFormData", navigation to /personal-info |
| Behavioral.BehavioralQuestions.QuestionInvalid | frontend/src/BehavioralQuestions.jsx:75 | question `index` is flagged while an error is shown and its field A{index+1}_Score is empty |
| Behavioral.IncompleteHighlightsAQuestion | frontend/src/BehavioralQuestions.jsx:75 | the form fails the check exactly when some question k has its own field A{k}_Score empty, which is the question its `isInvalid` flags |
| Behavioral.ValidationIgnoresAnswerDomain | frontend/src/BehavioralQuestions.jsx:94-95 | the select offers only "1" and "0", yet a form holding another non-empty answer passes the check |
| Personal.PersonalInfo.constructor | frontend/src/PersonalInfo.jsx:17-28 | the form starts with exactly the eight personal fields, all empty, and no error |
| Personal.PersonalInfo.HandleChange | frontend/src/PersonalInfo.jsx:31-34 | the named field takes the new value and every other field is unchanged |
| Personal.PersonalInfo.HandleNext | frontend/src/PersonalInfo.jsx:36-48 | with an empty field: the error message, storage untouched, no navigation, and on the eight-field form some control flagged invalid; otherwise: no error and no control flagged, the record replaces the stored "personalInfo", navigation to /result-modal |
| Personal.PersonalInfo.FieldInvalid | frontend/src/PersonalInfo.jsx:60 | the control for field `name` is flagged while an error is shown and the field is empty |
| Personal.IncompleteHighlightsAField | frontend/src/PersonalInfo.jsx:59-60 | the form fails the check exactly when one of the eight fields is empty, which is the field its control flags |
| Personal.OptionsPassValidation | frontend/src/PersonalInfo.jsx:100-261 | a form whose selects hold their options and whose age and country are typed in passes the check |
| Personal.ValidationIgnoresOptions | frontend/src/PersonalInfo.jsx:38 | the check tests only non-emptiness: a form with values outside every option set passes it |
| Home.NameError | frontend/src/HomePage.jsx:41-48 | no name error exactly when the name has four characters or more; otherwise "Name is required." for an empty name and "Name should be valid!!" for a shorter one |
| Home.AgeError | frontend/src/HomePage.jsx:50-57 | no age error exactly when the age is non-empty and a number from 18 to 100; otherwise "Age is required." for an empty age and "Please enter a valid age!!" for the rest |
| Home.HomePage.constructor | frontend/src/HomePage.jsx:24-27 | name, age and both errors start empty |
| Home.HomePage.SetName | frontend/src/HomePage.jsx:129 | the name input stores the typed text |
| Home.HomePage.SetAge | frontend/src/HomePage.jsx:156 | the age input stores the typed text |
| Home.HomePage.HandleSubmit | frontend/src/HomePage.jsx:32-64 | both errors are recomputed independently of each other; navigation goes to /behavioral-questions exactly when both are empty |
| Home.WholeAgesAccepted | frontend/src/HomePage.jsx:54 | a whole age typed in decimal is accepted exactly from 18 to 100 |
| Home.AgeBoundaries | frontend/src/HomePage.jsx:54 | 18 and 100 are accepted; 17 and 101 get "Please enter a valid age!!" |
| Steps.ActiveStep | frontend/src/App.jsx:37-45 | the step is a valid index into the three steps; it is 1 exactly when the path is not "/" and contains "behavior"; it is 2 exactly when the path is not "/", lacks "behavior" and contains "personal" |
| Steps.StepperVisible | frontend/src/App.jsx:50 | the stepper is shown on every path except "/" and "/result-modal" |
| Steps.EndsHideStepper | frontend/src/App.jsx:50 | "/" and "/result-modal" show no stepper, and "/" is step 0 |
| Steps.NeitherWordIsStepZero | frontend/src/App.jsx:37-45 | a path that mentions neither "behavior" nor "personal" is step 0 |
| Steps.ResultPageIsStepZero | frontend/src/App.jsx:37-45 | "/result-modal" matches neither word and stays at step 0 |
| Steps.BehavioralPageIsStepOne | frontend/src/App.jsx:41-42 | /behavioral-questions shows the stepper at step 1 |
| Steps.PersonalPageIsStepTwo | frontend/src/App.jsx:43-44 | /personal-info shows the stepper at step 2 |
| Result.Scores | frontend/src/ResultModal.jsx:31-35 | the converted scores hold exactly the ten score properties |
| Result.ConvertScores | frontend/src/ResultModal.jsx:31-35 | the `for` loop builds exactly the converted scores |
| Result.MapPersonalInfo | frontend/src/ResultModal.jsx:38-51 | the mapped personal info holds exactly the eight personal properties |
| Result.BuildPayload | frontend/src/ResultModal.jsx:54-57 | the spread of the converted scores and the mapped personal info has exactly the ten score and eight personal properties |
| Result.PayloadKeys | frontend/src/ResultModal.jsx:54-57 | the payload has exactly the 18 properties of the request model |
| Result.PayloadTyped | frontend/src/ResultModal.jsx:31-57 | every payload property has the type the request model declares for it |
| Result.PayloadConforms | frontend/src/ResultModal.jsx:54-57 | every payload the page can build is accepted by the request model, with 18 properties |
| Result.MergeKeepsBoth | frontend/src/ResultModal.jsx:54-57 | the two halves share no key, so the spread overwrites nothing and both arrive unchanged |
| Result.ScoreField | frontend/src/ResultModal.jsx:32-34 | A{i}_Score is the integer `parseInt` reads from the stored answer, or 0 when the answer is missing or unparsable |
| Result.ScoreFromOption | frontend/src/ResultModal.jsx:33-34 | stored answers "1", "0" and "" arrive as 1, 0 and 0 |
| Result.AgeField | frontend/src/ResultModal.jsx:39-41 | `age` is the number `parseFloat` reads, or 0 when the field is missing or not a number |
| Result.YesNoFields | frontend/src/ResultModal.jsx:45-49 | `jaundice`, `autism` and `used_app_before` are true exactly when the stored text is "yes", and false otherwise |
| Result.RelationField | frontend/src/ResultModal.jsx:50 | "self" becomes "parent"; any other value passes through; missing becomes ""; "self" is never sent |
| Result.TextFields | frontend/src/ResultModal.jsx:42-48 | `gender`, `ethnicity` and `country_of_residence` pass through, and become "" when missing |
| Result.ResponseMessage | frontend/src/ResultModal.jsx:69-88 | a readable 2xx answer gives `${prediction} (${probability_percentage})`, with "undefined" for a missing field; every other outcome gives the fetch-failure message |
| Result.IsErrorAlert | frontend/src/ResultModal.jsx:112-113 | the result is shown as an alert when its lower-cased text contains "error" or "not found" |
| Result.AlertAround | frontend/src/ResultModal.jsx:112-113 | any text with "error" or "not found" in it is shown as an alert, whatever surrounds the word |
| Result.FailureMessagesAreAlerts | frontend/src/ResultModal.jsx:85-90 | both the not-found message and the fetch-failure message are shown as alerts |
| Result.FailedResponseIsAlert | frontend/src/ResultModal.jsx:69-88 | a non-ok status, an unreadable body or a transport failure all give the fetch-failure message, shown as an alert |
| Result.ResultModal.constructor | frontend/src/ResultModal.jsx:19-21 | before the effect: empty result, loading, modal closed |
| Result.ResultModal.Effect | frontend/src/ResultModal.jsx:24-94 | missing either record: no request and the not-found message; both present: the request is the payload of the two records and the result is the response's message; every branch ends with loading off and the modal open |
| Result.ResultModal.Shown | frontend/src/ResultModal.jsx:107-120 | the body is a spinner while loading, then the result as an alert when `IsErrorAlert` holds and as plain text otherwise |
| Service.Label | backend/main.py:200 | the label is "Positive for ASD" exactly when the prediction is 1, and "Negative for ASD" exactly when it is not |
| Service.Admits | backend/main.py:143-161 | the values the request model's lax validation takes for an int, float, bool or str field |
| Service.Validates | backend/main.py:143-161 | a body passes validation when every declared field is present and admitted |
| Service.Handle | backend/main.py:143-176 | every request fails: 500 exactly when the body passes the request model's validation, and 422 otherwise |
| Service.Delivered | backend/main.py:125-141 | the 500 of the global handler reaches the browser as a failed fetch; every other answer arrives as sent |
| Service.EveryKeyDeclared | backend/main.py:143-161 | every request property is a field of the request model |
| Service.ConformingValidates | backend/main.py:143-161 | a body with the 18 fields, each of its declared JSON type, passes validation |
| Service.MissingFieldRefused | backend/main.py:143-161 | a body missing any field is answered with 422 |
| Service.ReplacedField | backend/main.py:143-161 | changing one value of a valid body keeps it valid exactly when validation admits the new value for that field |
| Service.LaxValues | backend/main.py:143-161 | the text "18" is a valid float, "YES" a valid bool and `true` a valid int; the number 1 is not a valid str and 1.5 not a valid int |
| Service.AgeTextAccepted | backend/main.py:154 | a valid body with the age sent as the text "18" still reaches the handler and gets 500 |
| Service.YesWordAccepted | backend/main.py:157 | a valid body with `jaundice` sent as "YES" still reaches the handler and gets 500 |
| Service.StrictValuesRefused | backend/main.py:143-161 | a valid body with a number for `gender` or 1.5 for a score is answered with 422 |
| Service.StoredAnswersReachHandlerAndFail | backend/main.py:134-176 | every payload the page builds passes validation and gets a 500, which the browser sees as a failed fetch, ending in the fetch-failure alert |
| Service.LabelShownPlain | backend/main.py:199-203 | a success with either label and a formatted percentage would be shown as plain text, not as an alert |
| Service.IntendedResponsesShownPlain | backend/main.py:196-203 | the two responses the handler was written to send ("0.00%" with either label) would be shown as plain text |
| Forest.PredictRow | backend/main.py:73-81 | descent by `x[feature] <= threshold` ends at a leaf and answers one of the tree's leaf values |
| Forest.PredictReadsOnlyTestedColumns | backend/main.py:73-81 | rows that agree on the columns a tree tests get the same answer from it |
| Forest.TreePredict | backend/main.py:70-71 | one answer per row, in row order, each the descent's answer for that row |
| Forest.BinCount | backend/main.py:58 | `np.bincount` has one entry per label up to the largest, each entry counting that label |
| Forest.Argmax | backend/main.py:58 | `np.argmax` gives an index of the largest entry, with every earlier entry strictly smaller |
| Forest.Majority | backend/main.py:113 | the vote elects a label that was voted for, with no label voted for more often; ties go to the smallest label |
| Forest.UnanimousVote | backend/main.py:113 | unanimous votes elect their label |
| Forest.Side | backend/main.py:64-67 | each side holds only rows of the data that lie on that side of the threshold |
| Forest.SidesPartition | backend/main.py:64-65 | the two sides together hold every row exactly as often as the data does |
| Forest.SplitHalves | backend/main.py:64-67 | when neither side is empty, both are strictly smaller, keep the row width and carry only labels of the data |
| Forest.BestSplit | backend/main.py:33-54 | a split exists only above `min_samples_split` rows; it names an existing column and leaves neither side empty |
| Forest.LeafFor | backend/main.py:58 | a leaf holds the majority label, which is a label of the rows |
| Forest.GrowTree | backend/main.py:56-68 | the tree tests only existing columns, has only labels of the rows in its leaves, and stays within a truthy `max_depth`; too few rows to split give a single majority leaf |
| Forest.Project | backend/main.py:112 | `x[feat_idx]` picks the listed columns in order |
| Forest.Resample | backend/main.py:106 | one sample per drawn row index, in order: the sample carries that row's label and, in position j, that row's value in the j-th drawn column |
| Forest.Train | backend/main.py:105-107 | each stored entry pairs a tree that fits its drawn columns with those columns |
| Forest.TrainAll | backend/main.py:101-107 | one trained entry per draw |
| Forest.TrainEach | backend/main.py:101-107 | the `for` loop over the trees produces exactly one trained entry per draw, in order |
| Forest.TrainAllFits | backend/main.py:101-107 | every trained tree tests only its own columns, all of which lie within the data's width |
| Forest.FillColumn | backend/main.py:112 | `all_preds[:, i] = ...` sets column i and leaves every other entry unchanged |
| Forest.RandomForest.constructor | backend/main.py:84-92 | the forest keeps its settings and starts with no trees |
| Forest.RandomForest.Vote | backend/main.py:110-112 | column k of a row's ballot: tree k's answer on its own columns of the row, or the initial 0 where there is no tree k |
| Forest.RandomForest.Fit | backend/main.py:101-107 | one tree per draw is appended, in order, after the trees already there, and the forest stays well-formed |
| Forest.RandomForest.Ballot | backend/main.py:110-112 | a row's ballot has n_trees votes: tree k's answer on its own columns, or 0 where there is no tree k |
| Forest.RandomForest.CollectVotes | backend/main.py:110-112 | `all_preds` has a row per input row and a column per tree slot, holding each row's ballot |
| Forest.RandomForest.Predict | backend/main.py:109-113 | one label per row, in row order: the majority of that row's ballot |
| Forest.RandomForest.VoteReadsOwnColumns | backend/main.py:111-112 | each tree's vote depends only on the columns it was drawn and tests |
| Wizard.TypeAnswers | frontend/src/BehavioralQuestions.jsx:31-34 | answering question after question leaves the form holding exactly the typed answers |
| Wizard.TypeDetails | frontend/src/PersonalInfo.jsx:31-34 | filling field after field leaves the form holding exactly the typed details |
| Wizard.FillForms | frontend/src/BehavioralQuestions.jsx:45-47 | two complete forms store both records under their own keys and move on to /personal-info, then /result-modal |
| Wizard.ShowResult | frontend/src/ResultModal.jsx:24-94 | with both records stored, the request is their payload, and the endpoint as written, with the browser delivering its answer, leaves the fetch-failure alert on screen |
| Wizard.CompleteWizard | frontend/src/App.jsx:84-91 | a valid name and age plus two complete forms visit the three routes in order, send exactly the payload of what was typed, and end on the fetch-failure alert |

## Left out

- Rendering, styling, animation, router wiring, `useDisclosure`/`useEffect` scheduling and console logging are not modelled. The modal's open state is a field, and `Shown` gives the body it would display.
- `fetch` and its promise chain are not modelled. The response is the abstract `Response` value (`Ok` with the two body fields, an unreadable body, a non-ok status, or a transport failure), and the code runs sequentially.
- Browser storage is a map from key to record. `JSON.stringify`/`JSON.parse` are taken as a lossless round trip, and a missing key reads as absent.
- Numbers.ParseInt, Numbers.ParseFloat, Numbers.StringToNumber: only a decimal subset of the JavaScript number grammar is covered. The model has no leading or trailing whitespace (so `Number(" 20")` is not covered), no exponents ("1e2"), no `Infinity`, no hexadecimal, and no `isNaN` coercion beyond `Number` of the text.
- Text.ToLower: only ASCII capitals are lower-cased; Unicode case mapping is not modelled.
- Home.NameError: counts characters, not UTF-16 code units.
- `_gini` and the threshold search of `_best_split` are left abstract. They use floating-point Gini impurity, and a `chooser` function stands in for the search. Forest.BestSplit keeps the source's size cut-off and its rule that a threshold sending every row one way is no split.
- `np.random.choice` sampling and `random_state` are not modelled. The drawn row and column indices are parameters (`Draw`).
- Forest.GrowTree: `max_depth=None` (or 0) is modelled as `maxDepth` 0. Empty data is excluded, where `np.argmax` of an empty `bincount` would raise.
- Forest.RandomForest.Predict: requires at least one input row, at least one tree slot and no more trained trees than `n_trees`. With no rows `np.apply_along_axis` raises on the empty iteration axis; with no tree slot `np.argmax` of an empty `bincount` raises; with too many trees the column assignment raises.
- Forest.Train: requires at least one drawn row (`ValidDraw`). An empty sample would raise in `np.argmax`.
- Numbers.ParseIntDecimal, Numbers.DecimalNumber, Home.AgeError, Numbers.DecimalFraction: numbers are exact here, while JavaScript rounds them to the nearest double. So `Number("100.000000000000001")` is 100 in JavaScript and HomePage.jsx:54 accepts that age, but Home.AgeError rejects "100." followed by nonzero digits. Likewise `Number("9007199254740993")` is 9007199254740992 (above 2^53), where ParseIntDecimal and DecimalNumber promise the exact n.
- Result.PayloadTyped, Result.PayloadConforms, Service.StoredAnswersReachHandlerAndFail, Wizard.ShowResult: a stored age or answer whose number is beyond the double range, such as "1" followed by 400 zeros, parses to `Infinity` in JavaScript. `isNaN` keeps it, `JSON.stringify` sends it as `null`, and the request model refuses that with 422. The answer keeps its CORS headers, so the page takes the not-ok path and ends on the same fetch-failure alert. Here numbers are exact, so such payloads conform and are answered 500.
- The backend works on numpy arrays of floats. Labels here are natural numbers and features are reals, so floating-point rounding is not modelled.
- The encoders, the pickled model and the pandas frame are not modelled. The handler never reaches them: `input_parameters` is undefined, so its second line (`input_dict = input_parameters.dict()`, after the print) raises and the global handler answers 500. Its encoder column names `austim` and `contry_of_res` also do not match the request fields. Service.Handle models this, and no working handler is modelled.
- The float formatting of the probability is not modelled beyond its one possible result, "0.00%".
- The `/health` endpoint and the rest of the FastAPI setup are not modelled. Of the CORS middleware only its effect on the handler's 500 is modelled (Service.Delivered): that answer leaves without the CORS headers, so the browser rejects it. This follows how the frameworks order their middleware and was not observed.
- Service.Handle: validation follows the lax JSON mode of pydantic 2. The repository pins no pydantic version. Pydantic 1 coerces more, such as numbers to `str` and truncated floats to `int`, so there some bodies answered 422 here would get 500. Text forms pydantic 2 also takes are not covered and are answered 422 here: surrounding whitespace, underscores, exponents, `inf`/`nan`, and integer text with a fractional part of zeros.
