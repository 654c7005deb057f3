# Lowreka supplier form — a Dafny model

This project models the two halves of the Lowreka product-impact form.

**The client's form engine** (`client/formulaire-lowreka.js`):

- normalising, filtering and sorting the question catalogue fetched from the server;
- grouping the questions into one form step per stage;
- validating a step;
- merging a step's controls into the collected answers;
- building the recap shown on the final step;
- moving between steps, and highlighting the progress bar.

**The serverless submission handler** (`functions/send-to-airtable.js`):

- the request gates answered before anything is stored;
- the lookup of question definitions by field name, where a later definition wins;
- the `EmatA` and `EmatB` score totals;
- the `MasseA` and `MasseB` masses;
- the answer records;
- the split of the answer records into batches of ten;
- the order of the creates on the record store, stopping at the first failure: supplier, product, answer batches, score.

One Dafny module per concern:

| module | models |
|---|---|
| `Maybe`, `Text`, `Answers`, `Numbers` | JavaScript's absent values and truthiness, `trim`/`split`/`join`, the answer values, and `parseFloat` on decimal numerals |
| `Catalogue`, `Stages`, `Validation`, `Collection`, `Summary`, `Navigation` | the client |
| `Scoring`, `Batching`, `Handler` | the handler |

The model has no side effects:

- The page's controls are a list of `Input` values.
- The collected answers are a map from field name to answer.
- The handler's JSON parser is a parameter.
- The record store is a function from (call number, create) to the created id or an error.
- The handler's reply is a datatype.

## Model

| member | source | states |
|---|---|---|
| `Text.Trim` | client/formulaire-lowreka.js:376 | the trimmed value is no longer than the input, neither starts nor ends with whitespace, and is empty exactly when the input is all whitespace |
| `Text.TrimPadded` | client/formulaire-lowreka.js:376 | the input is the trimmed value with whitespace before and after it |
| `Text.JoinSplit` | client/formulaire-lowreka.js:91 | splitting the option string on `,` loses nothing: joining the pieces back with `,` gives the string again |
| `Catalogue.OptionList` | client/formulaire-lowreka.js:91 | falsy options give no option; otherwise there is one option per comma-separated piece, and option `i` is piece `i` trimmed |
| `Catalogue.Normalize` | client/formulaire-lowreka.js:83-95 | a kept question gets its defaults: coefficient "0" when the coefficient is falsy, empty category, not mandatory, order 0; the description is kept when truthy and empty otherwise; the options are the trimmed comma-separated pieces of a truthy option string and none otherwise; `obligatoire` is set only by a literal `true` |
| `Catalogue.KeptQuestions` | client/formulaire-lowreka.js:82-102 | a raw question is kept iff its id, title, field name and type are truthy and its stage is defined; the kept list holds exactly the normalised usable questions |
| `Catalogue.KeptQuestionsAppend` | client/formulaire-lowreka.js:82-102 | filtering two runs of raw questions keeps those of the first run, in order, then those of the second |
| `Catalogue.KeptQuestionsSingle` | client/formulaire-lowreka.js:82-102 | one raw question gives its normalised form when usable and nothing otherwise, so the kept list has the catalogue's order and one entry per usable raw question |
| `Catalogue.SortQuestions` | client/formulaire-lowreka.js:104-109 | the catalogue sort orders by stage, then by order within the stage, and is a permutation of its input |
| `Catalogue.SortStable` | client/formulaire-lowreka.js:104-109 | questions with equal stage and order keep their relative catalogue order (`Array.prototype.sort` is stable) |
| `Catalogue.LoadCatalogue` | client/formulaire-lowreka.js:79-127 | a list response replaces the catalogue with the kept questions, sorted; a response of another shape or a failed fetch keeps the previous catalogue and shows its own error message |
| `Catalogue.CatalogueMembership` | client/formulaire-lowreka.js:97-109 | the loaded catalogue holds exactly the kept questions |
| `Stages.StagesOf` | client/formulaire-lowreka.js:202-211 | the keys of `stepsByStage`, sorted numerically: every stage the catalogue uses, once each, ascending |
| `Stages.StageQuestions` | client/formulaire-lowreka.js:217 | a step's questions are its stage's questions, sorted by order |
| `Stages.StepsAscending` | client/formulaire-lowreka.js:211-221 | visual numbers run consecutively from 3, and stages strictly increase along the steps |
| `Stages.StepsCoverStages` | client/formulaire-lowreka.js:202-211 | a stage has a step iff some catalogue question uses it |
| `Stages.StepContents` | client/formulaire-lowreka.js:205-217 | a step holds its stage's questions (same multiset), sorted by order, and none of another stage |
| `Stages.EveryQuestionInOneStep` | client/formulaire-lowreka.js:202-217 | every catalogue question appears in exactly one generated step |
| `Validation.EmailMatcherCorrect` | client/formulaire-lowreka.js:304 | the email check accepts exactly the language of `^[^@]+@[^@]+\.[^@]+$` |
| `Validation.FieldRules` | client/formulaire-lowreka.js:300-325 | a required text-like control is invalid iff it is blank, is an email control outside the email language, or is the SIRET field holding something other than 14 digits; a required radio or checkbox is invalid iff no control of the step with its name is checked |
| `Validation.ValidateStep` | client/formulaire-lowreka.js:281-352 | step 0 and the final step pass; otherwise the step is valid iff no required control has a problem; the errors are exactly the invalid required controls, in document order, each with its problem |
| `Validation.MalformedEmailExample` | client/formulaire-lowreka.js:304 | an address without `@` is rejected |
| `Validation.WellFormedEmailExample` | client/formulaire-lowreka.js:304 | `a@b.co` is accepted |
| `Validation.SiretExamples` | client/formulaire-lowreka.js:307 | four digits are rejected as a SIRET and fourteen accepted |
| `Collection.CollectFrame` | client/formulaire-lowreka.js:359-388 | collecting a step changes no field name outside the step; a name neither overwritten nor used by a checkbox group keeps its answer |
| `Collection.CollectCheckboxGroup` | client/formulaire-lowreka.js:359-384 | a checkbox group's answer becomes the trimmed values of its checked boxes, in document order, and an empty list when none is checked |
| `Collection.CollectLastWrite` | client/formulaire-lowreka.js:374-387 | a name without checkboxes holds the trimmed value of the last text-like control or checked radio naming it |
| `Collection.CollectNoAbort` | client/formulaire-lowreka.js:378-384 | collecting cannot throw when no checkbox group shares its name with a text-like control or radio |
| `Collection.CollectIdempotent` | client/formulaire-lowreka.js:355-389 | collecting the same step twice, with its controls unchanged, gives the answers of collecting it once |
| `Summary.Display` | client/formulaire-lowreka.js:414-420 | an absent or empty answer shows "Non renseigné", an array is joined with ", ", a non-empty string is shown as is |
| `Summary.FixedLines` | client/formulaire-lowreka.js:400-409 | a fixed field has its line iff its answer is truthy, and every line comes from such a field |
| `Summary.FixedLinesAppend` | client/formulaire-lowreka.js:400-409 | the lines of two runs of fixed fields are those of the first run, in order, then those of the second |
| `Summary.FixedLinesSingle` | client/formulaire-lowreka.js:400-409 | one fixed field gives the line with its label and interpolated answer when that answer is truthy, and nothing otherwise |
| `Summary.QuestionLines` | client/formulaire-lowreka.js:411-423 | one line per catalogue question, in catalogue order, titled by the question and showing its displayed answer |
| `Summary.GenerateSummary` | client/formulaire-lowreka.js:392-426 | at most five supplier lines and two product lines, and exactly one line per catalogue question |
| `Summary.DisplayMatchesFlatten` | functions/send-to-airtable.js:182-184 | the recap shows an answer as the handler flattens it for storage, except that an empty answer shows "Non renseigné" |
| `Summary.OneLinePerQuestion` | client/formulaire-lowreka.js:412-422 | line `k` of the questions section carries question `k`'s title, "Non renseigné" for a missing answer, and the joined items for a list |
| `Summary.RecapOfCheckboxQuestion` | client/formulaire-lowreka.js:359-423 | after collecting a step, a checkbox question's recap line shows its checked values joined with ", " |
| `Summary.RecapOfWrittenQuestion` | client/formulaire-lowreka.js:369-423 | after collecting a step, a text or radio question's recap line shows the value last written, or "Non renseigné" when that value is empty |
| `Navigation.Start` | client/formulaire-lowreka.js:52 | the first step is shown and nothing is collected |
| `Navigation.Next` | client/formulaire-lowreka.js:472-483 | an invalid step changes nothing; a valid one is collected; the next step is shown iff collecting did not throw and a next step exists; the recap is regenerated exactly when the shown step becomes the final one |
| `Navigation.Prev` | client/formulaire-lowreka.js:485-489 | back one step unless on the first; the answers and recap are untouched |
| `Navigation.PrevUndoesNext` | client/formulaire-lowreka.js:472-489 | Prev right after a successful Next returns to the step left, keeping what Next collected |
| `Navigation.RunInvariant` | client/formulaire-lowreka.js:472-489 | over any clicks, the shown index stays within the steps; it moves forward at most once per Next click and back at most once per Prev click; without a Next click nothing is collected |
| `Navigation.ProgressBar` | client/formulaire-lowreka.js:243-279 | for shown step `i`, exactly one step is active, markers 0..i are highlighted (i + 1 of them), and so are the i segments before step i |
| `Numbers.ParseNumber` | functions/send-to-airtable.js:206-207 | a digit string parses to its value; a string starting with anything other than a digit, sign or point is NaN |
| `Scoring.LastIndex` | functions/send-to-airtable.js:158-159 | the position of the last occurrence of a key, or -1 exactly when it does not occur |
| `Scoring.LookupMapLastWins` | functions/send-to-airtable.js:155-162 | the lookup map holds exactly the non-empty field names of the definitions, each bound to the last definition with that name |
| `Scoring.TotalStep` | functions/send-to-airtable.js:205-231 | one more answer adds its parsed value times its parsed coefficient to its category's total; it adds nothing when it is a fixed field, has no definition, has another category, or either number does not parse |
| `Scoring.TotalAppend` | functions/send-to-airtable.js:149-150 | a total over two runs of answers is the sum of the two totals |
| `Scoring.TotalWithoutScoredAnswer` | functions/send-to-airtable.js:149-150 | without a scorable answer, a total stays 0 |
| `Scoring.MassOfAnswer` | functions/send-to-airtable.js:189-202 | a mass answer is kept as a number when it parses, and as its text otherwise |
| `Scoring.MassFromLastAnswer` | functions/send-to-airtable.js:151-152 | a mass is null when no answer has its key, and otherwise comes from the last answer that has it |
| `Scoring.AnswerRecords` | functions/send-to-airtable.js:233-241 | every record is linked to the product, has a question id and a non-blank text |
| `Scoring.AnswerRecordsAppend` | functions/send-to-airtable.js:166-249 | records keep the enumeration order of the answers |
| `Scoring.SelectedAnswerRecorded` | functions/send-to-airtable.js:234-241 | every non-fixed, non-blank answer whose definition has an id gets its record |
| `Scoring.RecordFromSelectedAnswer` | functions/send-to-airtable.js:234-241 | every record comes from such an answer |
| `Scoring.ScoresAfterParts` | functions/send-to-airtable.js:167-249 | the loop's running state is the two totals, the two masses and the records of the answers seen so far |
| `Scoring.ProcessAnswers` | functions/send-to-airtable.js:148-249 | the loop over the answers computes the `EmatA` and `EmatB` totals, the two masses and the answer records |
| `Scoring.ScoredAnswerExample` | functions/send-to-airtable.js:205-212 | an answer of 3 to an `EmatA` question with coefficient 2 scores 6 |
| `Scoring.UnparsedAnswerExample` | functions/send-to-airtable.js:210-216 | a non-numeric answer scores nothing |
| `Scoring.MassExamples` | functions/send-to-airtable.js:189-194 | `MasseA` "1.5" is stored as the number 1.5, and "lourd" as its text |
| `Batching.Batches` | functions/send-to-airtable.js:253-259 | the batches flatten back to the records in order; none is empty; all but the last hold 10; there are ⌈n/10⌉ of them |
| `Batching.BatchIsSlice` | functions/send-to-airtable.js:256-257 | batch `k` is the slice from 10k to 10k + 10, cut at the end of the list |
| `Batching.BatchExists` | functions/send-to-airtable.js:256 | batch `k` exists iff 10k is below the number of records |
| `Batching.TwentyThreeRecords` | functions/send-to-airtable.js:255-259 | twenty-three records go out as batches of 10, 10 and 3 |
| `Handler.Value` | functions/send-to-airtable.js:121-125 | a field copied into a record is absent exactly when no answer has its name; otherwise it is the answer of the last entry with that name |
| `Handler.Fields` | functions/send-to-airtable.js:117-145 | the supplier and product records have one entry per named field, in order; an entry is absent exactly when no answer has its name, and otherwise holds the answer filed last under it |
| `Handler.BatchWrites` | functions/send-to-airtable.js:253-259 | every write is a create on the answers table holding 1 to 10 records, and the writes' records, concatenated, give back the answer records in order |
| `Handler.Gate` | functions/send-to-airtable.js:26-106 | 204 for a preflight; 405 without POST or a body; 400 when the body does not parse; a throw for a `null` body; 400 without answers; 500 without a score table; no reply exactly when the request is to be stored |
| `Handler.SendBatches` | functions/send-to-airtable.js:253-259 | the batches are created in order until one fails; a failed create is the last one made, and its message is returned |
| `Handler.Submit` | functions/send-to-airtable.js:115-303 | the creates follow the plan (supplier, product, batches, score), each issued only after the previous ones succeeded; a failure stops at once with 500 and its message; success of all answers 200 with the supplier, product and score ids |
| `Handler.Handle` | functions/send-to-airtable.js:9-303 | a request stopped at a gate gets the gate's reply and creates nothing; an accepted one is stored in order |
| `Handler.PlanOrder` | functions/send-to-airtable.js:117-280 | the plan starts with the supplier, then the product linked to the supplier's id; then batches of at most ten records that give back the answer records in order; then the score linked to the product's id; every record is linked to the product |
| `Handler.CatalogueAnswerRecorded` | functions/send-to-airtable.js:155-241 | when the client sends its catalogue, a non-blank answer under a catalogue field name (other than a fixed field) is stored, linked to the last catalogue question with that name |

Functions without a contract of their own are described by the rows about them:

- `Collection.CollectStep` by `CollectFrame`, `CollectCheckboxGroup`, `CollectLastWrite`, `CollectNoAbort` and `CollectIdempotent`;
- `Scoring.LookupMap` by `LookupMapLastWins`;
- `Scoring.Total` by `TotalStep`, `TotalAppend` and `TotalWithoutScoredAnswer`;
- `Scoring.MassOf` by `MassFromLastAnswer`;
- `Validation.FieldProblem` by `FieldRules`;
- `Validation.StepValid` by `ValidateStep`;
- `Stages.GroupSteps` by `StepsAscending`, `StepsCoverStages`, `StepContents` and `EveryQuestionInOneStep`;
- `Handler.Planned` by `PlanOrder`.

## Left out

- Rendering is not modelled:
  - the DOM, the HTML of the inputs (`generateInputField`) and of the steps;
  - scrolling;
  - the listener wiring (`updateButtons`, `connectedCallback`);
  - the CSS classes put on invalid fields.
  - Validation returns the problems instead of writing them into the page.
- The fetches (`initializeForm`'s network call, the form submission `handleSubmitForm`) and `resetForm` are not modelled. A fetch's outcome is a parameter.
- functions/get-form-questions.js is not part of this model.
- Console logging is not modelled; it has no effect on the result.
- The Airtable client's construction and environment variables are not modelled. They become a `Config` of table names, with the empty string for an unset variable. Each create is a call on a `Store` function.
- `Numbers.ParseNumber`: models `parseFloat` only on plain decimal numerals (sign, digits, one point).
  - It does not model leading whitespace, a valid prefix followed by junk (`"12kg"`), exponents or `Infinity`: these read as NaN here.
  - Arithmetic is on exact reals, not IEEE doubles.
- Stages (`etape`) are modelled as integers, so `parseInt` on stage keys and the string keys of `stepsByStage` are not modelled.
  - The catalogue comparator uses `!==` first and `parseInt` after; on integers this is the numeric order.
- `ordre` is an integer. The default of `ordre || 0` covers an absent order; a falsy order of another type is not modelled.
- `coeff_questions || 0` yields the number 0, modelled as the text "0". Both parse to 0 on the server.
- Option strings of a non-string type (`q.options.split` would throw) are not modelled.
- `Catalogue.LoadCatalogue`: a `null` element in a list response is not modelled. The source empties the catalogue (client/formulaire-lowreka.js:80) and then throws on reading the element's fields (line 84). The catalogue is then left holding the questions before that element, not the previous catalogue. The model's raw questions are always records.
- `Handler.Submit`: a `null` element in the client's catalogue is not modelled. The source throws while building the lookup map (functions/send-to-airtable.js:157-158), after the supplier and product are created. The reply is then 500 and those two records remain. The model's definitions are always records.
- `Handler.Gate`: a body that parses to something other than an object or `null` (a number, a string) is treated as having no `formData`. This is what JavaScript does, but the parse result is abstracted to the three `Document` cases.
- Submitted answers are modelled as a list of (name, answer) pairs in `for...in` order.
  - A JavaScript object cannot hold a name twice, and enumerates integer-like names first. The model allows a name twice and takes the enumeration order as given: `Value` and the masses take the last occurrence, while the totals and the answer records count every occurrence. With each name once, as in JavaScript, the two readings agree.
  - Answers that are neither strings nor arrays of strings (JSON numbers, booleans, `null`) are not modelled.
- `updateProgressBar`'s early return before the bar is generated is not modelled; the bar is assumed generated.
- In the group check of `validateStep`, only `input` elements are queried. The model looks at every control of the step with that name, which differs only if a `select` or `textarea` shares a radio or checkbox group's name.
- As in the source, an empty checkbox list is truthy. A checkbox question with nothing checked therefore shows an empty text in the recap, not "Non renseigné" (`Summary.Display`).
- Each create is modelled as returning one id. The records beyond the first of a batch are not given ids, because the handler never reads them.
