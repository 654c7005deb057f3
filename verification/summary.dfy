/**
  The recap shown on the final step (`generateSummary`): the supplier and
  product fields that hold something, then one line per catalogue question
  with its answer, or "Non renseigné" when there is none.
*/
module Summary {
  import opened Maybe
  import opened Text
  import opened Answers
  import opened Catalogue
  import opened Validation
  import opened Collection

  /** One `<p><strong>title:</strong> text</p>` line of the recap. */
  datatype Line = Line(title: string, text: string)

  /** The three sections of the recap: supplier, product and catalogue questions. */
  datatype Recap = Recap(supplier: seq<Line>, product: seq<Line>, questions: seq<Line>)

  /** Shown for a question without an answer. */
  const NotProvided: string := "Non renseigné"

  /** The fixed supplier fields, as (answer key, title), in display order. */
  const SupplierFields: seq<(string, string)> := [
    ("prenom_fournisseur", "Prénom"),
    ("nom_fournisseur", "Nom"),
    ("email_fournisseur", "Email"),
    ("entreprise_fournisseur", "Entreprise"),
    ("siret_fournisseur", "SIRET")
  ]

  /** The fixed product fields, as (answer key, title), in display order. */
  const ProductFields: seq<(string, string)> := [
    ("nom_produit", "Nom du produit"),
    ("description_produit", "Description du produit")
  ]

  function Get(answers: AnswerMap, key: string): Option<Answer> {
    if key in answers then Some(answers[key]) else None
  }

  /** JavaScript truthiness of an answer: a non-empty string, or any array (even an empty one). */
  predicate Provided(v: Option<Answer>) {
    v.Some? && v.value != Str("")
  }

  /** A value placed in a template literal: an array becomes its items joined with ",". */
  function Interpolate(a: Answer): string {
    match a
    case Str(s) => s
    case List(items) => Join(items, ",")
  }

  /** How a question's answer is shown: absent or empty is "Non renseigné", an array is joined with ", ". */
  function Display(v: Option<Answer>): (r: string)
    ensures !Provided(v) ==> r == NotProvided
    ensures v.Some? && v.value.List? ==> r == Join(v.value.items, ListSeparator)
    ensures v.Some? && v.value.Str? && v.value.text != "" ==> r == v.value.text
  {
    if !Provided(v) then NotProvided else Flatten(v.value)
  }

  /** The lines of the fixed fields that hold something, in field order. */
  function FixedLines(fields: seq<(string, string)>, answers: AnswerMap): (r: seq<Line>)
    ensures |r| <= |fields|
    ensures forall i :: 0 <= i < |fields| && Provided(Get(answers, fields[i].0)) ==>
      Line(fields[i].1, Interpolate(answers[fields[i].0])) in r
    ensures forall l :: l in r ==>
      (exists i :: 0 <= i < |fields| && Provided(Get(answers, fields[i].0)) && l == Line(fields[i].1, Interpolate(answers[fields[i].0])))
  {
    if |fields| == 0 then []
    else
      var rest := FixedLines(fields[1..], answers);
      assert forall i :: 1 <= i < |fields| ==> fields[i] == fields[1..][i - 1];
      var (key, title) := fields[0];
      if Provided(Get(answers, key)) then [Line(title, Interpolate(answers[key]))] + rest else rest
  }

  /** The fixed lines keep field order: the lines of a concatenation of fields are those of its parts, concatenated. */
  lemma {:induction false} FixedLinesAppend(a: seq<(string, string)>, b: seq<(string, string)>, answers: AnswerMap)
    ensures FixedLines(a + b, answers) == FixedLines(a, answers) + FixedLines(b, answers)
  {
    if |a| == 0 {
      assert a + b == b;
    } else {
      assert (a + b)[0] == a[0];
      assert (a + b)[1..] == a[1..] + b;
      FixedLinesAppend(a[1..], b, answers);
    }
  }

  /** One fixed field gives its line, with its interpolated answer, iff the answer is truthy. */
  lemma FixedLinesSingle(field: (string, string), answers: AnswerMap)
    ensures FixedLines([field], answers)
      == if Provided(Get(answers, field.0)) then [Line(field.1, Interpolate(answers[field.0]))] else []
  {
    assert [field][1..] == [];
  }

  /** One line per catalogue question, in catalogue order, titled by the question. */
  function QuestionLines(qs: seq<Question>, answers: AnswerMap): (r: seq<Line>)
    ensures |r| == |qs|
    ensures forall i :: 0 <= i < |qs| ==> r[i] == Line(qs[i].titre, Display(Get(answers, qs[i].indicateur)))
  {
    if |qs| == 0 then []
    else [Line(qs[0].titre, Display(Get(answers, qs[0].indicateur)))] + QuestionLines(qs[1..], answers)
  }

  /** `generateSummary`. */
  function GenerateSummary(answers: AnswerMap, catalogue: seq<Question>): (r: Recap)
    ensures |r.supplier| <= 5 && |r.product| <= 2
    ensures |r.questions| == |catalogue|
  {
    Recap(FixedLines(SupplierFields, answers), FixedLines(ProductFields, answers), QuestionLines(catalogue, answers))
  }

  /**
    The recap shows an answer the way the handler flattens it for storage,
    except that an empty answer is shown as "Non renseigné".
  */
  lemma DisplayMatchesFlatten(a: Answer)
    ensures a != Str("") ==> Display(Some(a)) == Flatten(a)
    ensures a == Str("") ==> Display(Some(a)) == NotProvided
  {
  }

  /** Every catalogue question gets its line, showing what the answers hold under its field name. */
  lemma {:induction false} OneLinePerQuestion(answers: AnswerMap, catalogue: seq<Question>, k: nat)
    requires k < |catalogue|
    ensures GenerateSummary(answers, catalogue).questions[k].title == catalogue[k].titre
    ensures catalogue[k].indicateur !in answers ==> GenerateSummary(answers, catalogue).questions[k].text == NotProvided
    ensures catalogue[k].indicateur in answers && answers[catalogue[k].indicateur].List? ==>
      GenerateSummary(answers, catalogue).questions[k].text == Join(answers[catalogue[k].indicateur].items, ListSeparator)
  {
  }

  /**
    Collect then recap, for a checkbox question of the step: its line shows
    the trimmed values of the checked boxes joined with ", ", and an empty
    text when none is checked.
  */
  lemma RecapOfCheckboxQuestion(inputs: seq<Input>, m: AnswerMap, q: Question)
    requires q.indicateur in CheckboxNames(inputs)
    requires forall i :: 0 <= i < |inputs| && inputs[i].name == q.indicateur && !Ignored(inputs[i]) ==> inputs[i].kind == "checkbox"
    requires CollectStep(inputs, m).Collected?
    ensures Display(Get(CollectStep(inputs, m).answers, q.indicateur)) == Join(CheckedValues(inputs, q.indicateur), ListSeparator)
  {
    CollectCheckboxGroup(inputs, m, q.indicateur);
    ShownList(CollectStep(inputs, m).answers, q.indicateur, CheckedValues(inputs, q.indicateur));
  }

  /** A list answer is shown as its items joined with ", ". */
  lemma ShownList(answers: AnswerMap, key: string, items: seq<string>)
    requires key in answers && answers[key] == List(items)
    ensures Display(Get(answers, key)) == Join(items, ListSeparator)
  {
  }

  /**
    Collect then recap, for a question answered by a text-like field or a
    radio group of the step: its line shows the trimmed value last written,
    or "Non renseigné" when that value is empty.
  */
  lemma RecapOfWrittenQuestion(inputs: seq<Input>, m: AnswerMap, q: Question)
    requires q.indicateur !in CheckboxNames(inputs)
    requires LastSet(inputs, q.indicateur).Some?
    requires CollectStep(inputs, m).Collected?
    ensures LastSet(inputs, q.indicateur).value != "" ==>
      Display(Get(CollectStep(inputs, m).answers, q.indicateur)) == LastSet(inputs, q.indicateur).value
    ensures LastSet(inputs, q.indicateur).value == "" ==>
      Display(Get(CollectStep(inputs, m).answers, q.indicateur)) == NotProvided
  {
    CollectLastWrite(inputs, m, q.indicateur);
  }
}
