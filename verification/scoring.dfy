/**
  The computation the submission handler performs on the submitted answers
  before storing them: the lookup of question definitions by field name, the
  `EmatA`/`EmatB` score totals, the `MasseA`/`MasseB` masses and the answer
  records linked to their questions.
*/
module Scoring {
  import opened Maybe
  import opened Text
  import opened Numbers
  import opened Answers

  /**
    A question definition as the handler receives it in `dynamicQuestions`;
    a missing or falsy field is the empty string.
  */
  datatype Definition = Definition(indicateur: string, idQuestion: string, categorie: string, coeff: string)

  /** The submitted answers, in the order `for...in` enumerates them. */
  type FormData = seq<(string, Answer)>

  /** The supplier, product and timestamp fields, which are stored elsewhere and never become answer records. */
  const FixedKeys: set<string> := {
    "prenom_fournisseur", "nom_fournisseur", "email_fournisseur",
    "entreprise_fournisseur", "siret_fournisseur", "nom_produit",
    "description_produit", "timestamp_soumission"
  }

  const EmatA: string := "EmatA"
  const EmatB: string := "EmatB"
  const MasseAKey: string := "MasseA"
  const MasseBKey: string := "MasseB"

  /** The field names of the definitions, in order. */
  function Indicateurs(defs: seq<Definition>): seq<string> {
    seq(|defs|, i requires 0 <= i < |defs| => defs[i].indicateur)
  }

  /** The position of the last occurrence of `k` in `keys`, or -1. */
  function LastIndex(keys: seq<string>, k: string): (i: int)
    ensures -1 <= i < |keys|
    ensures i == -1 <==> k !in keys
    ensures i >= 0 ==> keys[i] == k && k !in keys[i + 1..]
  {
    if |keys| == 0 then -1
    else if keys[|keys| - 1] == k then |keys| - 1
    else
      var init := keys[..|keys| - 1];
      var i := LastIndex(init, k);
      assert keys == init + [keys[|keys| - 1]];
      if i >= 0 then
        assert keys[i + 1..] == init[i + 1..] + [keys[|keys| - 1]];
        i
      else
        assert k !in init;
        i
  }

  /**
    `questionLookupMap`: definitions filed under their field name, skipping
    those without one; for a name used twice the later definition wins.
  */
  function LookupMap(defs: seq<Definition>): map<string, Definition> {
    if |defs| == 0 then map[]
    else
      var d := defs[|defs| - 1];
      var m := LookupMap(defs[..|defs| - 1]);
      if d.indicateur != "" then m[d.indicateur := d] else m
  }

  /**
    The lookup map holds exactly the non-empty field names of the
    definitions, each bound to the last definition filed under it.
  */
  lemma {:induction false} LookupMapLastWins(defs: seq<Definition>)
    ensures forall k :: k in LookupMap(defs) <==> k != "" && k in Indicateurs(defs)
    ensures forall k :: k in LookupMap(defs) ==> LookupMap(defs)[k] == defs[LastIndex(Indicateurs(defs), k)]
  {
    if |defs| > 0 {
      var init := defs[..|defs| - 1];
      var d := defs[|defs| - 1];
      LookupMapLastWins(init);
      var keys := Indicateurs(defs);
      assert keys[..|keys| - 1] == Indicateurs(init);
      forall k ensures k in keys <==> k in Indicateurs(init) || k == d.indicateur {
        assert keys == Indicateurs(init) + [d.indicateur];
      }
      forall k | k != d.indicateur && k in Indicateurs(init)
        ensures LastIndex(keys, k) == LastIndex(Indicateurs(init), k)
      {
      }
    }
  }

  /** `dynamicQuestions` when it is an array, or nothing when it is missing or of another kind. */
  function Lookup(defs: Option<seq<Definition>>): map<string, Definition> {
    if defs.Some? then LookupMap(defs.value) else map[]
  }

  /** The parsed answer and coefficient of a categorised answer, when both parse. */
  predicate Scored(key: string, a: Answer, lookup: map<string, Definition>, category: string) {
    && key in lookup && lookup[key].categorie == category
    && ParseNumber(Flatten(a)).Some? && ParseNumber(lookup[key].coeff).Some?
  }

  /** What one answer adds to the total of `category`: its value times its coefficient, or 0 when either does not parse. */
  function Contribution(key: string, a: Answer, lookup: map<string, Definition>, category: string): real {
    if Scored(key, a, lookup, category) then ParseNumber(Flatten(a)).value * ParseNumber(lookup[key].coeff).value
    else 0.0
  }

  /** The running total of `category` over the non-fixed answers, accumulated in enumeration order. */
  function Total(fd: FormData, lookup: map<string, Definition>, category: string): real {
    if |fd| == 0 then 0.0
    else
      var last := fd[|fd| - 1];
      Total(fd[..|fd| - 1], lookup, category) + (if last.0 in FixedKeys then 0.0 else Contribution(last.0, last.1, lookup, category))
  }

  /** The total of a concatenation is the sum of the totals. */
  lemma {:induction false} TotalAppend(a: FormData, b: FormData, lookup: map<string, Definition>, category: string)
    ensures Total(a + b, lookup, category) == Total(a, lookup, category) + Total(b, lookup, category)
  {
    if |b| == 0 {
      assert a + b == a;
    } else {
      assert (a + b)[..|a + b| - 1] == a + b[..|b| - 1];
      TotalAppend(a, b[..|b| - 1], lookup, category);
    }
  }

  /**
    One more answer adds nothing to a total when its field is fixed, has no
    definition, has a definition of another category, or when its answer or
    coefficient does not parse; otherwise it adds the parsed answer times
    the parsed coefficient.
  */
  lemma TotalStep(fd: FormData, key: string, a: Answer, lookup: map<string, Definition>, category: string)
    ensures key in FixedKeys || !Scored(key, a, lookup, category) ==>
      Total(fd + [(key, a)], lookup, category) == Total(fd, lookup, category)
    ensures key !in FixedKeys && Scored(key, a, lookup, category) ==>
      Total(fd + [(key, a)], lookup, category)
        == Total(fd, lookup, category) + ParseNumber(Flatten(a)).value * ParseNumber(lookup[key].coeff).value
  {
    assert (fd + [(key, a)])[..|fd|] == fd;
  }

  /** Without a categorised answer that parses, a total is 0. */
  lemma {:induction false} TotalWithoutScoredAnswer(fd: FormData, lookup: map<string, Definition>, category: string)
    requires forall i :: 0 <= i < |fd| ==> !Scored(fd[i].0, fd[i].1, lookup, category)
    ensures Total(fd, lookup, category) == 0.0
  {
    if |fd| > 0 {
      var init := fd[..|fd| - 1];
      assert forall i :: 0 <= i < |init| ==> init[i] == fd[i];
      TotalWithoutScoredAnswer(init, lookup, category);
    }
  }

  /** A mass as stored in the score record: absent (`null`), a number, or the raw answer when it does not parse. */
  datatype Mass = NoMass | MassNumber(value: real) | MassText(text: string)

  /** The mass one answer gives: its number when it parses, else its text. */
  function MassOfAnswer(a: Answer): (r: Mass)
    ensures r.MassNumber? <==> ParseNumber(Flatten(a)).Some?
    ensures r.MassNumber? ==> Some(r.value) == ParseNumber(Flatten(a))
    ensures r.MassText? ==> r.text == Flatten(a) && ParseNumber(r.text).None?
  {
    match ParseNumber(Flatten(a))
    case Some(x) => MassNumber(x)
    case None => MassText(Flatten(a))
  }

  /** The field names of the answers, in order. */
  function Keys(fd: FormData): seq<string> {
    seq(|fd|, i requires 0 <= i < |fd| => fd[i].0)
  }

  /** `productA_Mass` / `productB_Mass` after the loop: every answer filed under the mass key sets it. */
  function MassOf(fd: FormData, key: string): Mass {
    if |fd| == 0 then NoMass
    else if fd[|fd| - 1].0 == key then MassOfAnswer(fd[|fd| - 1].1)
    else MassOf(fd[..|fd| - 1], key)
  }

  /** The mass is `null` when no answer has its key, and otherwise comes from the last answer that has it. */
  lemma {:induction false} MassFromLastAnswer(fd: FormData, key: string)
    ensures LastIndex(Keys(fd), key) == -1 ==> MassOf(fd, key) == NoMass
    ensures LastIndex(Keys(fd), key) >= 0 ==> MassOf(fd, key) == MassOfAnswer(fd[LastIndex(Keys(fd), key)].1)
  {
    if |fd| > 0 {
      var init := fd[..|fd| - 1];
      assert Keys(fd)[..|fd| - 1] == Keys(init);
      MassFromLastAnswer(init, key);
    }
  }

  /** A row of the answers table: the product, the question it answers and the answer's text. */
  datatype AnswerRecord = AnswerRecord(productId: string, questionId: string, text: string)

  /** The answer is stored: its field is not fixed, its text is not blank, and its definition has an id. */
  predicate Selected(key: string, a: Answer, lookup: map<string, Definition>) {
    key !in FixedKeys && !IsBlank(Flatten(a)) && key in lookup && lookup[key].idQuestion != ""
  }

  function RecordOf(key: string, a: Answer, lookup: map<string, Definition>, productId: string): AnswerRecord
    requires key in lookup
  {
    AnswerRecord(productId, lookup[key].idQuestion, Flatten(a))
  }

  /** `answersToCreate`: one record per selected answer, in enumeration order. */
  function AnswerRecords(fd: FormData, lookup: map<string, Definition>, productId: string): (r: seq<AnswerRecord>)
    ensures |r| <= |fd|
    ensures forall k :: 0 <= k < |r| ==> r[k].productId == productId && r[k].questionId != "" && !IsBlank(r[k].text)
  {
    if |fd| == 0 then []
    else
      var last := fd[|fd| - 1];
      AnswerRecords(fd[..|fd| - 1], lookup, productId)
        + (if Selected(last.0, last.1, lookup) then [RecordOf(last.0, last.1, lookup, productId)] else [])
  }

  /** The records keep the enumeration order: the records of a concatenation are those of its parts, concatenated. */
  lemma {:induction false} AnswerRecordsAppend(a: FormData, b: FormData, lookup: map<string, Definition>, productId: string)
    ensures AnswerRecords(a + b, lookup, productId) == AnswerRecords(a, lookup, productId) + AnswerRecords(b, lookup, productId)
  {
    if |b| == 0 {
      assert a + b == a;
    } else {
      assert (a + b)[..|a + b| - 1] == a + b[..|b| - 1];
      AnswerRecordsAppend(a, b[..|b| - 1], lookup, productId);
    }
  }

  /** Every selected answer has its record. */
  lemma {:induction false} SelectedAnswerRecorded(fd: FormData, lookup: map<string, Definition>, productId: string, i: nat)
    requires i < |fd| && Selected(fd[i].0, fd[i].1, lookup)
    ensures RecordOf(fd[i].0, fd[i].1, lookup, productId) in AnswerRecords(fd, lookup, productId)
  {
    if i < |fd| - 1 {
      SelectedAnswerRecorded(fd[..|fd| - 1], lookup, productId, i);
    }
  }

  /** Every record comes from a selected answer. */
  lemma {:induction false} RecordFromSelectedAnswer(fd: FormData, lookup: map<string, Definition>, productId: string, rec: AnswerRecord)
    requires rec in AnswerRecords(fd, lookup, productId)
    ensures exists i :: 0 <= i < |fd| && Selected(fd[i].0, fd[i].1, lookup) && rec == RecordOf(fd[i].0, fd[i].1, lookup, productId)
  {
    var init := fd[..|fd| - 1];
    var last := fd[|fd| - 1];
    if rec in AnswerRecords(init, lookup, productId) {
      RecordFromSelectedAnswer(init, lookup, productId, rec);
      var i :| 0 <= i < |init| && Selected(init[i].0, init[i].1, lookup) && rec == RecordOf(init[i].0, init[i].1, lookup, productId);
      assert init[i] == fd[i];
    } else {
      assert Selected(last.0, last.1, lookup) && rec == RecordOf(last.0, last.1, lookup, productId);
    }
  }

  /** What the handler's loop over the answers computes. */
  datatype Scores = Scores(ematA: real, ematB: real, masseA: Mass, masseB: Mass, records: seq<AnswerRecord>)

  /**
    One turn of the handler's loop: a fixed field is skipped; otherwise the
    masses, the two totals and the records are updated from the answer.
  */
  function Absorb(s: Scores, key: string, a: Answer, lookup: map<string, Definition>, productId: string): Scores {
    if key in FixedKeys then s
    else
      Scores(
        s.ematA + Contribution(key, a, lookup, EmatA),
        s.ematB + Contribution(key, a, lookup, EmatB),
        if key == MasseAKey then MassOfAnswer(a) else s.masseA,
        if key == MasseBKey then MassOfAnswer(a) else s.masseB,
        s.records + (if Selected(key, a, lookup) then [RecordOf(key, a, lookup, productId)] else []))
  }

  /** The loop's state after the given answers, in enumeration order. */
  function ScoresAfter(fd: FormData, lookup: map<string, Definition>, productId: string): Scores {
    if |fd| == 0 then Scores(0.0, 0.0, NoMass, NoMass, [])
    else Absorb(ScoresAfter(fd[..|fd| - 1], lookup, productId), fd[|fd| - 1].0, fd[|fd| - 1].1, lookup, productId)
  }

  /** The loop's state holds the two totals, the two masses and the answer records of the answers seen. */
  lemma {:induction false} ScoresAfterParts(fd: FormData, lookup: map<string, Definition>, productId: string)
    ensures ScoresAfter(fd, lookup, productId).ematA == Total(fd, lookup, EmatA)
    ensures ScoresAfter(fd, lookup, productId).ematB == Total(fd, lookup, EmatB)
    ensures ScoresAfter(fd, lookup, productId).masseA == MassOf(fd, MasseAKey)
    ensures ScoresAfter(fd, lookup, productId).masseB == MassOf(fd, MasseBKey)
    ensures ScoresAfter(fd, lookup, productId).records == AnswerRecords(fd, lookup, productId)
  {
    if |fd| > 0 {
      ScoresAfterParts(fd[..|fd| - 1], lookup, productId);
      assert MasseAKey !in FixedKeys && MasseBKey !in FixedKeys;
    }
  }

  /**
    The handler's single pass over the submitted answers: fixed fields are
    skipped, array answers are joined with ", ", masses and totals are
    updated and selected answers become records.
  */
  method ProcessAnswers(fd: FormData, lookup: map<string, Definition>, productId: string) returns (s: Scores)
    ensures s.ematA == Total(fd, lookup, EmatA) && s.ematB == Total(fd, lookup, EmatB)
    ensures s.masseA == MassOf(fd, MasseAKey) && s.masseB == MassOf(fd, MasseBKey)
    ensures s.records == AnswerRecords(fd, lookup, productId)
  {
    s := Scores(0.0, 0.0, NoMass, NoMass, []);
    var i := 0;
    while i < |fd|
      invariant 0 <= i <= |fd|
      invariant s == ScoresAfter(fd[..i], lookup, productId)
    {
      assert fd[..i + 1][..i] == fd[..i];
      s := Absorb(s, fd[i].0, fd[i].1, lookup, productId);
      i := i + 1;
    }
    assert fd[..i] == fd;
    ScoresAfterParts(fd, lookup, productId);
  }

  /** The whole numerals of the worked examples below. */
  lemma {:induction false} WholeNumerals()
    ensures ParseNumber("3") == Some(3.0) && ParseNumber("2") == Some(2.0)
  {
    assert DigitsValue("3") == 3 by { assert "3"[..0] == ""; }
    assert DigitsValue("2") == 2 by { assert "2"[..0] == ""; }
  }

  /** The decimal numeral of the worked examples below. */
  lemma {:induction false} DecimalNumeral()
    ensures ParseNumber("1.5") == Some(1.5)
  {
    assert IndexOf("1.5", '.') == 1;
    assert "1.5"[..1] == "1" && "1.5"[2..] == "5";
    assert DigitsValue("1") == 1 by { assert "1"[..0] == ""; }
    assert DigitsValue("5") == 5 by { assert "5"[..0] == ""; }
  }

  /** Worked example: an answer of 3 to a question with coefficient 2 scores 6. */
  lemma {:induction false} ScoredAnswerExample()
    ensures Total([("q1", Str("3"))], map["q1" := Definition("q1", "rec1", EmatA, "2")], EmatA) == 6.0
  {
    WholeNumerals();
    assert [("q1", Str("3"))][..0] == [];
  }

  /** Worked example: a non-numeric answer scores nothing. */
  lemma {:induction false} UnparsedAnswerExample()
    ensures Total([("q1", Str("abc"))], map["q1" := Definition("q1", "rec1", EmatA, "2")], EmatA) == 0.0
  {
    assert ParseNumber("abc").None?;
    assert [("q1", Str("abc"))][..0] == [];
  }

  /** Worked examples: a mass is kept as a number when it parses, and as its text otherwise. */
  lemma {:induction false} MassExamples()
    ensures MassOf([(MasseAKey, Str("1.5"))], MasseAKey) == MassNumber(1.5)
    ensures MassOf([(MasseAKey, Str("lourd"))], MasseAKey) == MassText("lourd")
  {
    DecimalNumeral();
    assert ParseNumber("lourd").None?;
  }
}
