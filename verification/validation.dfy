/**
  Per-step validation of the form (`validateStep`): required text-like
  fields must be non-blank, email fields must match `^[^@]+@[^@]+\.[^@]+$`,
  the supplier registration number (`siret_fournisseur`) must be exactly 14
  digits, and a required radio or checkbox group needs one checked member.
*/
module Validation {
  import opened Maybe
  import opened Text

  /**
    A form control of a step as the page exposes it: `kind` is the control's
    `type` ("text", "email", "number", "date", "radio", "checkbox",
    "textarea", "select-one", "submit", "button", ...).
  */
  datatype Input = Input(name: string, kind: string, value: string, checked: bool, required: bool)

  /** A rendered step: whether it is the final summary step (`data-step="final"`) and its controls in document order. */
  datatype StepView = StepView(isFinal: bool, inputs: seq<Input>)

  /** Why a field is invalid. */
  datatype Problem = Missing | BadEmail | BadSiret | NothingSelected

  function Message(p: Problem): string {
    match p
    case Missing => "Ce champ est requis."
    case BadEmail => "Veuillez entrer une adresse email valide."
    case BadSiret => "Le numéro SIRET doit contenir 14 chiffres."
    case NothingSelected => "Veuillez sélectionner au moins une option."
  }

  /** The status line a step shows when one of its fields is invalid. */
  const StepErrorMessage: string := "Veuillez corriger les erreurs dans les champs requis."

  /** The field holding the supplier's registration number. */
  const SiretField: string := "siret_fournisseur"

  predicate IsChoice(inp: Input) {
    inp.kind == "radio" || inp.kind == "checkbox"
  }

  /**
    The language of `^[^@]+@[^@]+\.[^@]+$`: one `@` with something before
    it, and after it a `.` that is neither the first nor the last character
    of the rest; no other `@` anywhere.
  */
  ghost predicate MatchesEmailPattern(s: string) {
    exists at, dot ::
      && 0 < at && at + 1 < dot && dot + 1 < |s|
      && s[at] == '@' && s[dot] == '.'
      && forall k :: 0 <= k < |s| && k != at ==> s[k] != '@'
  }

  /** A matcher for the email pattern that scans from the first `@`. */
  predicate IsEmail(s: string) {
    && '@' in s
    && var at := IndexOf(s, '@');
    && at > 0
    && '@' !in s[at + 1..]
    && exists dot :: at + 1 < dot < |s| - 1 && s[dot] == '.'
  }

  /** The matcher accepts exactly the strings of the pattern's language. */
  lemma EmailMatcherCorrect(s: string)
    ensures IsEmail(s) <==> MatchesEmailPattern(s)
  {
    if IsEmail(s) {
      var at := IndexOf(s, '@');
      var dot :| at + 1 < dot < |s| - 1 && s[dot] == '.';
      forall k | 0 <= k < |s| && k != at
        ensures s[k] != '@'
      {
        if k < at {
          assert s[k] == s[..at][k];
        } else {
          assert s[k] == s[at + 1..][k - at - 1];
        }
      }
    }
    if MatchesEmailPattern(s) {
      var at, dot :|
        && 0 < at && at + 1 < dot && dot + 1 < |s|
        && s[at] == '@' && s[dot] == '.'
        && forall k :: 0 <= k < |s| && k != at ==> s[k] != '@';
      assert '@' in s;
      assert IndexOf(s, '@') == at;
      assert '@' !in s[at + 1..] by {
        var rest := s[at + 1..];
        forall k | 0 <= k < |rest| ensures rest[k] != '@' {
          assert rest[k] == s[at + 1 + k];
        }
      }
    }
  }

  /** `^[0-9]{14}$`. */
  predicate IsSiret(s: string) {
    |s| == 14 && AllDigits(s)
  }

  /** Some control of the step named `name` is checked. */
  predicate GroupChecked(inputs: seq<Input>, name: string) {
    exists j :: 0 <= j < |inputs| && inputs[j].name == name && inputs[j].checked
  }

  /**
    The problem `validateStep` reports for one required control of a step, if
    any: text-like controls are checked for blankness, then the email
    pattern, then the registration number; choice controls for a checked
    member of their group.
  */
  function FieldProblem(inp: Input, inputs: seq<Input>): Option<Problem> {
    if !IsChoice(inp) then
      if IsBlank(inp.value) then Some(Missing)
      else if inp.kind == "email" && !IsEmail(inp.value) then Some(BadEmail)
      else if inp.name == SiretField && !IsBlank(inp.value) && !IsSiret(inp.value) then Some(BadSiret)
      else None
    else if inp.required && !GroupChecked(inputs, inp.name) then Some(NothingSelected)
    else None
  }

  /**
    When a required control is invalid: a text-like control iff it is blank,
    or an email control outside the pattern's language, or the registration
    number field holding something other than 14 digits; a radio or checkbox
    iff no control of the step with its name is checked.
  */
  lemma FieldRules(inp: Input, inputs: seq<Input>)
    ensures !IsChoice(inp) ==>
      (FieldProblem(inp, inputs).Some? <==>
        || IsBlank(inp.value)
        || (inp.kind == "email" && !MatchesEmailPattern(inp.value))
        || (inp.name == SiretField && !IsBlank(inp.value) && !IsSiret(inp.value)))
    ensures IsChoice(inp) && inp.required ==>
      (FieldProblem(inp, inputs).None? <==>
        exists j :: 0 <= j < |inputs| && inputs[j].name == inp.name && inputs[j].checked)
  {
    EmailMatcherCorrect(inp.value);
  }

  /** Step 0 and the final step always pass; any other step passes iff none of its required controls has a problem. */
  predicate StepValid(index: nat, step: StepView) {
    || index == 0
    || step.isFinal
    || forall i :: 0 <= i < |step.inputs| && step.inputs[i].required ==> FieldProblem(step.inputs[i], step.inputs).None?
  }

  /**
    `validateStep`: walks the required controls in document order and
    records the position and problem of each invalid one. The result is the
    step's validity; nothing but the returned error list is produced.
  */
  method ValidateStep(index: nat, step: StepView) returns (valid: bool, errors: seq<(nat, Problem)>)
    ensures valid == StepValid(index, step)
    ensures valid <==> errors == []
    ensures forall k :: 0 <= k < |errors| ==>
      && errors[k].0 < |step.inputs|
      && step.inputs[errors[k].0].required
      && FieldProblem(step.inputs[errors[k].0], step.inputs) == Some(errors[k].1)
    ensures forall k, l :: 0 <= k < l < |errors| ==> errors[k].0 < errors[l].0
    ensures index != 0 && !step.isFinal ==>
      forall i :: 0 <= i < |step.inputs| && step.inputs[i].required && FieldProblem(step.inputs[i], step.inputs).Some? ==>
        (i, FieldProblem(step.inputs[i], step.inputs).value) in errors
  {
    if index == 0 || step.isFinal {
      return true, [];
    }
    var inputs := step.inputs;
    valid := true;
    errors := [];
    var i := 0;
    while i < |inputs|
      invariant 0 <= i <= |inputs|
      invariant valid <==> errors == []
      invariant forall k :: 0 <= k < |errors| ==>
        && errors[k].0 < i
        && inputs[errors[k].0].required
        && FieldProblem(inputs[errors[k].0], inputs) == Some(errors[k].1)
      invariant forall k, l :: 0 <= k < l < |errors| ==> errors[k].0 < errors[l].0
      invariant forall j :: 0 <= j < i && inputs[j].required && FieldProblem(inputs[j], inputs).Some? ==>
        (j, FieldProblem(inputs[j], inputs).value) in errors
    {
      if inputs[i].required {
        var problem := FieldProblem(inputs[i], inputs);
        if problem.Some? {
          valid := false;
          errors := errors + [(i, problem.value)];
        }
      }
      i := i + 1;
    }
    if !valid {
      assert inputs[errors[0].0].required && FieldProblem(inputs[errors[0].0], inputs).Some?;
    }
  }

  /** An address without `@` is rejected. */
  lemma {:induction false} MalformedEmailExample()
    ensures !MatchesEmailPattern("not-an-email")
  {
    var s := "not-an-email";
    forall k | 0 <= k < |s| ensures s[k] != '@' {
    }
  }

  /** A short well-formed address is accepted. */
  lemma {:induction false} WellFormedEmailExample()
    ensures MatchesEmailPattern("a@b.co")
  {
    EmailMatcherCorrect("a@b.co");
    assert IndexOf("a@b.co", '@') == 1;
    assert "a@b.co"[3] == '.';
  }

  /** A short and a full registration number. */
  lemma SiretExamples()
    ensures !IsSiret("1234") && IsSiret("12345678901234")
  {
  }
}
