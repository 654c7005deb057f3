/**
  The step-to-step state machine of the form (`handleNextClick`,
  `handlePrevClick`, `showStep`) and the highlighting of the progress bar
  (`updateProgressBar`).
*/
module Navigation {
  import opened Maybe
  import opened Answers
  import opened Catalogue
  import opened Validation
  import opened Collection
  import opened Summary

  /**
    The form's state: its rendered steps (the introduction, the static
    supplier/product step, the generated steps and the final step), the
    index of the shown step, the answers collected so far, the catalogue and
    the recap last generated.
  */
  datatype Form = Form(steps: seq<StepView>, index: nat, answers: AnswerMap, catalogue: seq<Question>, recap: Option<Recap>)

  /** The shown step exists. */
  predicate Valid(f: Form) {
    f.index < |f.steps|
  }

  /** The state after the page has loaded: the first step shown, nothing collected. */
  function Start(steps: seq<StepView>, catalogue: seq<Question>): (f: Form)
    requires |steps| > 0
    ensures Valid(f) && f.index == 0 && f.answers == map[]
  {
    Form(steps, 0, map[], catalogue, None)
  }

  /**
    `handleNextClick`: an invalid step changes nothing; a valid one is
    collected, and when collecting does not throw and a next step exists
    the next step is shown, with the recap regenerated if it is the final
    step.
  */
  function Next(f: Form): (r: Form)
    requires Valid(f)
    ensures Valid(r)
    ensures r.steps == f.steps && r.catalogue == f.catalogue
    ensures !StepValid(f.index, f.steps[f.index]) ==> r == f
    ensures StepValid(f.index, f.steps[f.index]) ==> r.answers == CollectStep(f.steps[f.index].inputs, f.answers).answers
    ensures r.index == f.index + 1 <==>
      StepValid(f.index, f.steps[f.index]) && CollectStep(f.steps[f.index].inputs, f.answers).Collected? && f.index + 1 < |f.steps|
    ensures r.index == f.index || r.index == f.index + 1
    ensures r.recap != f.recap ==>
      r.index == f.index + 1 && r.steps[r.index].isFinal && r.recap == Some(GenerateSummary(r.answers, r.catalogue))
    ensures r.index == f.index + 1 && r.steps[r.index].isFinal ==> r.recap == Some(GenerateSummary(r.answers, r.catalogue))
  {
    if !StepValid(f.index, f.steps[f.index]) then f
    else
      match CollectStep(f.steps[f.index].inputs, f.answers)
      case Aborted(partial) => f.(answers := partial)
      case Collected(answers) =>
        if f.index + 1 < |f.steps| then
          var i := f.index + 1;
          var recap := if f.steps[i].isFinal then Some(GenerateSummary(answers, f.catalogue)) else f.recap;
          f.(index := i, answers := answers, recap := recap)
        else f.(answers := answers)
  }

  /** `handlePrevClick`: back one step unless on the first; nothing is validated or collected. */
  function Prev(f: Form): (r: Form)
    requires Valid(f)
    ensures Valid(r)
    ensures r.index == if f.index > 0 then f.index - 1 else 0
    ensures r.steps == f.steps && r.answers == f.answers && r.catalogue == f.catalogue && r.recap == f.recap
  {
    if f.index > 0 then f.(index := f.index - 1) else f
  }

  /** Going back right after moving forward returns to the step left, keeping what was collected. */
  lemma PrevUndoesNext(f: Form)
    requires Valid(f) && Next(f).index == f.index + 1
    ensures Prev(Next(f)).index == f.index
    ensures Prev(Next(f)).answers == CollectStep(f.steps[f.index].inputs, f.answers).answers
  {
  }

  /** A click on one of the two navigation buttons. */
  datatype Click = NextClick | PrevClick

  /** The state after a sequence of clicks. */
  function Run(f: Form, clicks: seq<Click>): Form
    requires Valid(f)
    decreases |clicks|
  {
    if |clicks| == 0 then f
    else
      var g := if clicks[0].NextClick? then Next(f) else Prev(f);
      Run(g, clicks[1..])
  }

  function CountNext(clicks: seq<Click>): nat {
    if |clicks| == 0 then 0 else (if clicks[0].NextClick? then 1 else 0) + CountNext(clicks[1..])
  }

  /**
    Whatever the clicks, the shown step index stays within the steps, the
    steps and catalogue do not change, the index moves forward by at most
    the number of Next clicks and back by at most the number of Prev
    clicks, and without a Next click the answers do not change.
  */
  lemma {:induction false} RunInvariant(f: Form, clicks: seq<Click>)
    requires Valid(f)
    ensures Valid(Run(f, clicks))
    ensures Run(f, clicks).steps == f.steps && Run(f, clicks).catalogue == f.catalogue
    ensures Run(f, clicks).index <= f.index + CountNext(clicks)
    ensures Run(f, clicks).index + (|clicks| - CountNext(clicks)) >= f.index
    ensures CountNext(clicks) == 0 ==> Run(f, clicks).answers == f.answers
    decreases |clicks|
  {
    if |clicks| > 0 {
      var g := if clicks[0].NextClick? then Next(f) else Prev(f);
      RunInvariant(g, clicks[1..]);
    }
  }

  /** The number of true entries. */
  function CountTrue(s: seq<bool>): (r: nat)
    ensures r <= |s|
  {
    if |s| == 0 then 0 else (if s[0] then 1 else 0) + CountTrue(s[1..])
  }

  /** `showStep(i)`: which of the `n` steps carry the `active` class. */
  function ActiveSteps(n: nat, i: nat): seq<bool> {
    seq(n, j requires 0 <= j < n => j == i)
  }

  /** `updateProgressBar(i)`: which of the `n` step markers are highlighted. */
  function ActiveMarkers(n: nat, i: nat): seq<bool> {
    seq(n, j requires 0 <= j < n => j <= i)
  }

  /** `updateProgressBar(i)`: which of the `n - 1` segments between markers are highlighted. */
  function ActiveSegments(n: nat, i: nat): seq<bool>
    requires n > 0
  {
    seq(n - 1, j requires 0 <= j < n - 1 => j < i)
  }

  /** Counting the true entries splits over a concatenation. */
  lemma {:induction false} CountTrueAppend(a: seq<bool>, b: seq<bool>)
    ensures CountTrue(a + b) == CountTrue(a) + CountTrue(b)
  {
    if |a| == 0 {
      assert a + b == b;
    } else {
      assert (a + b)[1..] == a[1..] + b;
      CountTrueAppend(a[1..], b);
    }
  }

  /** A list that is true exactly below `k` has `k` true entries. */
  lemma {:induction false} CountBelow(s: seq<bool>, k: nat)
    requires k <= |s|
    requires forall j :: 0 <= j < |s| ==> (s[j] <==> j < k)
    ensures CountTrue(s) == k
  {
    if |s| > 0 {
      var t := s[..|s| - 1];
      assert s == t + [s[|s| - 1]];
      CountTrueAppend(t, [s[|s| - 1]]);
      assert CountTrue([s[|s| - 1]]) == (if s[|s| - 1] then 1 else 0);
      if k == |s| {
        CountBelow(t, k - 1);
      } else {
        CountBelow(t, k);
      }
    }
  }

  /** A list that is true only at position `i` has exactly one true entry. */
  lemma {:induction false} CountSingle(s: seq<bool>, i: nat)
    requires i < |s|
    requires forall j :: 0 <= j < |s| ==> (s[j] <==> j == i)
    ensures CountTrue(s) == 1
  {
    assert s == s[..i] + [s[i]] + s[i + 1..];
    CountTrueAppend(s[..i] + [s[i]], s[i + 1..]);
    CountTrueAppend(s[..i], [s[i]]);
    CountBelow(s[..i], 0);
    CountBelow(s[i + 1..], 0);
    assert CountTrue([s[i]]) == 1;
  }

  /**
    For a shown step `i` of `n`: exactly one step is active, the active one
    is `i`; the markers of steps 0 to `i` are highlighted (i + 1 of them) and
    so are the `i` segments before it.
  */
  lemma ProgressBar(n: nat, i: nat)
    requires i < n
    ensures CountTrue(ActiveSteps(n, i)) == 1 && ActiveSteps(n, i)[i]
    ensures CountTrue(ActiveMarkers(n, i)) == i + 1 && ActiveMarkers(n, i)[i]
    ensures CountTrue(ActiveSegments(n, i)) == i
    ensures forall j :: 0 <= j < i ==> ActiveMarkers(n, i)[j] && ActiveSegments(n, i)[j]
    ensures forall j :: i < j < n ==> !ActiveMarkers(n, i)[j] && !ActiveSteps(n, i)[j]
  {
    CountSingle(ActiveSteps(n, i), i);
    CountBelow(ActiveMarkers(n, i), i + 1);
    CountBelow(ActiveSegments(n, i), i);
  }
}
