/**
  Grouping of the catalogue into dynamic form steps (`renderDynamicSteps`):
  one step per distinct stage, steps in ascending numeric stage order, the
  questions of a step sorted by their order, and visual step numbers
  continuing after the two static steps.
*/
module Stages {
  import opened Catalogue

  /** One generated step: its visual number (`data-step`), its stage and its questions. */
  datatype Step = Step(visualNumber: int, stage: int, questions: seq<Question>)

  /** Visual number of the first generated step, after the introduction (1) and the supplier/product step (2). */
  const FirstDynamicStepNumber: int := 3

  predicate StrictlyIncreasing(s: seq<int>) {
    forall i, j :: 0 <= i < j < |s| ==> s[i] < s[j]
  }

  predicate SortedByOrdre(qs: seq<Question>) {
    forall i, j :: 0 <= i < j < |qs| ==> qs[i].ordre <= qs[j].ordre
  }

  /** The stages used by a list of questions. */
  function Etapes(qs: seq<Question>): set<int> {
    set k | 0 <= k < |qs| :: qs[k].etape
  }

  /** Adds a stage to an ascending list of distinct stages. */
  function InsertStage(e: int, s: seq<int>): (r: seq<int>)
    requires StrictlyIncreasing(s)
    ensures StrictlyIncreasing(r)
    ensures forall x :: x in r <==> x in s || x == e
  {
    if |s| == 0 then [e]
    else if e < s[0] then
      assert forall j :: 0 <= j < |s| ==> e < s[j];
      [e] + s
    else if e == s[0] then s
    else
      var tail := InsertStage(e, s[1..]);
      assert forall j :: 0 <= j < |s[1..]| ==> s[0] < s[1..][j];
      assert forall j :: 0 <= j < |tail| ==> s[0] < tail[j] by {
        forall j | 0 <= j < |tail| ensures s[0] < tail[j] {
          assert tail[j] in tail;
        }
      }
      var r := [s[0]] + tail;
      assert s == [s[0]] + s[1..];
      assert forall j :: 1 <= j < |r| ==> r[j] == tail[j - 1];
      r
  }

  /** The keys of `stepsByStage`, sorted numerically: each stage once, ascending. */
  function StagesOf(qs: seq<Question>): (r: seq<int>)
    ensures StrictlyIncreasing(r)
    ensures forall e :: e in r <==> e in Etapes(qs)
  {
    if |qs| == 0 then []
    else
      assert Etapes(qs) == {qs[0].etape} + Etapes(qs[1..]) by {
        forall e | e in Etapes(qs) ensures e in {qs[0].etape} + Etapes(qs[1..]) {
          var k :| 0 <= k < |qs| && qs[k].etape == e;
          if k > 0 { assert qs[1..][k - 1].etape == e; }
        }
        forall e | e in Etapes(qs[1..]) ensures e in Etapes(qs) {
          var k :| 0 <= k < |qs[1..]| && qs[1..][k].etape == e;
          assert qs[k + 1].etape == e;
        }
      }
      InsertStage(qs[0].etape, StagesOf(qs[1..]))
  }

  /** `stepsByStage[e]` before its sort: the questions of stage `e`, in catalogue order. */
  function OfStage(qs: seq<Question>, e: int): (r: seq<Question>)
    ensures forall q :: q in r ==> q.etape == e
    ensures |r| <= |qs|
  {
    if |qs| == 0 then []
    else (if qs[0].etape == e then [qs[0]] else []) + OfStage(qs[1..], e)
  }

  /** A stage's questions sorted by their order within the stage. */
  function StageQuestions(qs: seq<Question>, e: int): (r: seq<Question>)
    ensures SortedByOrdre(r)
    ensures forall q :: q in r ==> q.etape == e
    ensures multiset(r) == multiset(OfStage(qs, e))
  {
    var r := SortQuestions(OfStage(qs, e));
    assert forall q :: q in r ==> q.etape == e by {
      forall q | q in r ensures q.etape == e {
        assert q in multiset(OfStage(qs, e));
        assert q in OfStage(qs, e);
      }
    }
    assert SortedByOrdre(r) by {
      forall i, j | 0 <= i < j < |r| ensures r[i].ordre <= r[j].ordre {
        assert r[i] in r && r[j] in r;
        assert KeyLe(r[i], r[j]);
      }
    }
    r
  }

  /** `renderDynamicSteps`: one step per distinct stage, numbered from 3 upwards. */
  function GroupSteps(qs: seq<Question>): (steps: seq<Step>)
    ensures |steps| == |StagesOf(qs)|
    ensures forall i :: 0 <= i < |steps| ==>
      steps[i] == Step(FirstDynamicStepNumber + i, StagesOf(qs)[i], StageQuestions(qs, StagesOf(qs)[i]))
  {
    var stages := StagesOf(qs);
    seq(|stages|, i requires 0 <= i < |stages| =>
      Step(FirstDynamicStepNumber + i, stages[i], StageQuestions(qs, stages[i])))
  }

  /** The generated steps are numbered consecutively from 3 and come in strictly ascending stage order. */
  lemma StepsAscending(qs: seq<Question>)
    ensures forall i :: 0 <= i < |GroupSteps(qs)| ==> GroupSteps(qs)[i].visualNumber == FirstDynamicStepNumber + i
    ensures forall i, j :: 0 <= i < j < |GroupSteps(qs)| ==> GroupSteps(qs)[i].stage < GroupSteps(qs)[j].stage
  {
  }

  /** The generated steps cover exactly the stages the catalogue uses. */
  lemma StepsCoverStages(qs: seq<Question>)
    ensures forall e :: e in Etapes(qs) <==> exists i :: 0 <= i < |GroupSteps(qs)| && GroupSteps(qs)[i].stage == e
  {
    var steps := GroupSteps(qs);
    var stages := StagesOf(qs);
    forall e | e in Etapes(qs) ensures exists i :: 0 <= i < |steps| && steps[i].stage == e {
      var i :| 0 <= i < |stages| && stages[i] == e;
      assert steps[i].stage == e;
    }
  }

  /** A generated step holds exactly its stage's questions, sorted by order, and nothing of another stage. */
  lemma StepContents(qs: seq<Question>, i: nat)
    requires i < |GroupSteps(qs)|
    ensures SortedByOrdre(GroupSteps(qs)[i].questions)
    ensures multiset(GroupSteps(qs)[i].questions) == multiset(OfStage(qs, GroupSteps(qs)[i].stage))
    ensures forall q :: q in GroupSteps(qs)[i].questions ==> q.etape == GroupSteps(qs)[i].stage
  {
  }

  /** A question belongs to the list filtered by its own stage. */
  lemma {:induction false} InOfStage(qs: seq<Question>, k: nat)
    requires k < |qs|
    ensures qs[k] in OfStage(qs, qs[k].etape)
  {
    if k > 0 {
      InOfStage(qs[1..], k - 1);
    }
  }

  /** Every question of the catalogue lies in exactly one generated step: the one of its stage. */
  lemma EveryQuestionInOneStep(qs: seq<Question>, k: nat)
    requires k < |qs|
    ensures exists i :: 0 <= i < |GroupSteps(qs)| && qs[k] in GroupSteps(qs)[i].questions
    ensures forall i, j ::
      (0 <= i < |GroupSteps(qs)| && 0 <= j < |GroupSteps(qs)|
       && qs[k] in GroupSteps(qs)[i].questions && qs[k] in GroupSteps(qs)[j].questions) ==> i == j
  {
    var steps := GroupSteps(qs);
    StepsCoverStages(qs);
    assert qs[k].etape in Etapes(qs);
    var i :| 0 <= i < |steps| && steps[i].stage == qs[k].etape;
    InOfStage(qs, k);
    StepContents(qs, i);
    assert qs[k] in multiset(OfStage(qs, steps[i].stage));
    assert qs[k] in multiset(steps[i].questions);
    StepsAscending(qs);
    forall i1, j1 | 0 <= i1 < |steps| && 0 <= j1 < |steps| && qs[k] in steps[i1].questions && qs[k] in steps[j1].questions
      ensures i1 == j1
    {
      StepContents(qs, i1);
      StepContents(qs, j1);
    }
  }
}
