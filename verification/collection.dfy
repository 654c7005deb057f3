/**
  Merging one step's controls into the collected answers
  (`collectDataForStep`). Every checkbox group named in the step is first
  reset to an empty list; then, in document order, a checked checkbox appends
  its trimmed value to its group's list, a checked radio sets its name to its
  trimmed value, and any other named control overwrites its name with its
  trimmed value. Unnamed, submit and button controls are skipped.
*/
module Collection {
  import opened Maybe
  import opened Text
  import opened Answers
  import opened Validation

  /** The result of collecting a step. */
  datatype Outcome =
    | Collected(answers: AnswerMap)
      /**
        A checked checkbox met a non-empty string under its name (left there
        by an earlier radio or text control of the step with the same name):
        `push` on a string throws, leaving the answers as they were at that
        point.
      */
    | Aborted(answers: AnswerMap)

  /** Controls the collection skips. */
  predicate Ignored(inp: Input) {
    inp.name == "" || inp.kind == "submit" || inp.kind == "button"
  }

  /** Controls that overwrite their name with their trimmed value. */
  predicate Sets(inp: Input) {
    !Ignored(inp) && inp.kind != "checkbox" && (inp.kind != "radio" || inp.checked)
  }

  /** Controls that append their trimmed value to their group's list. */
  predicate Appends(inp: Input) {
    !Ignored(inp) && inp.kind == "checkbox" && inp.checked
  }

  /** The checkbox group names of a step (`checkboxGroupNamesInStep`). */
  function CheckboxNames(inputs: seq<Input>): set<string> {
    if |inputs| == 0 then {}
    else (if inputs[0].kind == "checkbox" && inputs[0].name != "" then {inputs[0].name} else {}) + CheckboxNames(inputs[1..])
  }

  /** The names some control of the step overwrites. */
  function SetKeys(inputs: seq<Input>): set<string> {
    if |inputs| == 0 then {}
    else (if Sets(inputs[0]) then {inputs[0].name} else {}) + SetKeys(inputs[1..])
  }

  /** The names of the step's checked checkboxes. */
  function AppendKeys(inputs: seq<Input>): (r: set<string>)
    ensures r <= CheckboxNames(inputs)
  {
    if |inputs| == 0 then {}
    else (if Appends(inputs[0]) then {inputs[0].name} else {}) + AppendKeys(inputs[1..])
  }

  /** The names of all controls the collection does not skip. */
  function StepNames(inputs: seq<Input>): (r: set<string>)
    ensures SetKeys(inputs) + CheckboxNames(inputs) <= r
  {
    if |inputs| == 0 then {}
    else (if !Ignored(inputs[0]) then {inputs[0].name} else {}) + StepNames(inputs[1..])
  }

  /** The first loop of `collectDataForStep`: every checkbox group of the step starts empty. */
  function ResetCheckboxes(inputs: seq<Input>, m: AnswerMap): AnswerMap {
    m + map n | n in CheckboxNames(inputs) :: List([])
  }

  /** What one control does to the answers. */
  function Apply(inp: Input, m: AnswerMap): Outcome {
    if Ignored(inp) then Collected(m)
    else if inp.kind == "radio" then
      if inp.checked then Collected(m[inp.name := Str(Trim(inp.value))]) else Collected(m)
    else if inp.kind == "checkbox" then
      if !inp.checked then Collected(m)
      else if inp.name in m && m[inp.name].List? then
        Collected(m[inp.name := List(m[inp.name].items + [Trim(inp.value)])])
      else if inp.name !in m || m[inp.name] == Str("") then
        Collected(m[inp.name := List([Trim(inp.value)])])
      else Aborted(m)
    else Collected(m[inp.name := Str(Trim(inp.value))])
  }

  /** The second loop of `collectDataForStep`: the controls applied in document order, stopping at a throw. */
  function Fold(inputs: seq<Input>, m: AnswerMap): Outcome {
    if |inputs| == 0 then Collected(m)
    else
      match Apply(inputs[0], m)
      case Aborted(a) => Aborted(a)
      case Collected(a) => Fold(inputs[1..], a)
  }

  /** `collectDataForStep` on the controls of one step. */
  function CollectStep(inputs: seq<Input>, m: AnswerMap): Outcome {
    Fold(inputs, ResetCheckboxes(inputs, m))
  }

  /** Both maps bind `k` to the same value, or neither binds it. */
  predicate AgreeAt(m1: AnswerMap, m2: AnswerMap, k: string) {
    (k in m1 <==> k in m2) && (k in m1 ==> m1[k] == m2[k])
  }

  /** The trimmed values of the checked checkboxes named `n`, in document order. */
  function CheckedValues(inputs: seq<Input>, n: string): seq<string> {
    if |inputs| == 0 then []
    else
      (if inputs[0].kind == "checkbox" && inputs[0].name == n && inputs[0].checked then [Trim(inputs[0].value)] else [])
      + CheckedValues(inputs[1..], n)
  }

  /** The trimmed value of the last control that overwrites `n`, if any. */
  function LastSet(inputs: seq<Input>, n: string): Option<string> {
    if |inputs| == 0 then None
    else
      var later := LastSet(inputs[1..], n);
      if later.Some? then later
      else if Sets(inputs[0]) && inputs[0].name == n then Some(Trim(inputs[0].value))
      else None
  }

  /** One control touches at most its own name, and only when it sets or appends. */
  lemma ApplyFrame(inp: Input, m: AnswerMap)
    ensures forall k :: k != inp.name ==> AgreeAt(Apply(inp, m).answers, m, k)
    ensures !Sets(inp) && !Appends(inp) ==> Apply(inp, m) == Collected(m)
    ensures Sets(inp) ==> Apply(inp, m) == Collected(m[inp.name := Str(Trim(inp.value))])
  {
    var r := Apply(inp, m);
    forall k | k != inp.name ensures AgreeAt(r.answers, m, k) {
      if Ignored(inp) {
      } else if inp.kind == "radio" {
      } else if inp.kind == "checkbox" {
        if inp.checked && inp.name in m && m[inp.name].List? {
          assert r.answers == m[inp.name := List(m[inp.name].items + [Trim(inp.value)])];
        } else if inp.checked && (inp.name !in m || m[inp.name] == Str("")) {
          assert r.answers == m[inp.name := List([Trim(inp.value)])];
        }
      }
    }
  }

  /** Keys no control sets or appends to are left as they were. */
  lemma {:induction false} FoldFrame(inputs: seq<Input>, m: AnswerMap)
    ensures forall k :: k !in SetKeys(inputs) && k !in AppendKeys(inputs) ==> AgreeAt(Fold(inputs, m).answers, m, k)
  {
    if |inputs| > 0 {
      ApplyFrame(inputs[0], m);
      match Apply(inputs[0], m)
      case Aborted(a) =>
      case Collected(a) =>
        FoldFrame(inputs[1..], a);
    }
  }

  /**
    Collecting a step changes only the keys some control of the step writes
    and the step's checkbox groups; in particular no key absent from the
    step changes.
  */
  lemma CollectFrame(inputs: seq<Input>, m: AnswerMap)
    ensures forall k :: k !in SetKeys(inputs) && k !in CheckboxNames(inputs) ==>
      AgreeAt(CollectStep(inputs, m).answers, m, k)
    ensures forall k :: k !in StepNames(inputs) ==> AgreeAt(CollectStep(inputs, m).answers, m, k)
  {
    FoldFrame(inputs, ResetCheckboxes(inputs, m));
  }

  /** One control extends group `n`'s list by its trimmed value when it is a checked box of that group, and leaves it alone otherwise. */
  lemma ApplyCheckboxGroup(h: Input, m: AnswerMap, n: string, acc: seq<string>)
    requires n != "" && n in m && m[n] == List(acc)
    requires h.name == n && !Ignored(h) ==> h.kind == "checkbox"
    ensures Apply(h, m).Collected? ==>
      && n in Apply(h, m).answers
      && Apply(h, m).answers[n] == List(acc + (if h.kind == "checkbox" && h.name == n && h.checked then [Trim(h.value)] else []))
  {
    if h.name != n {
      ApplyFrame(h, m);
      assert AgreeAt(Apply(h, m).answers, m, n);
      assert acc + [] == acc;
    } else if h.kind == "checkbox" && h.checked {
      assert Apply(h, m) == Collected(m[n := List(acc + [Trim(h.value)])]);
    } else {
      assert Apply(h, m) == Collected(m);
      assert acc + [] == acc;
    }
  }

  lemma ConcatAssoc(a: seq<string>, b: seq<string>, c: seq<string>)
    ensures a + b + c == a + (b + c)
  {
  }

  lemma {:induction false} FoldCheckboxGroup(inputs: seq<Input>, m: AnswerMap, n: string, acc: seq<string>)
    requires n != "" && n in m && m[n] == List(acc)
    requires forall i :: 0 <= i < |inputs| && inputs[i].name == n && !Ignored(inputs[i]) ==> inputs[i].kind == "checkbox"
    ensures Fold(inputs, m).Collected? ==>
      n in Fold(inputs, m).answers && Fold(inputs, m).answers[n] == List(acc + CheckedValues(inputs, n))
  {
    if |inputs| == 0 {
      assert acc + [] == acc;
    } else {
      var h, tail := inputs[0], inputs[1..];
      var head := if h.kind == "checkbox" && h.name == n && h.checked then [Trim(h.value)] else [];
      ApplyCheckboxGroup(h, m, n, acc);
      assert CheckedValues(inputs, n) == head + CheckedValues(tail, n);
      if Apply(h, m).Collected? {
        var a := Apply(h, m).answers;
        assert Fold(inputs, m) == Fold(tail, a);
        assert forall i :: 0 <= i < |tail| ==> tail[i] == inputs[i + 1];
        FoldCheckboxGroup(tail, a, n, acc + head);
        ConcatAssoc(acc, head, CheckedValues(tail, n));
      }
    }
  }

  /**
    A checkbox group whose name no other kind of control of the step uses
    ends up holding exactly the trimmed values of its checked boxes, in
    document order, whatever it held before.
  */
  lemma CollectCheckboxGroup(inputs: seq<Input>, m: AnswerMap, n: string)
    requires n in CheckboxNames(inputs)
    requires forall i :: 0 <= i < |inputs| && inputs[i].name == n && !Ignored(inputs[i]) ==> inputs[i].kind == "checkbox"
    ensures CollectStep(inputs, m).Collected? ==>
      n in CollectStep(inputs, m).answers && CollectStep(inputs, m).answers[n] == List(CheckedValues(inputs, n))
  {
    CheckboxNamesNonEmpty(inputs);
    FoldCheckboxGroup(inputs, ResetCheckboxes(inputs, m), n, []);
  }

  lemma {:induction false} CheckboxNamesNonEmpty(inputs: seq<Input>)
    ensures "" !in CheckboxNames(inputs)
  {
    if |inputs| > 0 {
      CheckboxNamesNonEmpty(inputs[1..]);
    }
  }

  lemma {:induction false} FoldLastSet(inputs: seq<Input>, m: AnswerMap, n: string)
    requires n !in AppendKeys(inputs)
    ensures Fold(inputs, m).Collected? ==>
      && (LastSet(inputs, n).Some? ==> n in Fold(inputs, m).answers && Fold(inputs, m).answers[n] == Str(LastSet(inputs, n).value))
      && (LastSet(inputs, n).None? ==> AgreeAt(Fold(inputs, m).answers, m, n))
  {
    if |inputs| > 0 {
      var h := inputs[0];
      ApplyFrame(h, m);
      match Apply(h, m)
      case Aborted(a) =>
      case Collected(a) =>
        FoldLastSet(inputs[1..], a, n);
    }
  }

  /**
    A name that is not a checkbox group of the step ends up holding the
    trimmed value of the last control that writes it (the checked radio, or
    the text-like control), and keeps its previous value when none does.
  */
  lemma CollectLastWrite(inputs: seq<Input>, m: AnswerMap, n: string)
    requires n !in CheckboxNames(inputs)
    ensures CollectStep(inputs, m).Collected? ==>
      && (LastSet(inputs, n).Some? ==>
            n in CollectStep(inputs, m).answers && CollectStep(inputs, m).answers[n] == Str(LastSet(inputs, n).value))
      && (LastSet(inputs, n).None? ==> AgreeAt(CollectStep(inputs, m).answers, m, n))
  {
    FoldLastSet(inputs, ResetCheckboxes(inputs, m), n);
  }

  /** Every checkbox name still to be met maps to a list, and none of them is overwritten on the way. */
  predicate ListsReady(inputs: seq<Input>, m: AnswerMap) {
    forall k :: k in AppendKeys(inputs) ==> k in m && m[k].List?
  }

  lemma {:induction false} FoldNoAbort(inputs: seq<Input>, m: AnswerMap)
    requires ListsReady(inputs, m)
    requires AppendKeys(inputs) !! SetKeys(inputs)
    ensures Fold(inputs, m).Collected?
  {
    if |inputs| > 0 {
      var h := inputs[0];
      ApplyFrame(h, m);
      var a := Apply(h, m).answers;
      assert Apply(h, m).Collected?;
      assert ListsReady(inputs[1..], a) by {
        forall k | k in AppendKeys(inputs[1..]) ensures k in a && a[k].List? {
          assert k in m && m[k].List?;
        }
      }
      FoldNoAbort(inputs[1..], a);
    }
  }

  /**
    When no name of the step is shared between a checkbox and a control that
    overwrites its name, collecting the step never throws.
  */
  lemma CollectNoAbort(inputs: seq<Input>, m: AnswerMap)
    requires CheckboxNames(inputs) !! SetKeys(inputs)
    ensures CollectStep(inputs, m).Collected?
  {
    FoldNoAbort(inputs, ResetCheckboxes(inputs, m));
  }

  /** Maps that agree at every key are equal. */
  lemma AgreeEverywhere(m1: AnswerMap, m2: AnswerMap)
    requires forall k :: AgreeAt(m1, m2, k)
    ensures m1 == m2
  {
    assert m1.Keys == m2.Keys by {
      forall k ensures k in m1 <==> k in m2 { assert AgreeAt(m1, m2, k); }
    }
    forall k | k in m1 ensures m1[k] == m2[k] { assert AgreeAt(m1, m2, k); }
  }

  /**
    One control applied to two maps that may differ only at names in `d`,
    where no name of `d` is appended to by the control: both apply,
    and the results differ at most at the names of `d` the control leaves.
  */
  lemma ApplyAgree(h: Input, m1: AnswerMap, m2: AnswerMap, d: set<string>)
    requires h.name in d ==> !Appends(h)
    requires forall k :: k !in d ==> AgreeAt(m1, m2, k)
    ensures Apply(h, m1).Collected? <==> Apply(h, m2).Collected?
    ensures Apply(h, m1).Collected? ==>
      forall k :: k !in (if Sets(h) then d - {h.name} else d) ==> AgreeAt(Apply(h, m1).answers, Apply(h, m2).answers, k)
  {
    ApplyFrame(h, m1);
    ApplyFrame(h, m2);
    var n := h.name;
    if Sets(h) {
      var v := Str(Trim(h.value));
      forall k | k !in d - {n} ensures AgreeAt(m1[n := v], m2[n := v], k) {
        if k != n {
          assert AgreeAt(m1, m2, k);
        }
      }
    } else if Appends(h) {
      assert AgreeAt(m1, m2, n);
      var v := Trim(h.value);
      if n in m1 && m1[n].List? {
        var l := List(m1[n].items + [v]);
        forall k | k !in d ensures AgreeAt(m1[n := l], m2[n := l], k) {
          if k != n {
            assert AgreeAt(m1, m2, k);
          }
        }
      } else if n !in m1 || m1[n] == Str("") {
        var l := List([v]);
        forall k | k !in d ensures AgreeAt(m1[n := l], m2[n := l], k) {
          if k != n {
            assert AgreeAt(m1, m2, k);
          }
        }
      }
    }
  }

  lemma {:induction false} FoldAgree(inputs: seq<Input>, m1: AnswerMap, m2: AnswerMap, d: set<string>)
    requires d <= SetKeys(inputs) && d !! AppendKeys(inputs)
    requires forall k :: k !in d ==> AgreeAt(m1, m2, k)
    ensures Fold(inputs, m1).Collected? <==> Fold(inputs, m2).Collected?
    ensures Fold(inputs, m1).Collected? ==> Fold(inputs, m1).answers == Fold(inputs, m2).answers
  {
    if |inputs| == 0 {
      assert d == {};
      AgreeEverywhere(m1, m2);
    } else {
      var h := inputs[0];
      assert Appends(h) ==> h.name in AppendKeys(inputs);
      ApplyAgree(h, m1, m2, d);
      if Apply(h, m1).Collected? {
        var d' := if Sets(h) then d - {h.name} else d;
        FoldAgree(inputs[1..], Apply(h, m1).answers, Apply(h, m2).answers, d');
      }
    }
  }

  /** Collecting the same step twice, with its controls unchanged, gives the answers of collecting it once. */
  lemma CollectIdempotent(inputs: seq<Input>, m: AnswerMap)
    requires CollectStep(inputs, m).Collected?
    ensures CollectStep(inputs, CollectStep(inputs, m).answers) == CollectStep(inputs, m)
  {
    var a := CollectStep(inputs, m).answers;
    var r1, r2 := ResetCheckboxes(inputs, m), ResetCheckboxes(inputs, a);
    FoldFrame(inputs, r1);
    var d := SetKeys(inputs) - CheckboxNames(inputs);
    forall k | k !in d ensures AgreeAt(r2, r1, k) {
      if k !in CheckboxNames(inputs) {
        assert AgreeAt(a, r1, k);
      }
    }
    FoldAgree(inputs, r2, r1, d);
  }
}
