/**
 * The dynamic-forms container as the page holds it: the service checkboxes,
 * the question sections, the question wrappers and the controls, updated in
 * place by the listeners `renderDynamicForms` attaches, and read back by the
 * submit handler's collection loop.
 */
module Forms {
  import opened Wrappers
  import opened Text
  import opened Questions
  import opened Fields
  import opened Answers
  import Slots

  class DynamicForm {
    var services: seq<Service>
    var sections: seq<Section>
    var wrappers: seq<Wrapper>
    var inputs: seq<Input>

    /** The container's contents as one value. */
    function Table(): FormTable
      reads this
    {
      FormTable(services, sections, wrappers, inputs)
    }

    predicate Valid()
      reads this
    {
      WellFormed(Table()) && IdNamed(Table())
    }

    /** The empty container of a freshly loaded page. */
    constructor ()
      ensures Valid() && Table() == FormTable([], [], [], [])
    {
      services, sections, wrappers, inputs := [], [], [], [];
    }

    /** `renderDynamicForms(event)`: the container is emptied and rebuilt. */
    method Render(event: Option<Slots.EventRow>, questions: seq<Row>)
      modifies this
      ensures Valid() && Table() == BuildForm(event, questions)
    {
      var t := BuildForm(event, questions);
      services, sections, wrappers, inputs := t.services, t.sections, t.wrappers, t.inputs;
    }

    /** The container's change listener, fired by control `c`. */
    method OnChange(c: nat)
      requires Valid() && c < |inputs|
      modifies this
      ensures Valid() && Table() == AfterChange(old(Table()), c)
    {
      var qId := inputs[c].questionId;
      if qId == "" {
        return;
      }
      ghost var t0 := Table();
      var w := 0;
      while w < |wrappers|
        invariant w <= |wrappers| == |t0.wrappers|
        invariant c < |inputs| && inputs[c].questionId == qId
        invariant Table() == CondUpTo(t0, c, w)
        invariant Valid()
      {
        VisitDependent(c, w, qId);
        w := w + 1;
      }
    }

    /** One turn of `dependents.forEach`: wrapper `w`, when it waits on `qId`,
        is shown or hidden by the changed control's value. */
    method VisitDependent(c: nat, w: nat, qId: string)
      requires Valid() && c < |inputs| && w < |wrappers| && qId == inputs[c].questionId
      modifies this
      ensures Valid() && Table() == DepStep(old(Table()), c, w)
    {
      ghost var before := Table();
      if Depends(wrappers[w], qId) {
        var expected := wrappers[w].trigger.value.expected;
        var isMatch := Matches(Table(), c, expected);
        wrappers := wrappers[w := wrappers[w].(hidden := !isMatch)];
        ConditionInputs(w, isMatch);
      }
      DepStepKeepsLayout(before, c, w);
      SameLayoutWellFormed(before, Table());
    }

    /** `dep.querySelectorAll('input, select, textarea').forEach(...)`: the
        controls of wrapper `w` shown or hidden by their condition. */
    method ConditionInputs(w: nat, show: bool)
      modifies this
      ensures inputs == ApplyCondition(old(inputs), w, show)
      ensures services == old(services) && sections == old(sections) && wrappers == old(wrappers)
    {
      var k := 0;
      while k < |inputs|
        invariant k <= |inputs| == |old(inputs)|
        invariant forall j :: 0 <= j < k ==> inputs[j] == ApplyCondition(old(inputs), w, show)[j]
        invariant forall j :: k <= j < |inputs| ==> inputs[j] == old(inputs)[j]
        invariant services == old(services) && sections == old(sections) && wrappers == old(wrappers)
      {
        if inputs[k].wrapper == w {
          var i := inputs[k];
          if show {
            if i.wasRequired == Some("true") {
              i := i.(required := true);
            }
          } else {
            if i.required {
              i := i.(wasRequired := Some("true"), required := false);
            }
            i := i.(value := "");
          }
          inputs := inputs[k := i];
        }
        k := k + 1;
      }
    }

    /** A click on service checkbox `s` and the listener attached to it. */
    method ClickService(s: nat)
      requires Valid() && s < |services|
      modifies this
      ensures Valid() && Table() == ServiceToggled(old(Table()), s)
    {
      ghost var t0 := Table();
      var on := !services[s].checked;
      var target := FirstSection(sections, services[s].formId);
      services := services[s := services[s].(checked := on)];
      sections := sections[target := sections[target].(hidden := !on)];
      SectionInputs(t0, target, on);
      SameLayoutWellFormed(t0, Table());
    }

    /** `inputs.forEach(...)` in the service listener: the controls of section
        `target` re-armed (`on`) or disarmed and cleared. */
    method SectionInputs(ghost t0: FormTable, target: nat, on: bool)
      requires WellFormed(t0) && t0.wrappers == wrappers && t0.inputs == inputs
      modifies this
      ensures inputs == ApplyService(t0, target, on)
      ensures services == old(services) && sections == old(sections) && wrappers == old(wrappers)
    {
      var k := 0;
      while k < |inputs|
        invariant k <= |inputs| == |t0.inputs|
        invariant services == old(services) && sections == old(sections) && wrappers == t0.wrappers
        invariant forall j :: 0 <= j < k ==> inputs[j] == ApplyService(t0, target, on)[j]
        invariant forall j :: k <= j < |inputs| ==> inputs[j] == t0.inputs[j]
      {
        if wrappers[inputs[k].wrapper].section == target {
          var i := inputs[k];
          if on {
            if i.wasRequired == Some("true") {
              i := i.(required := true);
            }
          } else {
            if i.required {
              i := i.(wasRequired := Some("true"), required := false);
            }
            if i.kind == Checkbox || i.kind == Radio {
              i := i.(checked := false);
            } else {
              i := i.(value := "");
            }
          }
          inputs := inputs[k := i];
        }
        k := k + 1;
      }
    }

    /** The user gives a text, text-area, date or select control the value `v`. */
    method Enter(k: nat, v: string)
      requires Valid() && k < |inputs|
      requires inputs[k].kind != Radio && inputs[k].kind != Checkbox
      requires inputs[k].kind == SelectBox ==> v in inputs[k].options
      modifies this
      ensures Valid() && Table() == Entered(old(Table()), k, v)
    {
      if inputs[k].value != v {
        ghost var t0 := Table();
        inputs := inputs[k := inputs[k].(value := v)];
        SameLayoutWellFormed(t0, Table());
        OnChange(k);
      }
    }

    /** The user clicks radio `k`. */
    method ClickRadio(k: nat)
      requires Valid() && k < |inputs| && inputs[k].kind == Radio
      modifies this
      ensures Valid() && Table() == RadioClicked(old(Table()), k)
    {
      if !inputs[k].checked {
        ghost var t0 := Table();
        inputs := CheckRadio(inputs, k);
        SameLayoutWellFormed(t0, Table());
        OnChange(k);
      }
    }

    /** The user clicks checkbox `k`. */
    method ClickCheckbox(k: nat)
      requires Valid() && k < |inputs| && inputs[k].kind == Checkbox
      modifies this
      ensures Valid() && Table() == CheckboxClicked(old(Table()), k)
    {
      ghost var t0 := Table();
      inputs := inputs[k := inputs[k].(checked := !inputs[k].checked)];
      SameLayoutWellFormed(t0, Table());
      OnChange(k);
    }

    /** The answer the collection loop reads for control `k`, and its blank test. */
    method ReadAnswer(k: nat) returns (answer: string, blank: bool)
      requires k < |inputs|
      ensures answer == AnswerOf(Table(), k)
      ensures blank <==> Blank(inputs[k], answer)
    {
      var input := inputs[k];
      if input.kind == Radio {
        answer := SelectedValue(inputs, input.name);
        blank := answer == "";
      } else if input.kind == Checkbox {
        answer := Join(CheckedValues(inputs, input.name), ", ");
        blank := answer == "";
      } else {
        answer := input.value;
        blank := Trim(answer) == "";
        TrimEmptyIffBlank(answer);
      }
    }

    /**
     * The collection loop of the submit handler: the responses of the groups
     * that take part, in document order; whether every required one has a
     * non-blank answer; and the first control whose required answer is blank.
     */
    method Collect(questions: seq<Row>) returns (responses: seq<Response>, valid: bool, firstInvalid: Option<nat>)
      requires Valid()
      ensures responses == ResponsesUpTo(Table(), Lookup(Table(), questions), |inputs|)
      ensures firstInvalid == FirstMissing(Table(), Lookup(Table(), questions), |inputs|)
      ensures valid <==> firstInvalid.None?
    {
      ghost var t := Table();
      ghost var defs := Lookup(t, questions);
      var processed: set<string> := {};
      responses, valid, firstInvalid := [], true, None;
      var k := 0;
      while k < |inputs|
        invariant k <= |inputs|
        invariant forall g :: g in processed <==> NameTaken(t, defs, k, g)
        invariant responses == ResponsesUpTo(t, defs, k)
        invariant firstInvalid == FirstMissing(t, defs, k)
        invariant valid <==> firstInvalid.None?
      {
        var qId := inputs[k].questionId;
        var groupName := inputs[k].name;
        var wrapper := wrappers[inputs[k].wrapper];
        var questionDef := FindDef(questions, qId);
        var counted := !wrapper.hidden && !sections[wrapper.section].hidden && questionDef.Some?;
        assert counted <==> Counted(t, defs, k);
        if counted && groupName !in processed {
          var answer, blank := ReadAnswer(k);
          var isRequired := DefRequired(questionDef.value);
          assert defs[k] == Some(isRequired);
          assert Missing(t, defs, k) <==> isRequired && blank;
          if isRequired && blank {
            valid := false;
            if firstInvalid.None? {
              firstInvalid := Some(k);
            }
          }
          if qId != "" {
            responses := responses + [Response(qId, answer)];
          }
          processed := processed + {groupName};
        }
        k := k + 1;
      }
    }
  }
}
