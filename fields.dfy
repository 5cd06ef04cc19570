/**
 * What the page does to the field table after it is built: the conditional
 * listener (show a dependent question and re-arm `required`, or hide it,
 * disarm `required` and clear its value), the service checkboxes (the same
 * for a whole section, unchecking radios and checkboxes instead of clearing
 * them), and the answers the submit handler reads back. Each operation is a
 * function from the table before to the table after; the DynamicForm class
 * performs them in place and is proved against these functions.
 */
module Fields {
  import opened Wrappers
  import opened Text
  import opened Questions

  /** `input.closest('.d-none')`: an input is hidden when its question wrapper
      or its service section carries d-none. */
  predicate Hidden(t: FormTable, k: nat)
    requires WellFormed(t) && k < |t.inputs|
  {
    var w := t.inputs[k].wrapper;
    t.wrappers[w].hidden || t.sections[t.wrappers[w].section].hidden
  }

  /** `dataset.wasRequired === "true"`. */
  predicate Declared(i: Input) {
    i.wasRequired == Some("true")
  }

  /** Showing a control: `required` is re-armed when the control was marked as
      required; nothing else changes. */
  function ShowInput(i: Input): (r: Input)
    ensures r.required <==> i.required || Declared(i)
    ensures r.(required := i.required) == i
  {
    if Declared(i) then i.(required := true) else i
  }

  /** Hiding a control by its condition: a required control is marked
      wasRequired and disarmed, and every control's `value` is cleared, a
      radio's or checkbox's value attribute included. */
  function HideOnCondition(i: Input): (r: Input)
    ensures !r.required && r.value == ""
    ensures Declared(r) <==> i.required || Declared(i)
    ensures r.(required := i.required, value := i.value, wasRequired := i.wasRequired) == i
  {
    var j := if i.required then i.(wasRequired := Some("true"), required := false) else i;
    j.(value := "")
  }

  /** Hiding a control with its service section: disarmed as above, but a radio
      or checkbox is unchecked and keeps its value, any other control is cleared. */
  function HideOnService(i: Input): (r: Input)
    ensures !r.required
    ensures Declared(r) <==> i.required || Declared(i)
    ensures (i.kind == Radio || i.kind == Checkbox) ==> !r.checked && r.value == i.value
    ensures !(i.kind == Radio || i.kind == Checkbox) ==> r.value == "" && r.checked == i.checked
    ensures r.(required := i.required, value := i.value, checked := i.checked, wasRequired := i.wasRequired) == i
  {
    var j := if i.required then i.(wasRequired := Some("true"), required := false) else i;
    if i.kind == Radio || i.kind == Checkbox then j.(checked := false) else j.(value := "")
  }

  /** Hiding and showing again, by either route, leaves a control required
      exactly when it was required before or was marked so. */
  lemma HideShowRestoresRequired(i: Input)
    ensures ShowInput(HideOnCondition(i)).required <==> i.required || Declared(i)
    ensures ShowInput(HideOnService(i)).required <==> i.required || Declared(i)
  {
  }

  /** The parts of a control that no toggle changes. */
  function Shape(i: Input): (string, string, InputKind, seq<string>, nat) {
    (i.questionId, i.name, i.kind, i.options, i.wrapper)
  }

  /** `t` and `r` are the same page apart from visibility, checked state, values
      and the required markers. */
  predicate SameLayout(t: FormTable, r: FormTable) {
    && |r.services| == |t.services|
    && (forall i :: 0 <= i < |t.services| ==> r.services[i].formId == t.services[i].formId)
    && |r.sections| == |t.sections|
    && (forall i :: 0 <= i < |t.sections| ==> r.sections[i].formId == t.sections[i].formId)
    && |r.wrappers| == |t.wrappers|
    && (forall w :: 0 <= w < |t.wrappers| ==>
          r.wrappers[w].section == t.wrappers[w].section && r.wrappers[w].trigger == t.wrappers[w].trigger)
    && |r.inputs| == |t.inputs|
    && (forall k :: 0 <= k < |t.inputs| ==> Shape(r.inputs[k]) == Shape(t.inputs[k]))
  }

  lemma SameLayoutWellFormed(t: FormTable, r: FormTable)
    requires WellFormed(t) && SameLayout(t, r)
    ensures WellFormed(r)
    ensures IdNamed(t) ==> IdNamed(r)
  {
    forall k | 0 <= k < |r.inputs|
      ensures r.inputs[k].wrapper < |r.wrappers|
      ensures r.inputs[k].name == t.inputs[k].name && r.inputs[k].questionId == t.inputs[k].questionId
    {
      assert Shape(r.inputs[k]) == Shape(t.inputs[k]);
    }
  }

  // ----- radio and checkbox groups -----

  /** Matches `input[name="<name>"]:checked`. */
  predicate CheckedIn(i: Input, name: string) {
    (i.kind == Radio || i.kind == Checkbox) && i.name == name && i.checked
  }

  /** `querySelector('input[name="<name>"]:checked')`: the first checked member
      of the group in document order, or |ins| when none is checked. */
  function FirstChecked(ins: seq<Input>, name: string): (k: nat)
    ensures k <= |ins|
    ensures k < |ins| ==> CheckedIn(ins[k], name)
    ensures forall j :: 0 <= j < k ==> !CheckedIn(ins[j], name)
  {
    if ins == [] then 0
    else if CheckedIn(ins[0], name) then 0
    else
      var k := 1 + FirstChecked(ins[1..], name);
      assert forall j :: 1 <= j < k ==> ins[j] == ins[1..][j - 1];
      k
  }

  /** Two tables that agree on which controls are checked members of a group
      find the same first checked member. */
  lemma {:induction false} FirstCheckedAgrees(a: seq<Input>, b: seq<Input>, name: string)
    requires |a| == |b|
    requires forall k :: 0 <= k < |a| ==> (CheckedIn(a[k], name) <==> CheckedIn(b[k], name))
    ensures FirstChecked(a, name) == FirstChecked(b, name)
  {
    if a != [] && !CheckedIn(a[0], name) {
      FirstCheckedAgrees(a[1..], b[1..], name);
    }
  }

  /** `selected ? selected.value : ''`. */
  function SelectedValue(ins: seq<Input>, name: string): string {
    var k := FirstChecked(ins, name);
    if k < |ins| then ins[k].value else ""
  }

  /** The values of `querySelectorAll('input[name="<name>"]:checked')`, in
      document order: empty exactly when nothing in the group is checked, and
      led by the first checked member's value. */
  function CheckedValues(ins: seq<Input>, name: string): (vs: seq<string>)
    ensures |vs| <= |ins|
    ensures vs == [] <==> FirstChecked(ins, name) == |ins|
    ensures vs != [] ==> vs[0] == ins[FirstChecked(ins, name)].value
  {
    if ins == [] then []
    else (if CheckedIn(ins[0], name) then [ins[0].value] else []) + CheckedValues(ins[1..], name)
  }

  // ----- conditional questions -----

  /** `[data-trigger-id="<qId>"]`: the wrapper's question waits on `qId`. */
  predicate Depends(w: Wrapper, qId: string) {
    w.trigger.Some? && w.trigger.value.id == qId
  }

  /** `isMatch` for the changed control `c`: for a radio, the value of the group's
      first checked member (false when none is checked); for any other control,
      its own value. */
  predicate Matches(t: FormTable, c: nat, expected: string)
    requires c < |t.inputs|
  {
    if t.inputs[c].kind == Radio then
      var k := FirstChecked(t.inputs, t.inputs[c].name);
      k < |t.inputs| && t.inputs[k].value == expected
    else t.inputs[c].value == expected
  }

  /** The controls of wrapper `w` shown (`show`) or hidden by their condition. */
  function ApplyCondition(ins: seq<Input>, w: nat, show: bool): (r: seq<Input>)
    ensures |r| == |ins|
    ensures forall k :: 0 <= k < |ins| ==> Shape(r[k]) == Shape(ins[k])
  {
    seq(|ins|, k requires 0 <= k < |ins| =>
      if ins[k].wrapper != w then ins[k]
      else if show then ShowInput(ins[k]) else HideOnCondition(ins[k]))
  }

  /** One turn of `dependents.forEach`, for wrapper `w`. */
  function DepStep(t: FormTable, c: nat, w: nat): (r: FormTable)
    requires c < |t.inputs| && w < |t.wrappers|
    ensures |r.inputs| == |t.inputs| && |r.wrappers| == |t.wrappers|
  {
    if !Depends(t.wrappers[w], t.inputs[c].questionId) then t
    else
      var m := Matches(t, c, t.wrappers[w].trigger.value.expected);
      t.(wrappers := t.wrappers[w := t.wrappers[w].(hidden := !m)],
         inputs := ApplyCondition(t.inputs, w, m))
  }

  /** The table after the listener has visited wrappers 0 .. n-1. */
  function CondUpTo(t: FormTable, c: nat, n: nat): (r: FormTable)
    requires c < |t.inputs| && n <= |t.wrappers|
    ensures |r.inputs| == |t.inputs| && |r.wrappers| == |t.wrappers|
  {
    if n == 0 then t else DepStep(CondUpTo(t, c, n - 1), c, n - 1)
  }

  /** The change listener for control `c`: nothing when `c` has no question id,
      otherwise every dependent wrapper re-evaluated in document order. */
  function AfterChange(t: FormTable, c: nat): (r: FormTable)
    requires c < |t.inputs|
    ensures |r.inputs| == |t.inputs| && |r.wrappers| == |t.wrappers|
  {
    if t.inputs[c].questionId == "" then t else CondUpTo(t, c, |t.wrappers|)
  }

  /** One turn of the listener keeps the page's layout. */
  lemma DepStepKeepsLayout(t: FormTable, c: nat, w: nat)
    requires c < |t.inputs| && w < |t.wrappers|
    ensures SameLayout(t, DepStep(t, c, w))
    ensures DepStep(t, c, w).services == t.services && DepStep(t, c, w).sections == t.sections
  {
  }

  /** The listener changes only visibility, values and required markers: the
      services, the sections and the shape of every control stay as they were. */
  lemma {:induction false} CondUpToKeepsLayout(t: FormTable, c: nat, n: nat)
    requires c < |t.inputs| && n <= |t.wrappers|
    ensures SameLayout(t, CondUpTo(t, c, n))
    ensures CondUpTo(t, c, n).services == t.services && CondUpTo(t, c, n).sections == t.sections
  {
    if n > 0 {
      var p := CondUpTo(t, c, n - 1);
      CondUpToKeepsLayout(t, c, n - 1);
      var r := DepStep(p, c, n - 1);
      DepStepKeepsLayout(p, c, n - 1);
      assert CondUpTo(t, c, n) == r;
      forall k | 0 <= k < |t.inputs| ensures Shape(r.inputs[k]) == Shape(t.inputs[k]) {
        assert Shape(r.inputs[k]) == Shape(p.inputs[k]);
      }
    }
  }

  /** The same for the whole change listener. */
  lemma ChangeKeepsLayout(t: FormTable, c: nat)
    requires c < |t.inputs|
    ensures SameLayout(t, AfterChange(t, c))
    ensures AfterChange(t, c).services == t.services && AfterChange(t, c).sections == t.sections
  {
    if t.inputs[c].questionId != "" {
      CondUpToKeepsLayout(t, c, |t.wrappers|);
    }
  }

  /** No control of the changed control's group sits in a wrapper that waits on
      the changed question. */
  predicate NotSelfTriggered(t: FormTable, c: nat)
    requires WellFormed(t) && c < |t.inputs|
  {
    forall k :: 0 <= k < |t.inputs| && t.inputs[k].name == t.inputs[c].name ==>
      !Depends(t.wrappers[t.inputs[k].wrapper], t.inputs[c].questionId)
  }

  /** Every dependent among wrappers 0 .. n-1 decided against the table as it
      was when the change fired. */
  function ClosedUpTo(t: FormTable, c: nat, n: nat): FormTable
    requires c < |t.inputs| && n <= |t.wrappers|
  {
    var q := t.inputs[c].questionId;
    var ws := t.wrappers;
    var ins := t.inputs;
    t.(wrappers := seq(|ws|, w requires 0 <= w < |ws| =>
          if w < n && Depends(ws[w], q) then ws[w].(hidden := !Matches(t, c, ws[w].trigger.value.expected))
          else ws[w]),
       inputs := seq(|ins|, k requires 0 <= k < |ins| =>
          var w := ins[k].wrapper;
          if w < n && Depends(ws[w], q) then
            if Matches(t, c, ws[w].trigger.value.expected) then ShowInput(ins[k]) else HideOnCondition(ins[k])
          else ins[k]))
  }

  /**
   * When the changed control's own group does not wait on its question, the
   * listener's outcome does not depend on the order it visits dependents in:
   * each dependent wrapper is shown, with its required controls re-armed,
   * exactly when the value as it stood when the change fired equals the
   * wrapper's trigger value, and is otherwise hidden, disarmed and cleared;
   * every other wrapper and control is left alone.
   */
  lemma {:induction false} ConditionalClosedForm(t: FormTable, c: nat, n: nat)
    requires WellFormed(t) && c < |t.inputs| && n <= |t.wrappers|
    requires NotSelfTriggered(t, c)
    ensures CondUpTo(t, c, n) == ClosedUpTo(t, c, n)
  {
    if n == 0 {
      ClosedNone(t, c);
    } else {
      ConditionalClosedForm(t, c, n - 1);
      ClosedStep(t, c, n - 1);
      var p := CondUpTo(t, c, n - 1);
      assert CondUpTo(t, c, n) == DepStep(p, c, n - 1);
      assert DepStep(p, c, n - 1) == ClosedUpTo(t, c, n - 1 + 1);
    }
  }

  lemma ClosedNone(t: FormTable, c: nat)
    requires c < |t.inputs|
    ensures ClosedUpTo(t, c, 0) == t
  {
    assert ClosedUpTo(t, c, 0).wrappers == t.wrappers;
    assert ClosedUpTo(t, c, 0).inputs == t.inputs;
  }

  /** Visiting wrapper n after wrappers 0 .. n-1 extends the closed form by one wrapper. */
  lemma ClosedStep(t: FormTable, c: nat, n: nat)
    requires WellFormed(t) && c < |t.inputs| && n < |t.wrappers|
    requires NotSelfTriggered(t, c)
    ensures DepStep(ClosedUpTo(t, c, n), c, n) == ClosedUpTo(t, c, n + 1)
  {
    var ws := t.wrappers;
    var ins := t.inputs;
    var q := ins[c].questionId;
    var p := ClosedUpTo(t, c, n);
    var cl := ClosedUpTo(t, c, n + 1);
    assert p.wrappers[n] == ws[n];
    assert p.inputs[c] == ins[c];
    var r := DepStep(p, c, n);
    if Depends(ws[n], q) {
      var e := ws[n].trigger.value.expected;
      MatchesAgrees(t, n, c, e);
      var m := Matches(t, c, e);
      assert r.wrappers == p.wrappers[n := ws[n].(hidden := !m)];
      assert r.wrappers == cl.wrappers;
      assert r.inputs == ApplyCondition(p.inputs, n, m);
      forall k | 0 <= k < |ins| ensures r.inputs[k] == cl.inputs[k] {
        if ins[k].wrapper == n {
          assert p.inputs[k] == ins[k];
        }
      }
      assert r.inputs == cl.inputs;
    } else {
      assert r == p;
      assert p.wrappers == cl.wrappers;
      assert p.inputs == cl.inputs;
    }
  }

  /** A table the listener has partly processed answers `isMatch` as the
      original does. */
  lemma MatchesAgrees(t: FormTable, n: nat, c: nat, e: string)
    requires WellFormed(t) && c < |t.inputs| && n <= |t.wrappers| && NotSelfTriggered(t, c)
    ensures Matches(ClosedUpTo(t, c, n), c, e) == Matches(t, c, e)
  {
    var p := ClosedUpTo(t, c, n);
    var name := t.inputs[c].name;
    assert p.inputs[c] == t.inputs[c];
    forall k | 0 <= k < |t.inputs| ensures CheckedIn(p.inputs[k], name) <==> CheckedIn(t.inputs[k], name) {
      assert Shape(p.inputs[k]) == Shape(t.inputs[k]);
    }
    FirstCheckedAgrees(p.inputs, t.inputs, name);
    var k := FirstChecked(t.inputs, name);
    if k < |t.inputs| {
      assert p.inputs[k] == t.inputs[k];
    }
  }

  // ----- service sections -----

  /** `document.getElementById('section_' + formId)`: the first section of that
      form, or |ss| when there is none. */
  function FirstSection(ss: seq<Section>, formId: string): (i: nat)
    ensures i <= |ss|
    ensures i < |ss| ==> ss[i].formId == formId
    ensures forall j :: 0 <= j < i ==> ss[j].formId != formId
  {
    if ss == [] then 0
    else if ss[0].formId == formId then 0
    else
      var i := 1 + FirstSection(ss[1..], formId);
      assert forall j :: 1 <= j < i ==> ss[j] == ss[1..][j - 1];
      i
  }

  /** The section service `s` toggles: its own, or an earlier one when two
      services name the same form. */
  function ServiceTarget(t: FormTable, s: nat): (i: nat)
    requires WellFormed(t) && s < |t.services|
    ensures i <= s && t.sections[i].formId == t.services[s].formId
  {
    FirstSection(t.sections, t.services[s].formId)
  }

  /** The section index of control k. */
  function SectionOf(t: FormTable, k: nat): nat
    requires WellFormed(t) && k < |t.inputs|
  {
    t.wrappers[t.inputs[k].wrapper].section
  }

  /** The controls of section `target` shown (`show`) or hidden with their service. */
  function ApplyService(t: FormTable, target: nat, show: bool): (r: seq<Input>)
    requires WellFormed(t)
    ensures |r| == |t.inputs|
    ensures forall k :: 0 <= k < |t.inputs| ==> Shape(r[k]) == Shape(t.inputs[k])
  {
    seq(|t.inputs|, k requires 0 <= k < |t.inputs| =>
      if SectionOf(t, k) != target then t.inputs[k]
      else if show then ShowInput(t.inputs[k]) else HideOnService(t.inputs[k]))
  }

  /** A click on service checkbox `s`: the box flips, and the change listener
      shows its section and re-arms the marked controls, or hides it, disarms
      its controls and clears them. Wrappers keep their own visibility. */
  function ServiceToggled(t: FormTable, s: nat): (r: FormTable)
    requires WellFormed(t) && s < |t.services|
    ensures WellFormed(r) && SameLayout(t, r) && r.wrappers == t.wrappers
  {
    var on := !t.services[s].checked;
    var target := ServiceTarget(t, s);
    var r := t.(services := t.services[s := t.services[s].(checked := on)],
                sections := t.sections[target := t.sections[target].(hidden := !on)],
                inputs := ApplyService(t, target, on));
    SameLayoutWellFormed(t, r);
    r
  }

  /**
   * Unchecking a service hides its section and leaves every control in it
   * unrequired, radios and checkboxes unchecked and other controls empty;
   * checking it shows the section and makes a control required exactly when
   * it was required or marked so. Controls of other sections do not change.
   */
  lemma ServiceToggleEffect(t: FormTable, s: nat, k: nat)
    requires WellFormed(t) && s < |t.services| && k < |t.inputs|
    ensures var r := ServiceToggled(t, s);
      var target := ServiceTarget(t, s);
      && r.services[s].checked == !t.services[s].checked
      && r.sections[target].hidden == t.services[s].checked
      && (SectionOf(t, k) != target ==> r.inputs[k] == t.inputs[k])
      && (SectionOf(t, k) == target && !r.services[s].checked ==>
            !r.inputs[k].required && Hidden(r, k)
            && (if t.inputs[k].kind == Radio || t.inputs[k].kind == Checkbox then !r.inputs[k].checked
                else r.inputs[k].value == ""))
      && (SectionOf(t, k) == target && r.services[s].checked ==>
            (r.inputs[k].required <==> t.inputs[k].required || Declared(t.inputs[k])))
  {
  }

  // ----- the required-iff-visible rule -----

  /** Every control is required exactly when it is marked required and visible. */
  predicate RequiredIffVisible(t: FormTable)
    requires WellFormed(t)
  {
    forall k :: 0 <= k < |t.inputs| ==> (t.inputs[k].required <==> Declared(t.inputs[k]) && !Hidden(t, k))
  }

  /** A freshly built table keeps the rule: every section starts hidden and
      nothing is required. */
  lemma BuildFormRequiredIffVisible(event: Option<Slots.EventRow>, questions: seq<Row>)
    ensures WellFormed(BuildForm(event, questions)) && RequiredIffVisible(BuildForm(event, questions))
  {
  }

  /** Showing a control that ends up `visible`: required exactly when marked so and visible. */
  function Arm(i: Input, visible: bool): (r: Input)
    ensures r.required <==> visible && Declared(i)
    ensures r.(required := i.required) == i
  {
    i.(required := visible && Declared(i))
  }

  /** One turn of the listener as intended: a shown control is re-armed only
      when its section is visible too, and a hidden one is cleared as the
      service hide clears it, a radio or checkbox being unchecked and keeping
      its option value. */
  function DepStepIntended(t: FormTable, c: nat, w: nat): (r: FormTable)
    requires WellFormed(t) && c < |t.inputs| && w < |t.wrappers|
    ensures WellFormed(r) && |r.inputs| == |t.inputs| && |r.wrappers| == |t.wrappers|
    ensures r.services == t.services && r.sections == t.sections
  {
    if !Depends(t.wrappers[w], t.inputs[c].questionId) then t
    else
      var m := Matches(t, c, t.wrappers[w].trigger.value.expected);
      var visible := !t.sections[t.wrappers[w].section].hidden;
      var ins := t.inputs;
      var r := t.(wrappers := t.wrappers[w := t.wrappers[w].(hidden := !m)],
                  inputs := seq(|ins|, k requires 0 <= k < |ins| =>
                    if ins[k].wrapper != w then ins[k]
                    else if m then Arm(ins[k], visible) else HideOnService(ins[k])));
      assert SameLayout(t, r);
      SameLayoutWellFormed(t, r);
      r
  }

  function CondUpToIntended(t: FormTable, c: nat, n: nat): (r: FormTable)
    requires WellFormed(t) && c < |t.inputs| && n <= |t.wrappers|
    ensures WellFormed(r) && |r.inputs| == |t.inputs| && |r.wrappers| == |t.wrappers|
  {
    if n == 0 then t else DepStepIntended(CondUpToIntended(t, c, n - 1), c, n - 1)
  }

  /** The change listener as intended. */
  function AfterChangeIntended(t: FormTable, c: nat): (r: FormTable)
    requires WellFormed(t) && c < |t.inputs|
    ensures WellFormed(r) && |r.inputs| == |t.inputs| && |r.wrappers| == |t.wrappers|
  {
    if t.inputs[c].questionId == "" then t else CondUpToIntended(t, c, |t.wrappers|)
  }

  /** The intended listener never rewrites the option value of a radio or a
      checkbox: hiding unchecks them instead. */
  /** One turn of the intended listener keeps a radio's or checkbox's value. */
  lemma DepStepIntendedKeepsOption(t: FormTable, c: nat, w: nat, k: nat)
    requires WellFormed(t) && c < |t.inputs| && w < |t.wrappers| && k < |t.inputs|
    requires t.inputs[k].kind == Radio || t.inputs[k].kind == Checkbox
    ensures DepStepIntended(t, c, w).inputs[k].value == t.inputs[k].value
    ensures DepStepIntended(t, c, w).inputs[k].kind == t.inputs[k].kind
  {
  }

  lemma {:induction false} IntendedListenerKeepsOptions(t: FormTable, c: nat, n: nat, k: nat)
    requires WellFormed(t) && c < |t.inputs| && n <= |t.wrappers| && k < |t.inputs|
    requires t.inputs[k].kind == Radio || t.inputs[k].kind == Checkbox
    ensures CondUpToIntended(t, c, n).inputs[k].value == t.inputs[k].value
    ensures CondUpToIntended(t, c, n).inputs[k].kind == t.inputs[k].kind
  {
    if n > 0 {
      IntendedListenerKeepsOptions(t, c, n - 1, k);
      DepStepIntendedKeepsOption(CondUpToIntended(t, c, n - 1), c, n - 1, k);
    }
  }

  /** A service click as intended: a control of the shown section is re-armed
      only when its own question is visible too. */
  function ServiceToggledIntended(t: FormTable, s: nat): (r: FormTable)
    requires WellFormed(t) && s < |t.services|
    ensures WellFormed(r)
  {
    var on := !t.services[s].checked;
    var target := ServiceTarget(t, s);
    var ins := t.inputs;
    var r := t.(services := t.services[s := t.services[s].(checked := on)],
                sections := t.sections[target := t.sections[target].(hidden := !on)],
                inputs := seq(|ins|, k requires 0 <= k < |ins| =>
                  if SectionOf(t, k) != target then ins[k]
                  else if on then Arm(ins[k], !t.wrappers[ins[k].wrapper].hidden) else HideOnService(ins[k])));
    assert SameLayout(t, r);
    SameLayoutWellFormed(t, r);
    r
  }

  lemma DepStepIntendedKeeps(t: FormTable, c: nat, w: nat)
    requires WellFormed(t) && c < |t.inputs| && w < |t.wrappers|
    requires RequiredIffVisible(t)
    ensures RequiredIffVisible(DepStepIntended(t, c, w))
  {
    var r := DepStepIntended(t, c, w);
    forall k | 0 <= k < |t.inputs|
      ensures r.inputs[k].required <==> Declared(r.inputs[k]) && !Hidden(r, k)
    {
      assert Hidden(t, k) <==> t.wrappers[t.inputs[k].wrapper].hidden || t.sections[SectionOf(t, k)].hidden;
    }
  }

  /** The intended listener keeps every control required exactly when it is
      marked required and visible. */
  lemma {:induction false} CondIntendedKeeps(t: FormTable, c: nat, n: nat)
    requires WellFormed(t) && c < |t.inputs| && n <= |t.wrappers|
    requires RequiredIffVisible(t)
    ensures RequiredIffVisible(CondUpToIntended(t, c, n))
  {
    if n > 0 {
      CondIntendedKeeps(t, c, n - 1);
      CondIntendedStep(t, c, n);
    }
  }

  lemma CondIntendedStep(t: FormTable, c: nat, n: nat)
    requires WellFormed(t) && c < |t.inputs| && 0 < n <= |t.wrappers|
    requires RequiredIffVisible(CondUpToIntended(t, c, n - 1))
    ensures RequiredIffVisible(CondUpToIntended(t, c, n))
  {
    var p := CondUpToIntended(t, c, n - 1);
    DepStepIntendedKeeps(p, c, n - 1);
    assert CondUpToIntended(t, c, n) == DepStepIntended(p, c, n - 1);
  }

  /** The intended service click keeps the same rule. */
  lemma ServiceIntendedKeeps(t: FormTable, s: nat)
    requires WellFormed(t) && s < |t.services|
    requires RequiredIffVisible(t)
    ensures RequiredIffVisible(ServiceToggledIntended(t, s))
  {
    var r := ServiceToggledIntended(t, s);
    forall k | 0 <= k < |t.inputs|
      ensures r.inputs[k].required <==> Declared(r.inputs[k]) && !Hidden(r, k)
    {
    }
  }

  /** One service whose form holds one required question that waits on "q0". */
  function HiddenRequiredExample(): FormTable {
    FormTable([Service("f", "F", false)], [Section("f", true)],
      [Wrapper(0, true, Some(Trigger("q0", "Yes")))],
      [Input("q1", "q1", TextBox, [], "", false, false, Some("true"), 0)])
  }

  /** Checking the service arms the still hidden conditional question, while the
      intended click leaves it unrequired. */
  lemma ServiceShowArmsHiddenQuestion()
    ensures WellFormed(HiddenRequiredExample()) && RequiredIffVisible(HiddenRequiredExample())
    ensures var r := ServiceToggled(HiddenRequiredExample(), 0);
      Hidden(r, 0) && r.inputs[0].required && !RequiredIffVisible(r)
    ensures RequiredIffVisible(ServiceToggledIntended(HiddenRequiredExample(), 0))
  {
    ServiceIntendedKeeps(HiddenRequiredExample(), 0);
  }

  /** Two services: "q0" is answered in the checked one, and the unchecked one
      holds a required question that waits on "q0" being "Yes". */
  function CrossSectionExample(): FormTable {
    FormTable([Service("a", "A", true), Service("b", "B", false)], [Section("a", false), Section("b", true)],
      [Wrapper(0, false, None), Wrapper(1, true, Some(Trigger("q0", "Yes")))],
      [Input("q0", "q0", TextBox, [], "Yes", false, false, Some("false"), 0),
       Input("q1", "q1", TextBox, [], "", false, false, Some("true"), 1)])
  }

  /** Answering "Yes" arms the dependent question although its section is still
      hidden, while the intended listener leaves it unrequired. */
  lemma ConditionArmsQuestionInHiddenSection()
    ensures WellFormed(CrossSectionExample()) && RequiredIffVisible(CrossSectionExample())
    ensures var r := AfterChange(CrossSectionExample(), 0);
      WellFormed(r) && Hidden(r, 1) && r.inputs[1].required && !RequiredIffVisible(r)
    ensures RequiredIffVisible(AfterChangeIntended(CrossSectionExample(), 0))
  {
    var t := CrossSectionExample();
    assert DepStep(t, 0, 0) == t;
    assert CondUpTo(t, 0, 1) == t;
    assert Matches(t, 0, "Yes");
    var r := DepStep(t, 0, 1);
    assert r.inputs == ApplyCondition(t.inputs, 1, true);
    assert r.inputs[1] == ShowInput(t.inputs[1]);
    assert AfterChange(t, 0) == r;
    CondIntendedKeeps(t, 0, 2);
  }

  // ----- what the user does -----

  /** The user gives a text, text-area, date or select control the value `v`;
      the change listener runs when the value differs. */
  function Entered(t: FormTable, k: nat, v: string): (r: FormTable)
    requires k < |t.inputs|
    ensures |r.inputs| == |t.inputs| && |r.wrappers| == |t.wrappers|
  {
    if t.inputs[k].value == v then t
    else
      var u := t.(inputs := t.inputs[k := t.inputs[k].(value := v)]);
      AfterChange(u, k)
  }

  /** The browser's radio group: `k` checked and every other radio of its name unchecked. */
  function CheckRadio(ins: seq<Input>, k: nat): (r: seq<Input>)
    requires k < |ins|
    ensures |r| == |ins| && forall j :: 0 <= j < |ins| ==> Shape(r[j]) == Shape(ins[j])
  {
    seq(|ins|, j requires 0 <= j < |ins| =>
      if j == k then ins[j].(checked := true)
      else if ins[j].kind == Radio && ins[j].name == ins[k].name then ins[j].(checked := false)
      else ins[j])
  }

  /** The user clicks radio `k`: nothing happens when it is already checked,
      otherwise it becomes the group's only checked radio and the listener runs. */
  function RadioClicked(t: FormTable, k: nat): (r: FormTable)
    requires k < |t.inputs|
    ensures |r.inputs| == |t.inputs| && |r.wrappers| == |t.wrappers|
  {
    if t.inputs[k].checked then t
    else
      var u := t.(inputs := CheckRadio(t.inputs, k));
      AfterChange(u, k)
  }

  /** The user clicks checkbox `k`: it flips and the listener runs. */
  function CheckboxClicked(t: FormTable, k: nat): (r: FormTable)
    requires k < |t.inputs|
    ensures |r.inputs| == |t.inputs| && |r.wrappers| == |t.wrappers|
  {
    var u := t.(inputs := t.inputs[k := t.inputs[k].(checked := !t.inputs[k].checked)]);
    AfterChange(u, k)
  }

  /** `Entered` with the intended listener. */
  function EnteredIntended(t: FormTable, k: nat, v: string): (r: FormTable)
    requires WellFormed(t) && k < |t.inputs|
    ensures WellFormed(r) && |r.inputs| == |t.inputs| && |r.wrappers| == |t.wrappers|
  {
    if t.inputs[k].value == v then t
    else
      var u := t.(inputs := t.inputs[k := t.inputs[k].(value := v)]);
      assert SameLayout(t, u);
      SameLayoutWellFormed(t, u);
      AfterChangeIntended(u, k)
  }

  /** `RadioClicked` with the intended listener. */
  function RadioClickedIntended(t: FormTable, k: nat): (r: FormTable)
    requires WellFormed(t) && k < |t.inputs|
    ensures WellFormed(r) && |r.inputs| == |t.inputs|
  {
    if t.inputs[k].checked then t
    else
      var u := t.(inputs := CheckRadio(t.inputs, k));
      assert SameLayout(t, u);
      SameLayoutWellFormed(t, u);
      AfterChangeIntended(u, k)
  }

  /**
   * Typing the trigger value into a question shows each question waiting on
   * it and re-arms the ones marked required; typing anything else hides them,
   * disarms them and clears their values. Holds whenever the typed question
   * does not wait on itself.
   */
  lemma EnteredTogglesDependents(t: FormTable, k: nat, v: string, w: nat, j: nat)
    requires WellFormed(t) && k < |t.inputs| && w < |t.wrappers| && j < |t.inputs|
    requires t.inputs[k].kind != Radio && t.inputs[k].questionId != "" && t.inputs[k].value != v
    requires NotSelfTriggered(t, k)
    requires Depends(t.wrappers[w], t.inputs[k].questionId) && t.inputs[j].wrapper == w
    ensures var r := Entered(t, k, v);
      var shown := v == t.wrappers[w].trigger.value.expected;
      && r.wrappers[w].hidden == !shown
      && (shown ==> (r.inputs[j].required <==> t.inputs[j].required || Declared(t.inputs[j])))
      && (!shown ==> !r.inputs[j].required && r.inputs[j].value == "")
  {
    var u := t.(inputs := t.inputs[k := t.inputs[k].(value := v)]);
    assert SameLayout(t, u);
    SameLayoutWellFormed(t, u);
    assert NotSelfTriggered(u, k) by {
      forall i | 0 <= i < |u.inputs| && u.inputs[i].name == u.inputs[k].name
        ensures !Depends(u.wrappers[u.inputs[i].wrapper], u.inputs[k].questionId)
      {
        assert Shape(u.inputs[i]) == Shape(t.inputs[i]);
      }
    }
    ConditionalClosedForm(u, k, |u.wrappers|);
    assert j != k;
    assert u.inputs[j] == t.inputs[j];
  }
}
