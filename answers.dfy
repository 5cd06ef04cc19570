/**
 * The answers the submit handler reads back from the field table. It walks
 * every control with a question id in document order, skips controls under a
 * hidden ancestor and controls whose id has no definition in the question
 * sheet, and takes each `name` group once: a radio group answers with its
 * first checked member, a checkbox group with the checked values joined by
 * ", ", any other control with its own value. A required question (as the
 * sheet's first row with that id says) fails when its answer is blank.
 */
module Answers {
  import opened Wrappers
  import opened Text
  import opened Questions
  import opened Fields

  /** One entry of `formResponses`. */
  datatype Response = Response(questionId: string, answer: string)

  /** `(q.QuestionID || q['QuestionID '] || "").trim()` on a raw sheet row. */
  function DefId(q: Row): string {
    var a := Get(q, "QuestionID");
    var b := Get(q, "QuestionID ");
    Trim(if Truthy(a) then a.value else if Truthy(b) then b.value else "")
  }

  /** `allQuestions.find(...)`: the first sheet row whose id reads `qId`. */
  function FindDef(questions: seq<Row>, qId: string): (r: Option<Row>)
    ensures r.Some? ==> r.value in questions
  {
    if questions == [] then None
    else if DefId(questions[0]) == qId then Some(questions[0])
    else FindDef(questions[1..], qId)
  }

  /** The index of the first sheet row whose id reads `qId`, or |questions|
      when no row does. */
  function FirstDef(questions: seq<Row>, qId: string): (i: nat)
    ensures i <= |questions|
    ensures i < |questions| ==> DefId(questions[i]) == qId
    ensures forall j :: 0 <= j < i ==> DefId(questions[j]) != qId
  {
    if questions == [] then 0
    else if DefId(questions[0]) == qId then 0
    else
      var i := 1 + FirstDef(questions[1..], qId);
      assert forall j :: 1 <= j < i ==> questions[j] == questions[1..][j - 1];
      i
  }

  /** `find` returns the first row whose id reads `qId`, and none exactly when
      no row does. */
  lemma {:induction false} FindDefFinds(questions: seq<Row>, qId: string)
    ensures var i := FirstDef(questions, qId);
      FindDef(questions, qId) == if i < |questions| then Some(questions[i]) else None
  {
    if questions != [] && DefId(questions[0]) != qId {
      FindDefFinds(questions[1..], qId);
      assert FirstDef(questions, qId) == 1 + FirstDef(questions[1..], qId);
    }
  }

  /** `String(q.IsRequired || q['IsRequired '] || "false")`, read as in the builder. */
  function DefRequired(q: Row): bool {
    var a := Get(q, "IsRequired");
    RequiredFlag(if Truthy(a) then a else Get(q, "IsRequired "))
  }

  /** For each control, what the sheet says about its question: None when no
      row defines it, otherwise whether it is required. */
  function Lookup(t: FormTable, questions: seq<Row>): (defs: seq<Option<bool>>)
    ensures |defs| == |t.inputs|
    ensures forall k :: 0 <= k < |t.inputs| ==>
      defs[k] == (var d := FindDef(questions, t.inputs[k].questionId); if d.Some? then Some(DefRequired(d.value)) else None)
  {
    seq(|t.inputs|, k requires 0 <= k < |t.inputs| =>
      var d := FindDef(questions, t.inputs[k].questionId);
      if d.Some? then Some(DefRequired(d.value)) else None)
  }

  /** Control k takes part: it is visible and its question is defined. */
  predicate Counted(t: FormTable, defs: seq<Option<bool>>, k: nat)
    requires WellFormed(t) && |defs| == |t.inputs| && k < |t.inputs|
  {
    !Hidden(t, k) && defs[k].Some?
  }

  /** Control k is the one that answers for its `name` group: it takes part and
      no earlier control of the same name does. */
  predicate FirstOfGroup(t: FormTable, defs: seq<Option<bool>>, k: nat)
    requires WellFormed(t) && |defs| == |t.inputs| && k < |t.inputs|
  {
    Counted(t, defs, k) && !NameTaken(t, defs, k, t.inputs[k].name)
  }

  /** Some control among 0 .. n-1 takes part under `name` (`processedGroups.has(name)`). */
  predicate NameTaken(t: FormTable, defs: seq<Option<bool>>, n: nat, name: string)
    requires WellFormed(t) && |defs| == |t.inputs| && n <= |t.inputs|
  {
    n > 0 && ((Counted(t, defs, n - 1) && t.inputs[n - 1].name == name) || NameTaken(t, defs, n - 1, name))
  }

  /** NameTaken means what it says. */
  lemma {:induction false} NameTakenIff(t: FormTable, defs: seq<Option<bool>>, n: nat, name: string)
    requires WellFormed(t) && |defs| == |t.inputs| && n <= |t.inputs|
    ensures NameTaken(t, defs, n, name) <==>
      exists j :: 0 <= j < n && Counted(t, defs, j) && t.inputs[j].name == name
  {
    if n > 0 {
      NameTakenIff(t, defs, n - 1, name);
    }
  }

  /** The answer read for control k. */
  function AnswerOf(t: FormTable, k: nat): string
    requires k < |t.inputs|
  {
    var i := t.inputs[k];
    if i.kind == Radio then SelectedValue(t.inputs, i.name)
    else if i.kind == Checkbox then Join(CheckedValues(t.inputs, i.name), ", ")
    else i.value
  }

  /** The blank test: empty for a radio or checkbox group, white space only for
      any other control. */
  predicate Blank(i: Input, answer: string) {
    if i.kind == Radio || i.kind == Checkbox then answer == "" else AllSpace(answer)
  }

  /** Control k answers for a required question and its answer is blank. */
  predicate Missing(t: FormTable, defs: seq<Option<bool>>, k: nat)
    requires WellFormed(t) && |defs| == |t.inputs| && k < |t.inputs|
  {
    FirstOfGroup(t, defs, k) && defs[k] == Some(true) && Blank(t.inputs[k], AnswerOf(t, k))
  }

  /** Control k puts an entry into `formResponses`. */
  predicate Answers(t: FormTable, defs: seq<Option<bool>>, k: nat)
    requires WellFormed(t) && |defs| == |t.inputs| && k < |t.inputs|
  {
    FirstOfGroup(t, defs, k) && t.inputs[k].questionId != ""
  }

  /** `formResponses` after the loop has seen controls 0 .. n-1. */
  function ResponsesUpTo(t: FormTable, defs: seq<Option<bool>>, n: nat): seq<Response>
    requires WellFormed(t) && |defs| == |t.inputs| && n <= |t.inputs|
  {
    if n == 0 then []
    else
      ResponsesUpTo(t, defs, n - 1)
      + (if Answers(t, defs, n - 1) then [Response(t.inputs[n - 1].questionId, AnswerOf(t, n - 1))] else [])
  }

  /** Whether each control misses its required answer. */
  function MissingFlags(t: FormTable, defs: seq<Option<bool>>): (r: seq<bool>)
    requires WellFormed(t) && |defs| == |t.inputs|
    ensures |r| == |t.inputs|
    ensures forall k :: 0 <= k < |r| ==> (r[k] <==> Missing(t, defs, k))
  {
    seq(|t.inputs|, k requires 0 <= k < |t.inputs| => Missing(t, defs, k))
  }

  /** The least index below n whose flag is set. */
  function FirstSet(b: seq<bool>, n: nat): Option<nat>
    requires n <= |b|
  {
    if n == 0 then None
    else
      var p := FirstSet(b, n - 1);
      if p.Some? then p
      else if b[n - 1] then Some(n - 1)
      else None
  }

  /** FirstSet finds nothing exactly when no flag below n is set. */
  lemma {:induction false} FirstSetNone(b: seq<bool>, n: nat)
    requires n <= |b|
    ensures FirstSet(b, n).None? <==> forall k :: 0 <= k < n ==> !b[k]
  {
    if n > 0 {
      FirstSetNone(b, n - 1);
    }
  }

  /** What FirstSet finds is the least set flag below n. */
  lemma {:induction false} FirstSetSome(b: seq<bool>, n: nat)
    requires n <= |b|
    ensures FirstSet(b, n).Some? ==>
      && FirstSet(b, n).value < n
      && b[FirstSet(b, n).value]
      && forall j :: 0 <= j < FirstSet(b, n).value ==> !b[j]
  {
    if n > 0 {
      FirstSetSome(b, n - 1);
      FirstSetNone(b, n - 1);
    }
  }

  /** `firstInvalidField`: the first control below n whose required answer is blank. */
  function FirstMissing(t: FormTable, defs: seq<Option<bool>>, n: nat): Option<nat>
    requires WellFormed(t) && |defs| == |t.inputs| && n <= |t.inputs|
  {
    FirstSet(MissingFlags(t, defs), n)
  }

  /** FirstMissing finds nothing exactly when no control below n is missing its
      answer. */
  lemma FirstMissingNone(t: FormTable, defs: seq<Option<bool>>, n: nat)
    requires WellFormed(t) && |defs| == |t.inputs| && n <= |t.inputs|
    ensures FirstMissing(t, defs, n).None? <==> forall k :: 0 <= k < n ==> !Missing(t, defs, k)
  {
    FirstSetNone(MissingFlags(t, defs), n);
  }

  /** When FirstMissing finds a control, it is the least one below n that is
      missing its answer. */
  lemma FirstMissingSome(t: FormTable, defs: seq<Option<bool>>, n: nat)
    requires WellFormed(t) && |defs| == |t.inputs| && n <= |t.inputs|
    ensures FirstMissing(t, defs, n).Some? ==>
      && FirstMissing(t, defs, n).value < n
      && Missing(t, defs, FirstMissing(t, defs, n).value)
      && forall j :: 0 <= j < FirstMissing(t, defs, n).value ==> !Missing(t, defs, j)
  {
    FirstSetSome(MissingFlags(t, defs), n);
  }

  /** The controls that answer, in document order. */
  function Answering(t: FormTable, defs: seq<Option<bool>>, n: nat): (idx: seq<nat>)
    requires WellFormed(t) && |defs| == |t.inputs| && n <= |t.inputs|
    ensures forall i :: 0 <= i < |idx| ==> idx[i] < n
  {
    if n == 0 then []
    else Answering(t, defs, n - 1) + (if Answers(t, defs, n - 1) then [n - 1] else [])
  }

  /** The answering controls are exactly those below n that answer, in increasing order. */
  lemma {:induction false} AnsweringExact(t: FormTable, defs: seq<Option<bool>>, n: nat)
    requires WellFormed(t) && |defs| == |t.inputs| && n <= |t.inputs|
    ensures forall i :: 0 <= i < |Answering(t, defs, n)| ==> Answers(t, defs, Answering(t, defs, n)[i])
    ensures forall i, j :: 0 <= i < j < |Answering(t, defs, n)| ==> Answering(t, defs, n)[i] < Answering(t, defs, n)[j]
    ensures forall k :: 0 <= k < n && Answers(t, defs, k) ==> k in Answering(t, defs, n)
  {
    if n > 0 {
      AnsweringExact(t, defs, n - 1);
      var prev := Answering(t, defs, n - 1);
      var idx := Answering(t, defs, n);
      assert forall i :: 0 <= i < |prev| ==> idx[i] == prev[i];
    }
  }

  /** Response i is the answer of the i-th answering control. */
  lemma {:induction false} ResponsesByIndex(t: FormTable, defs: seq<Option<bool>>, n: nat)
    requires WellFormed(t) && |defs| == |t.inputs| && n <= |t.inputs|
    ensures var rs := ResponsesUpTo(t, defs, n);
      var idx := Answering(t, defs, n);
      && |rs| == |idx|
      && forall i :: 0 <= i < |idx| ==> rs[i] == Response(t.inputs[idx[i]].questionId, AnswerOf(t, idx[i]))
  {
    if n > 0 {
      ResponsesByIndex(t, defs, n - 1);
    }
  }

  /**
   * The responses come from visible, defined controls with a non-empty id, one
   * per `name` group, in document order; every group that takes part and has an
   * id contributes exactly one response, a blank one included.
   */
  lemma OnePerGroup(t: FormTable, defs: seq<Option<bool>>)
    requires WellFormed(t) && IdNamed(t) && |defs| == |t.inputs|
    ensures var idx := Answering(t, defs, |t.inputs|);
      && (forall i :: 0 <= i < |idx| ==> !Hidden(t, idx[i]) && defs[idx[i]].Some?)
      && (forall i, j :: 0 <= i < j < |idx| ==> idx[i] < idx[j] && t.inputs[idx[i]].name != t.inputs[idx[j]].name)
      && (forall k :: 0 <= k < |t.inputs| && Counted(t, defs, k) && t.inputs[k].questionId != "" ==>
            exists i :: 0 <= i < |idx| && t.inputs[idx[i]].name == t.inputs[k].name)
  {
    AnsweringExact(t, defs, |t.inputs|);
    var idx := Answering(t, defs, |t.inputs|);
    forall i | 0 <= i < |idx| ensures !Hidden(t, idx[i]) && defs[idx[i]].Some? {
      assert Answers(t, defs, idx[i]);
    }
    GroupsDistinct(t, defs);
    forall k | 0 <= k < |t.inputs| && Counted(t, defs, k) && t.inputs[k].questionId != ""
      ensures exists i :: 0 <= i < |idx| && t.inputs[idx[i]].name == t.inputs[k].name
    {
      GroupsCovered(t, defs, k);
    }
  }

  /** No two answering controls share a name. */
  lemma GroupsDistinct(t: FormTable, defs: seq<Option<bool>>)
    requires WellFormed(t) && |defs| == |t.inputs|
    ensures var idx := Answering(t, defs, |t.inputs|);
      forall i, j :: 0 <= i < j < |idx| ==> t.inputs[idx[i]].name != t.inputs[idx[j]].name
  {
    AnsweringExact(t, defs, |t.inputs|);
    var idx := Answering(t, defs, |t.inputs|);
    forall i, j | 0 <= i < j < |idx| ensures t.inputs[idx[i]].name != t.inputs[idx[j]].name {
      assert Answers(t, defs, idx[j]);
      assert Answers(t, defs, idx[i]);
      NameTakenIff(t, defs, idx[j], t.inputs[idx[j]].name);
    }
  }

  /** Every group that takes part with an id has an answering control. */
  lemma GroupsCovered(t: FormTable, defs: seq<Option<bool>>, k: nat)
    requires WellFormed(t) && IdNamed(t) && |defs| == |t.inputs|
    requires k < |t.inputs| && Counted(t, defs, k) && t.inputs[k].questionId != ""
    ensures exists i ::
      0 <= i < |Answering(t, defs, |t.inputs|)| && t.inputs[Answering(t, defs, |t.inputs|)[i]].name == t.inputs[k].name
  {
    AnsweringExact(t, defs, |t.inputs|);
    var idx := Answering(t, defs, |t.inputs|);
    var f := FirstOfName(t, defs, k);
    assert t.inputs[f].questionId == t.inputs[f].name == t.inputs[k].name == t.inputs[k].questionId;
    assert Answers(t, defs, f);
    var i :| 0 <= i < |idx| && idx[i] == f;
    assert t.inputs[idx[i]].name == t.inputs[k].name;
  }

  /** The first control, up to k, that takes part with the same name as k. */
  ghost function FirstOfName(t: FormTable, defs: seq<Option<bool>>, k: nat): (f: nat)
    requires WellFormed(t) && |defs| == |t.inputs| && k < |t.inputs| && Counted(t, defs, k)
    ensures f <= k && FirstOfGroup(t, defs, f) && t.inputs[f].name == t.inputs[k].name
    decreases k
  {
    if FirstOfGroup(t, defs, k) then k
    else
      NameTakenIff(t, defs, k, t.inputs[k].name);
      var j :| 0 <= j < k && Counted(t, defs, j) && t.inputs[j].name == t.inputs[k].name;
      FirstOfName(t, defs, j)
  }

  /** A control in a hidden section neither answers nor blocks. */
  lemma HiddenSectionSilent(t: FormTable, defs: seq<Option<bool>>, k: nat)
    requires WellFormed(t) && |defs| == |t.inputs| && k < |t.inputs| && t.sections[SectionOf(t, k)].hidden
    ensures k !in Answering(t, defs, |t.inputs|) && !Missing(t, defs, k)
  {
    AnsweringExact(t, defs, |t.inputs|);
  }

  /** After a service is unchecked, nothing in its section answers or blocks. */
  lemma UncheckedServiceSilent(t: FormTable, s: nat, questions: seq<Row>, k: nat)
    requires WellFormed(t) && s < |t.services| && t.services[s].checked && k < |t.inputs|
    requires SectionOf(t, k) == ServiceTarget(t, s)
    ensures var r := ServiceToggled(t, s);
      var defs := Lookup(r, questions);
      k !in Answering(r, defs, |r.inputs|) && !Missing(r, defs, k)
  {
    var r := ServiceToggled(t, s);
    assert SectionOf(r, k) == SectionOf(t, k);
    HiddenSectionSilent(r, Lookup(r, questions), k);
  }

  /** The conditional hide leaves every member of a hidden radio group reading "". */
  lemma ConditionalHideBlanksRadio(t: FormTable, w: nat, k: nat)
    requires WellFormed(t) && k < |t.inputs| && t.inputs[k].kind == Radio
    requires forall j :: 0 <= j < |t.inputs| && t.inputs[j].name == t.inputs[k].name ==> t.inputs[j].wrapper == w
    ensures var hidden := t.(inputs := ApplyCondition(t.inputs, w, false));
      forall j :: 0 <= j < |t.inputs| && t.inputs[j].name == t.inputs[k].name ==> hidden.inputs[j].value == ""
  {
  }

  /** A radio group whose members all read "" answers "", whichever is checked. */
  lemma BlankRadioGroupAnswersBlank(t: FormTable, k: nat)
    requires k < |t.inputs| && t.inputs[k].kind == Radio
    requires forall j :: 0 <= j < |t.inputs| && t.inputs[j].name == t.inputs[k].name ==> t.inputs[j].value == ""
    ensures AnswerOf(t, k) == ""
  {
  }

  /** One ticked service whose section holds a text question "q0" with the
      value `q0`, and a required Yes/No question "q1" waiting on "q0" being
      "Yes", shown or not, its radios unchecked with the values `yes` and `no`
      and `required` when `armed`. */
  function RadioForm(q0: string, shown: bool, yes: string, no: string, armed: bool): FormTable {
    FormTable([Service("f", "F", true)], [Section("f", false)],
      [Wrapper(0, false, None), Wrapper(0, !shown, Some(Trigger("q0", "Yes")))],
      [Input("q0", "q0", TextBox, [], q0, false, false, Some("false"), 0),
       Input("q1", "q1", Radio, [], yes, false, armed, Some("true"), 1),
       Input("q1", "q1", Radio, [], no, false, armed, Some("true"), 1)])
  }

  /** What the sheet says of the example's controls: "q0" optional, "q1" required. */
  const RadioFormDefs: seq<Option<bool>> := [Some(false), Some(true), Some(true)]

  /** A change to a question nothing waits on leaves the table as it is, under
      either listener. */
  lemma {:induction false} NoDependentsNoChange(t: FormTable, c: nat, n: nat)
    requires WellFormed(t) && c < |t.inputs| && n <= |t.wrappers|
    requires forall w :: 0 <= w < |t.wrappers| ==> !Depends(t.wrappers[w], t.inputs[c].questionId)
    ensures CondUpTo(t, c, n) == t && CondUpToIntended(t, c, n) == t
  {
    if n > 0 {
      NoDependentsNoChange(t, c, n - 1);
    }
  }

  /** Answering "No" hides "q1"; as written its radios lose their values. */
  lemma RadioFormHides()
    ensures Entered(RadioForm("Yes", true, "Yes", "No", true), 0, "No") == RadioForm("No", false, "", "", false)
  {
    var t := RadioForm("Yes", true, "Yes", "No", true);
    var u := RadioForm("No", true, "Yes", "No", true);
    assert DepStep(u, 0, 0) == u;
    assert CondUpTo(u, 0, 1) == u;
    assert DepStep(u, 0, 1) == RadioForm("No", false, "", "", false);
    assert u == t.(inputs := t.inputs[0 := t.inputs[0].(value := "No")]);
    assert AfterChange(u, 0) == CondUpTo(u, 0, 2);
  }

  /** Answering "Yes" again shows "q1" and re-arms it, its values still "". */
  lemma RadioFormShows()
    ensures Entered(RadioForm("No", false, "", "", false), 0, "Yes") == RadioForm("Yes", true, "", "", true)
  {
    var t := RadioForm("No", false, "", "", false);
    var u := RadioForm("Yes", false, "", "", false);
    assert DepStep(u, 0, 0) == u;
    assert CondUpTo(u, 0, 1) == u;
    assert DepStep(u, 0, 1) == RadioForm("Yes", true, "", "", true);
    assert u == t.(inputs := t.inputs[0 := t.inputs[0].(value := "Yes")]);
    assert AfterChange(u, 0) == CondUpTo(u, 0, 2);
  }

  /** The intended listener hides "q1" by unchecking its radios, which keep their values. */
  lemma RadioFormHidesIntended()
    ensures EnteredIntended(RadioForm("Yes", true, "Yes", "No", true), 0, "No") == RadioForm("No", false, "Yes", "No", false)
  {
    var t := RadioForm("Yes", true, "Yes", "No", true);
    var u := RadioForm("No", true, "Yes", "No", true);
    assert DepStepIntended(u, 0, 0) == u;
    assert CondUpToIntended(u, 0, 1) == u;
    assert DepStepIntended(u, 0, 1) == RadioForm("No", false, "Yes", "No", false);
    assert u == t.(inputs := t.inputs[0 := t.inputs[0].(value := "No")]);
    assert AfterChangeIntended(u, 0) == CondUpToIntended(u, 0, 2);
  }

  /** The intended listener shows "q1" again and re-arms it. */
  lemma RadioFormShowsIntended()
    ensures EnteredIntended(RadioForm("No", false, "Yes", "No", false), 0, "Yes") == RadioForm("Yes", true, "Yes", "No", true)
  {
    var t := RadioForm("No", false, "Yes", "No", false);
    var u := RadioForm("Yes", false, "Yes", "No", false);
    assert DepStepIntended(u, 0, 0) == u;
    assert CondUpToIntended(u, 0, 1) == u;
    assert DepStepIntended(u, 0, 1) == RadioForm("Yes", true, "Yes", "No", true);
    assert u == t.(inputs := t.inputs[0 := t.inputs[0].(value := "Yes")]);
    assert AfterChangeIntended(u, 0) == CondUpToIntended(u, 0, 2);
  }

  /** The example starts out keeping the rule that a control is required
      exactly when it is marked so and visible. */
  lemma RadioFormFollowsRule()
    ensures WellFormed(RadioForm("Yes", true, "Yes", "No", true))
    ensures RequiredIffVisible(RadioForm("Yes", true, "Yes", "No", true))
  {
    var t := RadioForm("Yes", true, "Yes", "No", true);
    forall k | 0 <= k < |t.inputs|
      ensures t.inputs[k].required <==> Declared(t.inputs[k]) && !Hidden(t, k)
    {
      assert !Hidden(t, k);
    }
  }

  /** The example shown again with its "Yes" radio picked. */
  function Picked(yes: string, no: string): FormTable {
    var t := RadioForm("Yes", true, yes, no, true);
    t.(inputs := t.inputs[1 := t.inputs[1].(checked := true)])
  }

  /** Picking the "Yes" radio of the shown "q1" only checks it, under either
      listener, since nothing waits on "q1". */
  lemma RadioFormPicks(yes: string, no: string)
    ensures RadioClicked(RadioForm("Yes", true, yes, no, true), 1) == Picked(yes, no)
    ensures RadioClickedIntended(RadioForm("Yes", true, yes, no, true), 1) == Picked(yes, no)
  {
    var t := RadioForm("Yes", true, yes, no, true);
    var u := t.(inputs := CheckRadio(t.inputs, 1));
    assert u == Picked(yes, no);
    NoDependentsNoChange(u, 1, 2);
  }

  /** With the "Yes" radio picked, "q1" answers with that radio's value, and
      is missing exactly when that value is empty. */
  lemma PickedAnswers(yes: string, no: string)
    ensures WellFormed(Picked(yes, no)) && Picked(yes, no).inputs[1].checked
    ensures AnswerOf(Picked(yes, no), 1) == yes
    ensures Missing(Picked(yes, no), RadioFormDefs, 1) <==> yes == ""
  {
    var t := Picked(yes, no);
    assert FirstChecked(t.inputs, "q1") == 1;
    assert !NameTaken(t, RadioFormDefs, 1, "q1");
  }

  /**
   * The user answers "No" to "q0", which hides "q1", then "Yes", which shows
   * it again, and picks the "Yes" radio of "q1". As written the hide blanked
   * both radios' values, so the group answers "" and blocks the submission as
   * a required question left blank.
   */
  lemma ReshownRadioAnswersBlank()
    ensures var r := RadioClicked(Entered(Entered(RadioForm("Yes", true, "Yes", "No", true), 0, "No"), 0, "Yes"), 1);
      WellFormed(r) && r.inputs[1].checked && AnswerOf(r, 1) == "" && Missing(r, RadioFormDefs, 1)
  {
    RadioFormHides();
    RadioFormShows();
    RadioFormPicks("", "");
    PickedAnswers("", "");
  }

  /** The same answers with the intended listener: "q1" answers "Yes" and
      nothing is missing. */
  lemma ReshownRadioAnswersOption()
    ensures var r := RadioClickedIntended(EnteredIntended(EnteredIntended(RadioForm("Yes", true, "Yes", "No", true), 0, "No"), 0, "Yes"), 1);
      WellFormed(r) && r.inputs[1].checked && AnswerOf(r, 1) == "Yes" && !Missing(r, RadioFormDefs, 1)
  {
    RadioFormHidesIntended();
    RadioFormShowsIntended();
    RadioFormPicks("Yes", "No");
    PickedAnswers("Yes", "No");
  }
}
