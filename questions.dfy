/**
 * The question sheet and the field table built from it. A question row is
 * kept as PapaParse gives it, a list of (column header, value) cells, because
 * the page looks columns up by header text and some headers carry stray white
 * space. `renderDynamicForms` turns an event's comma-separated `Forms` list into
 * one service checkbox and one hidden section per form, and each question of
 * those forms into a wrapper (hidden when the question is conditional) holding
 * one or more inputs; the inputs are the rows of the field table.
 */
module Questions {
  import opened Wrappers
  import opened Text
  import opened Slots

  /** One cell of a sheet row: the column header as written, and the value. */
  datatype Cell = Cell(key: string, value: string)

  type Row = seq<Cell>

  /** `row[key]`: the value under that exact header, or undefined (None). When
      two cells share a header the later one is the one an object keeps. */
  function Get(row: Row, key: string): Option<string> {
    if row == [] then None
    else if row[|row| - 1].key == key then Some(row[|row| - 1].value)
    else Get(row[..|row| - 1], key)
  }

  /** `for (let key in q) cleanQ[key.trim()] = q[key]`: the same cells under trimmed headers. */
  function CleanRow(row: Row): Row {
    seq(|row|, i requires 0 <= i < |row| => Cell(Trim(row[i].key), row[i].value))
  }

  /** After sanitising, a column is found under its trimmed header, taking the
      last cell whose header trims to it. */
  lemma CleanRowFindsPaddedHeader(row: Row, i: nat, key: string)
    requires i < |row| && Trim(row[i].key) == key
    requires forall j :: i < j < |row| ==> Trim(row[j].key) != key
    ensures Get(CleanRow(row), key) == Some(row[i].value)
  {
    GetFindsLast(CleanRow(row), i, key);
  }

  /** `row[key]` is the value of the last cell under that header. */
  lemma {:induction false} GetFindsLast(row: Row, i: nat, key: string)
    requires i < |row| && row[i].key == key
    requires forall j :: i < j < |row| ==> row[j].key != key
    ensures Get(row, key) == Some(row[i].value)
  {
    var n := |row|;
    if i < n - 1 {
      var init := row[..n - 1];
      assert forall j :: i < j < n - 1 ==> init[j] == row[j];
      GetFindsLast(init, i, key);
    }
  }

  /** `String(v || "false").trim().toLowerCase() === 'true'`: only a cell that
      reads "true" up to case and surrounding white space marks a question
      required; the "false" put in for a missing cell never does (see
      RequiredFlagDefault). */
  predicate RequiredFlag(v: Option<string>) {
    Truthy(v) && Lower(Trim(v.value)) == "true"
  }

  /** Reading a missing or empty cell as "false" makes the question optional. */
  lemma RequiredFlagDefault(v: Option<string>)
    ensures RequiredFlag(v) <==> Lower(Trim(if Truthy(v) then v.value else "false")) == "true"
  {
    if !Truthy(v) {
      FalseNotTrue();
    }
  }

  lemma FalseNotTrue()
    ensures Lower(Trim("false")) != "true"
  {
    TrimKeeps("false");
  }

  /** A conditional question's trigger: the question it watches and the value that shows it. */
  datatype Trigger = Trigger(id: string, expected: string)

  /** `data-trigger-id` and `data-trigger-value` of a (sanitised) question row: a
      trigger exactly when TriggerID holds more than white space; the expected
      value is the trimmed TriggerValue, or "Yes" when that cell is missing or empty. */
  function TriggerOf(q: Row): (t: Option<Trigger>)
    ensures t.Some? <==> Truthy(Get(q, "TriggerID")) && !AllSpace(Get(q, "TriggerID").value)
    ensures t.Some? ==> t.value.id == Trim(Get(q, "TriggerID").value) && t.value.id != ""
    ensures t.Some? && !Truthy(Get(q, "TriggerValue")) ==> t.value.expected == "Yes"
    ensures t.Some? && Truthy(Get(q, "TriggerValue")) ==> t.value.expected == Trim(Get(q, "TriggerValue").value)
  {
    var id := Get(q, "TriggerID");
    if Truthy(id) then
      TrimEmptyIffBlank(id.value);
      if Trim(id.value) != "" then
        var v := Get(q, "TriggerValue");
        Some(Trigger(Trim(id.value), if Truthy(v) then Trim(v.value) else "Yes"))
      else None
    else None
  }

  /** The `type` of a generated control. */
  datatype InputKind = SelectBox | Checkbox | Radio | TextArea | DateBox | TextBox

  /**
   * One generated control, a row of the field table: `data-question-id`, the
   * `name` that groups radios and checkboxes, its kind, the option values of a
   * select, its `value`, `checked`, `required`, `data-was-required` (None when
   * absent) and the index of the question wrapper that holds it.
   */
  datatype Input = Input(
    questionId: string, name: string, kind: InputKind, options: seq<string>,
    value: string, checked: bool, required: bool, wasRequired: Option<string>,
    wrapper: nat)

  /** A question's wrapper div: its section, whether it has class d-none, its trigger. */
  datatype Wrapper = Wrapper(section: nat, hidden: bool, trigger: Option<Trigger>)

  /** The `section_<formId>` div of one form. */
  datatype Section = Section(formId: string, hidden: bool)

  /** One `.service-selector` checkbox: its value (a form id), its display name, `checked`. */
  datatype Service = Service(formId: string, name: string, checked: bool)

  /** Everything `renderDynamicForms` puts into the dynamic-forms container. */
  datatype FormTable = FormTable(
    services: seq<Service>, sections: seq<Section>, wrappers: seq<Wrapper>, inputs: seq<Input>)

  /** Service i toggles section i; every wrapper lies in a section and every
      input in a wrapper. */
  predicate WellFormed(t: FormTable) {
    && |t.services| == |t.sections|
    && (forall i :: 0 <= i < |t.services| ==> t.services[i].formId == t.sections[i].formId)
    && (forall w :: 0 <= w < |t.wrappers| ==> t.wrappers[w].section < |t.sections|)
    && (forall k :: 0 <= k < |t.inputs| ==> t.inputs[k].wrapper < |t.wrappers|)
  }

  /** Every control is named after its question id, as the builder names them. */
  predicate IdNamed(t: FormTable) {
    forall k :: 0 <= k < |t.inputs| ==> t.inputs[k].name == t.inputs[k].questionId
  }

  /** `${v}` in a template: an undefined cell prints as "undefined". */
  function Template(v: Option<string>): string {
    if v.Some? then v.value else "undefined"
  }

  /** `s.split(',').map(x => x.trim())`. */
  function SplitList(s: string): (r: seq<string>)
    ensures |r| >= 1
  {
    var parts := Split(s, ',');
    seq(|parts|, i requires 0 <= i < |parts| => Trim(parts[i]))
  }

  /** The option values of a choice question: its Options cell split on commas. */
  function OptionList(q: Row): (r: seq<string>)
    ensures |r| >= 1
  {
    var o := Get(q, "Options");
    SplitList(if Truthy(o) then o.value else "")
  }

  /** The control a `QuestionType` cell selects (a strict `switch`; anything
      unlisted, a missing cell included, is a text box). */
  function KindOf(t: Option<string>): (k: InputKind)
    ensures k == Checkbox <==> t == Some("multi_select")
    ensures k == Radio <==> t == Some("radio_yes_no")
    ensures k == SelectBox <==> t == Some("single_select")
  {
    if t == Some("single_select") then SelectBox
    else if t == Some("multi_select") then Checkbox
    else if t == Some("radio_yes_no") then Radio
    else if t == Some("text_area") then TextArea
    else if t == Some("date") then DateBox
    else TextBox
  }

  /** `data-question-id` and `name` of a question's controls. */
  function QuestionIdAttr(q: Row): string {
    Template(Get(q, "QuestionID"))
  }

  /** `data-was-required`: "true" when the row's IsRequired reads true, else "false". */
  function WasRequiredAttr(q: Row): (r: Option<string>)
    ensures r == Some("true") <==> RequiredFlag(Get(q, "IsRequired"))
  {
    Some(if RequiredFlag(Get(q, "IsRequired")) then "true" else "false")
  }

  /** The controls of one question: a select holding an empty placeholder and
      the options, a checkbox per option, a Yes and a No radio, or a single
      control of the given kind. */
  function Controls(id: string, kind: InputKind, opts: seq<string>, was: Option<string>, w: nat): (ins: seq<Input>)
    requires |opts| >= 1
    ensures |ins| >= 1
    ensures forall k :: 0 <= k < |ins| ==>
      && ins[k].wrapper == w && !ins[k].required && !ins[k].checked
      && ins[k].questionId == id && ins[k].name == id && ins[k].kind == kind
      && (kind == SelectBox ==> "" in ins[k].options && ins[k].value == "")
      && (kind != Checkbox ==> ins[k].wasRequired == was)
  {
    if kind == SelectBox then
      [Input(id, id, SelectBox, [""] + opts, "", false, false, was, w)]
    else if kind == Checkbox then
      seq(|opts|, i requires 0 <= i < |opts| => Input(id, id, Checkbox, [], opts[i], false, false, None, w))
    else if kind == Radio then
      [Input(id, id, Radio, [], "Yes", false, false, was, w), Input(id, id, Radio, [], "No", false, false, was, w)]
    else [Input(id, id, kind, [], "", false, false, was, w)]
  }

  /** The inputs a question row generates, all in wrapper `w`: every control
      carries the question's id as `data-question-id` and as `name` and has the
      kind its QuestionType selects; every one but a checkbox records in
      `data-was-required` whether the question is required; a select starts on
      its empty placeholder option. */
  function QuestionInputs(q: Row, w: nat): (ins: seq<Input>)
    ensures |ins| >= 1
    ensures forall k :: 0 <= k < |ins| ==>
      && ins[k].wrapper == w && !ins[k].required && !ins[k].checked
      && ins[k].questionId == QuestionIdAttr(q) && ins[k].name == ins[k].questionId
      && ins[k].kind == KindOf(Get(q, "QuestionType"))
      && (ins[k].kind == SelectBox ==> "" in ins[k].options && ins[k].value == "")
      && (ins[k].kind != Checkbox ==> ins[k].wasRequired == WasRequiredAttr(q))
  {
    Controls(QuestionIdAttr(q), KindOf(Get(q, "QuestionType")), OptionList(q), WasRequiredAttr(q), w)
  }

  /** `createQuestionElement(q)` with `cleanQ` read as `q` and `reqAttr` as
      `wasReqAttr`: a wrapper in `section`, hidden exactly when the question is conditional. */
  function CreateQuestion(q: Row, section: nat, w: nat): (r: (Wrapper, seq<Input>))
    ensures r.0.section == section && r.0.trigger == TriggerOf(q)
    ensures r.0.hidden <==> TriggerOf(q).Some?
    ensures r.1 == QuestionInputs(q, w)
  {
    var trigger := TriggerOf(q);
    (Wrapper(section, trigger.Some?, trigger), QuestionInputs(q, w))
  }

  /** What `createQuestionElement` throws as written. */
  datatype Thrown = ReferenceError(identifier: string)

  /** `createQuestionElement` as written: line 486 reads `cleanQ`, which is not
      in scope there, so every call throws before any markup is made. */
  function CreateQuestionAsWritten(q: Row): (r: Option<Thrown>)
    ensures r == Some(ReferenceError("cleanQ"))
  {
    Some(ReferenceError("cleanQ"))
  }

  /** The service display name: the positional `Service Names` entry or, when
      that is missing or empty, the form id in upper case. */
  function DisplayName(formIds: seq<string>, names: seq<string>, i: nat): string
    requires i < |formIds|
  {
    if i < |names| && names[i] != "" then names[i] else Upper(formIds[i])
  }

  /** `allQuestions.filter(q => formIds.includes(q.FormID)).map(sanitise)`:
      the raw FormID cell must equal a listed form id exactly. */
  function Relevant(questions: seq<Row>, formIds: seq<string>): seq<Row> {
    if questions == [] then []
    else
      var rest := Relevant(questions[1..], formIds);
      var f := Get(questions[0], "FormID");
      if f.Some? && f.value in formIds then [CleanRow(questions[0])] + rest else rest
  }

  /** `relevantQuestions.filter(q => q.FormID === fId)`, in sheet order. */
  function OfForm(rows: seq<Row>, fId: string): (r: seq<Row>)
    ensures |r| <= |rows|
  {
    if rows == [] then []
    else
      var rest := OfForm(rows[1..], fId);
      if Get(rows[0], "FormID") == Some(fId) then [rows[0]] + rest else rest
  }

  /** Wrappers straight from the builder: hidden exactly when conditional. */
  predicate FreshWrappers(ws: seq<Wrapper>, sections: nat) {
    forall w :: 0 <= w < |ws| ==> ws[w].section < sections && (ws[w].hidden <==> ws[w].trigger.Some?)
  }

  /** Inputs straight from the builder: none required, none checked, each in a wrapper. */
  predicate FreshInputs(ins: seq<Input>, wrappers: nat) {
    forall k :: 0 <= k < |ins| ==>
      ins[k].wrapper < wrappers && !ins[k].required && !ins[k].checked && ins[k].name == ins[k].questionId
  }

  /** Appends a wrapper and its inputs for each question of `qs`, in section `section`. */
  function AddQuestions(qs: seq<Row>, section: nat, sections: nat, ws: seq<Wrapper>, ins: seq<Input>)
    : (r: (seq<Wrapper>, seq<Input>))
    requires section < sections
    requires FreshWrappers(ws, sections) && FreshInputs(ins, |ws|)
    ensures FreshWrappers(r.0, sections) && FreshInputs(r.1, |r.0|)
    ensures |r.0| == |ws| + |qs|
    ensures |r.1| >= |ins| && (qs != [] ==> |r.1| > |ins|)
    decreases |qs|
  {
    if qs == [] then (ws, ins)
    else
      var (wr, added) := CreateQuestion(qs[0], section, |ws|);
      AddQuestions(qs[1..], section, sections, ws + [wr], ins + added)
  }

  /** The question sections of forms i.., each filled in form-list order. */
  function AddSections(formIds: seq<string>, rows: seq<Row>, i: nat, ws: seq<Wrapper>, ins: seq<Input>)
    : (r: (seq<Wrapper>, seq<Input>))
    requires i <= |formIds|
    requires FreshWrappers(ws, |formIds|) && FreshInputs(ins, |ws|)
    ensures FreshWrappers(r.0, |formIds|) && FreshInputs(r.1, |r.0|)
    ensures |r.1| >= |ins|
    decreases |formIds| - i
  {
    if i == |formIds| then (ws, ins)
    else
      var (ws', ins') := AddQuestions(OfForm(rows, formIds[i]), i, |formIds|, ws, ins);
      AddSections(formIds, rows, i + 1, ws', ins')
  }

  /** The `Forms` string of an event: empty when there is no event. */
  function FormsOf(event: Option<EventRow>): string {
    if event.Some? then event.value.forms else ""
  }

  /**
   * `renderDynamicForms(event)` (with the corrected question helper): nothing
   * when the event lists no forms; otherwise one unchecked service and one
   * hidden section per listed form, and under them the questions of each form
   * in form-list order and, within a form, in sheet order. Nothing is required
   * yet and nothing is checked; conditional questions start hidden.
   */
  function BuildForm(event: Option<EventRow>, questions: seq<Row>): (t: FormTable)
    ensures WellFormed(t)
    ensures FormsOf(event) == "" ==> t == FormTable([], [], [], [])
    ensures FormsOf(event) != "" ==> |t.sections| == |SplitList(FormsOf(event))|
    ensures forall i :: 0 <= i < |t.sections| ==> t.sections[i].hidden && !t.services[i].checked
    ensures forall w :: 0 <= w < |t.wrappers| ==> (t.wrappers[w].hidden <==> t.wrappers[w].trigger.Some?)
    ensures forall k :: 0 <= k < |t.inputs| ==> !t.inputs[k].required && !t.inputs[k].checked
    ensures IdNamed(t)
  {
    var forms := FormsOf(event);
    if forms == "" then FormTable([], [], [], [])
    else
      var formIds := SplitList(forms);
      var names := SplitList(event.value.serviceNames);
      var services := seq(|formIds|, i requires 0 <= i < |formIds| =>
        Service(formIds[i], DisplayName(formIds, names, i), false));
      var sections := seq(|formIds|, i requires 0 <= i < |formIds| => Section(formIds[i], true));
      var (ws, ins) := AddSections(formIds, Relevant(questions, formIds), 0, [], []);
      FormTable(services, sections, ws, ins)
  }

  /** `renderDynamicForms` as written: with no question to render it builds the
      services and sections; at the first question it throws. */
  function BuildFormAsWritten(event: Option<EventRow>, questions: seq<Row>): Option<Thrown> {
    var forms := FormsOf(event);
    if forms == "" then None
    else
      var formIds := SplitList(forms);
      var rows := Relevant(questions, formIds);
      var i := FirstFilledForm(formIds, rows, 0);
      if i < |formIds| then CreateQuestionAsWritten(OfForm(rows, formIds[i])[0]) else None
  }

  /** The first form, from `j` on, that has a question to render; |formIds| if none. */
  function FirstFilledForm(formIds: seq<string>, rows: seq<Row>, j: nat): (i: nat)
    requires j <= |formIds|
    ensures j <= i <= |formIds|
    ensures i < |formIds| ==> OfForm(rows, formIds[i]) != []
    ensures forall k :: j <= k < i ==> OfForm(rows, formIds[k]) == []
    decreases |formIds| - j
  {
    if j == |formIds| || OfForm(rows, formIds[j]) != [] then j
    else FirstFilledForm(formIds, rows, j + 1)
  }

  /** As written, an event whose form has a question cannot be rendered: the
      helper throws, while the corrected builder yields that question's inputs. */
  lemma {:induction false} BuildFormAsWrittenThrows(event: Option<EventRow>, questions: seq<Row>, i: nat)
    requires FormsOf(event) != ""
    requires i < |SplitList(FormsOf(event))|
    requires OfForm(Relevant(questions, SplitList(FormsOf(event))), SplitList(FormsOf(event))[i]) != []
    ensures BuildFormAsWritten(event, questions) == Some(ReferenceError("cleanQ"))
    ensures |BuildForm(event, questions).inputs| > 0
  {
    var formIds := SplitList(FormsOf(event));
    var rows := Relevant(questions, formIds);
    AddSectionsGrows(formIds, rows, 0, [], [], i);
  }

  lemma {:induction false} AddSectionsGrows(formIds: seq<string>, rows: seq<Row>, j: nat, ws: seq<Wrapper>, ins: seq<Input>, i: nat)
    requires j <= i < |formIds|
    requires FreshWrappers(ws, |formIds|) && FreshInputs(ins, |ws|)
    requires OfForm(rows, formIds[i]) != []
    ensures |AddSections(formIds, rows, j, ws, ins).1| > 0
    decreases |formIds| - j
  {
    var r := AddQuestions(OfForm(rows, formIds[j]), j, |formIds|, ws, ins);
    assert AddSections(formIds, rows, j, ws, ins) == AddSections(formIds, rows, j + 1, r.0, r.1);
    if j < i {
      AddSectionsGrows(formIds, rows, j + 1, r.0, r.1, i);
    }
  }
}
