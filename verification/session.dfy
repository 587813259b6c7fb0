/** The composition session of `components/email-referral-tool.tsx`: select
    a template, fill in placeholder values, edit the working subject and
    body, preview the rendered email and send it. A successful send clears
    the session; a failed one keeps it for a retry. */
module Session {
  import opened Wrappers
  import opened Text
  import opened Seqs
  import opened TemplateModel
  import opened Renderer
  import opened FileUpload
  import opened PlaceholderForm

  datatype Tab = Compose | Templates

  /** The component's state variables. */
  datatype State = State(
    activeTab: Tab,
    selected: Option<Template>,
    templateToEdit: Option<Template>,
    placeholders: seq<Placeholder>,
    content: string,
    subject: string,
    file: Option<File>,
    isSending: bool,
    isEditingTemplate: bool,
    showTemplateSelector: bool,
    showPreview: bool,
    recipient: string)

  const Initial := State(Compose, None, None, [], "", "", None, false, false, false, false, "")

  /** One runtime placeholder per definition, with an empty value. */
  function Seed(defs: seq<PlaceholderDefinition>): (ps: seq<Placeholder>)
    ensures |ps| == |defs|
    ensures forall i :: 0 <= i < |defs| ==>
              ps[i].key == defs[i].key && ps[i].ptype == defs[i].ptype && ps[i].value == ""
    decreases |defs|
  {
    if |defs| == 0 then []
    else [Placeholder(defs[0].key, "", defs[0].ptype)] + Seed(defs[1..])
  }

  /** `handleTemplateSelect`: the template becomes the working copy and its
      definitions are seeded as empty placeholders, whatever values an
      earlier selection left behind. Nothing else changes. */
  function SelectTemplate(s: State, t: Template): (r: State)
    ensures r.selected == Some(t) && r.content == t.body && r.subject == t.subject
    ensures |r.placeholders| == |DefinitionsOf(t)|
    ensures forall i :: 0 <= i < |r.placeholders| ==>
              r.placeholders[i].key == DefinitionsOf(t)[i].key &&
              r.placeholders[i].ptype == DefinitionsOf(t)[i].ptype &&
              r.placeholders[i].value == ""
    ensures t.placeholders.None? ==> r.placeholders == []
    ensures r == s.(selected := Some(t), content := t.body, subject := t.subject, placeholders := r.placeholders)
  {
    s.(selected := Some(t), content := t.body, subject := t.subject, placeholders := Seed(DefinitionsOf(t)))
  }

  /** The value update of `handlePlaceholderChange`. */
  function ChangeValue(ps: seq<Placeholder>, key: string, value: string): (r: seq<Placeholder>)
    ensures |r| == |ps|
    ensures forall i :: 0 <= i < |ps| ==>
              r[i].key == ps[i].key && r[i].ptype == ps[i].ptype &&
              r[i].value == (if ps[i].key == key then value else ps[i].value)
    decreases |ps|
  {
    if |ps| == 0 then []
    else
      var p := if ps[0].key == key then ps[0].(value := value) else ps[0];
      [p] + ChangeValue(ps[1..], key, value)
  }

  /** `handlePlaceholderChange`: only the entries with that key take the
      new value; keys, types, order and the rest of the state are kept. */
  function HandlePlaceholderChange(s: State, key: string, value: string): (r: State)
    ensures |r.placeholders| == |s.placeholders|
    ensures forall i :: 0 <= i < |s.placeholders| && s.placeholders[i].key != key ==>
              r.placeholders[i] == s.placeholders[i]
    ensures forall i :: 0 <= i < |s.placeholders| && s.placeholders[i].key == key ==>
              r.placeholders[i] == s.placeholders[i].(value := value)
    ensures r == s.(placeholders := r.placeholders)
  {
    s.(placeholders := ChangeValue(s.placeholders, key, value))
  }

  /** A key no placeholder has changes nothing. */
  lemma ChangeUnknownKey(s: State, key: string, value: string)
    requires forall i :: 0 <= i < |s.placeholders| ==> s.placeholders[i].key != key
    ensures HandlePlaceholderChange(s, key, value) == s
  {
    var r := HandlePlaceholderChange(s, key, value);
    assert r.placeholders == s.placeholders;
  }

  predicate DistinctPlaceholderKeys(ps: seq<Placeholder>) {
    forall i, j :: 0 <= i < j < |ps| ==> ps[i].key != ps[j].key
  }

  // ---------------------------------------------------------------- preview

  /** `handlePreview`: the modal opens; every other field is kept. */
  function Preview(s: State): (r: State)
    ensures r.showPreview
    ensures r.(showPreview := s.showPreview) == s
  {
    s.(showPreview := true)
  }

  /** `handleBackToEdit`: the modal closes; every other field is kept. */
  function BackToEdit(s: State): (r: State)
    ensures !r.showPreview
    ensures r.(showPreview := s.showPreview) == s
  {
    s.(showPreview := false)
  }

  /** What the preview modal shows. */
  datatype PreviewView = PreviewView(subject: string, content: string, attachment: Option<File>, recipient: string)

  /** What the open modal renders: the working subject and body passed
      through `fillPlaceholders`, the subject first. A failure is the
      exception that rendering throws; with no error boundary above it, it
      unmounts the whole tool. */
  function PreviewOf(s: State): (r: Result<PreviewView, RenderError>)
    requires AlnumKeys(s.placeholders)
    ensures r.Success? <==> NoDigitKeys(s.placeholders)
    ensures r.Success? ==>
              r.value == PreviewView(Fill(s.subject, s.placeholders), Fill(s.content, s.placeholders), s.file, s.recipient)
    ensures r.Failure? ==> FirstDigitKey(s.placeholders, r.error)
  {
    var subject := FillAsWritten(s.subject, s.placeholders);
    if subject.Failure? then Failure(subject.error)
    else Success(PreviewView(subject.value, FillAsWritten(s.content, s.placeholders).value, s.file, s.recipient))
  }

  /** Previewing and going back returns to the same state, and opening the
      modal does not change what it shows. */
  lemma PreviewRoundTrip(s: State)
    requires !s.showPreview
    ensures BackToEdit(Preview(s)) == s
    ensures AlnumKeys(s.placeholders) ==> PreviewOf(Preview(s)) == PreviewOf(s)
  {
  }

  /** Right after a selection every value is empty, so the preview shows
      the template's own subject and body with their tokens intact, unless
      a definition's key is all digits, in which case it cannot render. */
  lemma PreviewAfterSelect(s: State, t: Template)
    requires forall i :: 0 <= i < |DefinitionsOf(t)| ==> AllAlnum(DefinitionsOf(t)[i].key)
    ensures AlnumKeys(SelectTemplate(s, t).placeholders)
    ensures var r := PreviewOf(SelectTemplate(s, t));
            (r.Success? <==> forall i :: 0 <= i < |DefinitionsOf(t)| ==> !DigitsOnly(DefinitionsOf(t)[i].key)) &&
            (r.Success? ==> r.value.subject == t.subject && r.value.content == t.body)
  {
  }

  // ---------------------------------------------------------------- send

  /** Why a send stops. The first three are the checks made before the
      `try`; `Unrenderable` is the exception `fillPlaceholders` throws
      inside it. */
  datatype SendError = NoTemplate | NoRecipient | MissingValues(keys: seq<string>) | Unrenderable(error: RenderError)

  /** The form data posted to `/api/email/send`. */
  datatype SendForm = SendForm(subject: string, content: string, recipient: string, attachment: Option<File>)

  /** An empty-valued placeholder whose token occurs in the unrendered body. */
  predicate Unfilled(p: Placeholder, content: string): (b: bool)
    ensures b <==> p.value == "" && exists i :: OccursAt(content, Token(p.key), i)
  {
    ContainsIffOccurs(content, Token(p.key));
    p.value == "" && Contains(content, Token(p.key))
  }

  /** The `missingPlaceholders` filter: only the body is scanned. The
      result keeps the list's order, holds only unfilled placeholders, and
      holds every one of them. */
  function MissingPlaceholders(ps: seq<Placeholder>, content: string): (r: seq<Placeholder>)
    ensures IsSubsequence(r, ps)
    ensures forall i :: 0 <= i < |r| ==> Unfilled(r[i], content)
    ensures forall i :: 0 <= i < |ps| && Unfilled(ps[i], content) ==> ps[i] in r
  {
    var f := p => Unfilled(p, content);
    FilterElements(ps, f);
    Filter(ps, f)
  }

  function KeysOf(ps: seq<Placeholder>): (ks: seq<string>)
    ensures |ks| == |ps| && forall i :: 0 <= i < |ps| ==> ks[i] == ps[i].key
    decreases |ps|
  {
    if |ps| == 0 then [] else [ps[0].key] + KeysOf(ps[1..])
  }

  /** The missing list is empty exactly when no placeholder is unfilled. */
  lemma MissingEmptyIff(ps: seq<Placeholder>, content: string)
    ensures |MissingPlaceholders(ps, content)| == 0 <==>
            forall i :: 0 <= i < |ps| ==> !Unfilled(ps[i], content)
  {
    var m := MissingPlaceholders(ps, content);
    if |m| > 0 {
      FilterMembership(ps, p => Unfilled(p, content), m[0]);
    }
  }

  /** The checks made before the `try` all pass. */
  predicate Validated(s: State) {
    s.selected.Some? && s.recipient != "" &&
    forall i :: 0 <= i < |s.placeholders| ==> !Unfilled(s.placeholders[i], s.content)
  }

  /** `handleSendEmail` up to the post: the three checks in order, then
      the rendering of the subject and of the body. When all of it
      succeeds, the form carries the rendered subject and body, the
      recipient and the file. */
  function CheckSend(s: State): (r: Result<SendForm, SendError>)
    requires AlnumKeys(s.placeholders)
    ensures r == Failure(NoTemplate) <==> s.selected.None?
    ensures r == Failure(NoRecipient) <==> s.selected.Some? && s.recipient == ""
    ensures (r.Failure? && r.error.MissingValues?) <==>
              s.selected.Some? && s.recipient != "" && !Validated(s)
    ensures r.Failure? && r.error.MissingValues? ==>
              r.error.keys == KeysOf(MissingPlaceholders(s.placeholders, s.content)) && |r.error.keys| > 0
    ensures (r.Failure? && r.error.Unrenderable?) <==> Validated(s) && !NoDigitKeys(s.placeholders)
    ensures r.Failure? && r.error.Unrenderable? ==> FirstDigitKey(s.placeholders, r.error.error)
    ensures r.Success? <==> Validated(s) && NoDigitKeys(s.placeholders)
    ensures r.Success? ==>
              r.value == SendForm(Fill(s.subject, s.placeholders), Fill(s.content, s.placeholders), s.recipient, s.file)
  {
    MissingEmptyIff(s.placeholders, s.content);
    if s.selected.None? then Failure(NoTemplate)
    else if s.recipient == "" then Failure(NoRecipient)
    else
      var missing := MissingPlaceholders(s.placeholders, s.content);
      if |missing| > 0 then Failure(MissingValues(KeysOf(missing)))
      else
        var subject := FillAsWritten(s.subject, s.placeholders);
        if subject.Failure? then Failure(Unrenderable(subject.error))
        else Success(SendForm(subject.value, FillAsWritten(s.content, s.placeholders).value, s.recipient, s.file))
  }

  /** The outcome of one send: the next state, and the form posted if any. */
  datatype SendStep = SendStep(next: State, posted: Option<SendForm>)

  /** The state after a delivered email: the composition is cleared. */
  function Cleared(s: State): State {
    s.(selected := None, content := "", subject := "", recipient := "",
       placeholders := [], file := None, isSending := false)
  }

  /** `handleSendEmail`, with `delivered` standing for `response.ok` of the
      post (a network failure counts as not delivered). A send refused by
      the checks changes nothing; one whose rendering throws posts nothing
      and only ends sending; a delivered one clears the composition; a
      failed one keeps it. Something is posted exactly when every check
      and the rendering succeed. */
  function HandleSend(s: State, delivered: bool): (r: SendStep)
    requires AlnumKeys(s.placeholders)
    ensures r.posted.Some? <==> CheckSend(s).Success?
    ensures CheckSend(s).Failure? && !CheckSend(s).error.Unrenderable? ==> r == SendStep(s, None)
    ensures CheckSend(s).Failure? && CheckSend(s).error.Unrenderable? ==> r == SendStep(s.(isSending := false), None)
    ensures CheckSend(s).Success? ==> r.posted == Some(CheckSend(s).value) && !r.next.isSending
    ensures CheckSend(s).Success? && delivered ==>
              r.next.selected.None? && r.next.content == "" && r.next.subject == "" &&
              r.next.recipient == "" && r.next.placeholders == [] && r.next.file.None? &&
              r.next == Cleared(s)
    ensures CheckSend(s).Success? && !delivered ==> r.next == s.(isSending := false)
  {
    match CheckSend(s)
    case Failure(e) =>
      // Rendering runs after `setIsSending(true)`; `finally` clears the flag.
      if e.Unrenderable? then SendStep(s.(isSending := false), None) else SendStep(s, None)
    case Success(form) =>
      var sending := s.(isSending := true);
      if delivered then SendStep(Cleared(sending), Some(form))
      else SendStep(sending.(isSending := false), Some(form))
  }

  /** A digits-only key keeps every send from being posted, whatever the
      checks and the delivery: the session is left as it was, except that
      sending ends once rendering has been reached. */
  lemma DigitKeyNeverPosts(s: State, delivered: bool, k: int)
    requires AlnumKeys(s.placeholders)
    requires 0 <= k < |s.placeholders| && DigitsOnly(s.placeholders[k].key)
    ensures HandleSend(s, delivered).posted.None?
    ensures HandleSend(s, delivered).next == (if Validated(s) then s.(isSending := false) else s)
  {
    assert !NoDigitKeys(s.placeholders);
  }

  /** A delivered send returns to the initial composition: sending again
      is refused for want of a template. */
  lemma SendAfterDeliveryNeedsTemplate(s: State)
    requires AlnumKeys(s.placeholders) && CheckSend(s).Success?
    ensures CheckSend(HandleSend(s, true).next) == Failure(NoTemplate)
  {
  }

  /** A failed send can be retried with exactly the same form. */
  lemma FailedSendRetries(s: State)
    requires AlnumKeys(s.placeholders) && CheckSend(s).Success? && !s.isSending
    ensures HandleSend(s, false).next == s
    ensures CheckSend(HandleSend(s, false).next) == CheckSend(s)
  {
  }

  // ---------------------------------------------------------------- templates tab

  /** `handleCreateTemplate`: the editor opens empty, in create mode. */
  function CreateTemplate(s: State): (r: State)
    ensures r.templateToEdit.None? && !r.isEditingTemplate && r.activeTab == Templates
    ensures r.(templateToEdit := s.templateToEdit, isEditingTemplate := s.isEditingTemplate, activeTab := s.activeTab) == s
  {
    s.(templateToEdit := None, isEditingTemplate := false, activeTab := Templates)
  }

  /** `handleEditTemplate`: the list of templates to edit is opened. */
  function EditTemplate(s: State): (r: State)
    ensures r.showTemplateSelector
    ensures r.(showTemplateSelector := s.showTemplateSelector) == s
  {
    s.(showTemplateSelector := true)
  }

  /** `handleSelectTemplateToEdit`: the editor opens on `t`, in edit mode. */
  function SelectTemplateToEdit(s: State, t: Template): (r: State)
    ensures r.templateToEdit == Some(t) && r.isEditingTemplate && r.activeTab == Templates && !r.showTemplateSelector
    ensures r.(templateToEdit := s.templateToEdit, isEditingTemplate := s.isEditingTemplate,
               activeTab := s.activeTab, showTemplateSelector := s.showTemplateSelector) == s
  {
    s.(templateToEdit := Some(t), isEditingTemplate := true, activeTab := Templates, showTemplateSelector := false)
  }

  /** `handleTemplateSaved`: back to composing; the working template,
      subject and body are replaced only when editing the selected
      template itself (same id). Placeholder values are never reset. */
  function TemplateSaved(s: State, t: Template): (r: State)
    ensures r.activeTab == Compose && r.placeholders == s.placeholders && r.recipient == s.recipient
    ensures s.isEditingTemplate && s.selected.Some? && s.selected.value.id == t.id ==>
              r == s.(activeTab := Compose, selected := Some(t), content := t.body, subject := t.subject)
    ensures !(s.isEditingTemplate && s.selected.Some? && s.selected.value.id == t.id) ==>
              r == s.(activeTab := Compose)
  {
    var s' := s.(activeTab := Compose);
    if s.isEditingTemplate && s.selected.Some? && s.selected.value.id == t.id then
      s'.(selected := Some(t), content := t.body, subject := t.subject)
    else s'
  }

  /** The templates-tab handlers leave the composition alone: what the
      preview shows and what a send checks and posts are as before. */
  lemma TemplatesTabKeepsComposition(s: State, t: Template)
    requires AlnumKeys(s.placeholders)
    ensures CheckSend(CreateTemplate(s)) == CheckSend(s) && PreviewOf(CreateTemplate(s)) == PreviewOf(s)
    ensures CheckSend(EditTemplate(s)) == CheckSend(s) && PreviewOf(EditTemplate(s)) == PreviewOf(s)
    ensures CheckSend(SelectTemplateToEdit(s, t)) == CheckSend(s) && PreviewOf(SelectTemplateToEdit(s, t)) == PreviewOf(s)
  {
  }

  /** Saving a template other than the one being composed leaves the
      composition as it was. */
  lemma OtherSaveKeepsComposition(s: State, t: Template)
    requires AlnumKeys(s.placeholders)
    requires !(s.isEditingTemplate && s.selected.Some? && s.selected.value.id == t.id)
    ensures CheckSend(TemplateSaved(s, t)) == CheckSend(s) && PreviewOf(TemplateSaved(s, t)) == PreviewOf(s)
  {
  }

  /** Saving the selected template itself: the next send is checked against
      the saved body and posts the saved subject and body rendered with the
      values already typed in. The values are not re-seeded, so a token the
      save added without a value never blocks the send. */
  lemma SelfSaveSendsSaved(s: State, t: Template)
    requires AlnumKeys(s.placeholders)
    requires s.isEditingTemplate && s.selected.Some? && s.selected.value.id == t.id
    ensures CheckSend(TemplateSaved(s, t)).Success? <==>
            s.recipient != "" && NoDigitKeys(s.placeholders) &&
            forall i :: 0 <= i < |s.placeholders| ==> !Unfilled(s.placeholders[i], t.body)
    ensures var r := CheckSend(TemplateSaved(s, t));
            r.Success? ==> r.value.subject == Fill(t.subject, s.placeholders) &&
                           r.value.content == Fill(t.body, s.placeholders) && r.value.recipient == s.recipient
  {
    var s' := TemplateSaved(s, t);
    assert s'.selected.Some? && s'.content == t.body && s'.subject == t.subject;
  }

  // ---------------------------------------------------------------- the form

  /** After a selection of a template with distinct keys, field `i` of the
      form belongs to definition `i`: its caption is the definition's label
      (the key when the label is empty) and its input type the definition's
      type, and it starts empty. */
  lemma FormAfterSelect(s: State, t: Template, i: int)
    requires forall a, b :: 0 <= a < b < |DefinitionsOf(t)| ==> DefinitionsOf(t)[a].key != DefinitionsOf(t)[b].key
    requires 0 <= i < |DefinitionsOf(t)|
    ensures var defs := DefinitionsOf(t);
            var fs := Fields(SelectTemplate(s, t).placeholders, defs);
            |fs| == |defs| &&
            fs[i] == Field(defs[i].key, if defs[i].labelText == "" then defs[i].key else defs[i].labelText,
                           defs[i].ptype, "")
  {
    var defs := DefinitionsOf(t);
    var ps := SelectTemplate(s, t).placeholders;
    var d := FindDefinition(defs, ps[i].key);
    assert d == Some(defs[i]) by {
      var j :| 0 <= j < |defs| && defs[j] == d.value && defs[j].key == ps[i].key &&
               forall k :: 0 <= k < j ==> defs[k].key != ps[i].key;
      assert j == i;
    }
  }

  /** Typing into field `i` and passing the reported change on updates
      placeholder `i` alone when keys are distinct. */
  lemma FieldEditUpdatesOnlyItsPlaceholder(s: State, i: int, value: string)
    requires DistinctPlaceholderKeys(s.placeholders)
    requires 0 <= i < |s.placeholders|
    ensures var change := OnFieldEdit(s.placeholders, DefinitionsOf(s.selected.GetOr(Template("", "", "", "", None))), i, value);
            HandlePlaceholderChange(s, change.0, change.1).placeholders ==
              s.placeholders[i := s.placeholders[i].(value := value)]
  {
  }

  /** Selecting a template with distinct definition keys yields distinct
      placeholder keys. */
  lemma SeedDistinct(s: State, t: Template)
    requires forall a, b :: 0 <= a < b < |DefinitionsOf(t)| ==> DefinitionsOf(t)[a].key != DefinitionsOf(t)[b].key
    ensures DistinctPlaceholderKeys(SelectTemplate(s, t).placeholders)
  {
  }

  // ---------------------------------------------------------------- scenarios

  const NameDef := PlaceholderDefinition("name", "Name", Text)
  const RoleDef := PlaceholderDefinition("role", "Role", Text)

  /** A session on template `t` with a recipient and `name` filled in. */
  function Composed(t: Template): State {
    HandlePlaceholderChange(SelectTemplate(Initial, t).(recipient := "hr@example.com"), "name", "Ann")
  }

  /** The placeholders of `Composed(t)` for a template defining `name`
      and `role`. */
  lemma ComposedPlaceholders(t: Template)
    requires t.placeholders == Some([NameDef, RoleDef])
    ensures Composed(t).placeholders == [Placeholder("name", "Ann", Text), Placeholder("role", "", Text)]
    ensures Composed(t).content == t.body
  {
    var ps := Composed(t).placeholders;
    assert |ps| == 2;
    assert ps[0] == Placeholder("name", "Ann", Text);
    assert ps[1] == Placeholder("role", "", Text);
  }

  /** Both scenario keys are alphanumeric and not all digits. */
  lemma ScenarioKeys()
    ensures AllAlnum(NameDef.key) && AllAlnum(RoleDef.key)
    ensures !DigitsOnly(NameDef.key) && !DigitsOnly(RoleDef.key)
  {
    assert NameDef.key == "name" && RoleDef.key == "role";
    assert !IsDigit("name"[0]) && !IsDigit("role"[0]);
    assert forall i :: 0 <= i < 4 ==> IsAlnum("name"[i]) && IsAlnum("role"[i]);
  }

  /** The scenario session holds only the two scenario keys. */
  lemma ComposedKeys(t: Template)
    requires t.placeholders == Some([NameDef, RoleDef])
    ensures AlnumKeys(Composed(t).placeholders) && NoDigitKeys(Composed(t).placeholders)
  {
    ComposedPlaceholders(t);
    ScenarioKeys();
  }

  /** Of `name` (filled) and `role` (empty, its token in the body) only
      `role` is missing. */
  lemma MissingRoleOnly(name: Placeholder, role: Placeholder, body: string)
    requires !Unfilled(name, body) && Unfilled(role, body)
    ensures MissingPlaceholders([name, role], body) == [role]
  {
    var p := (q: Placeholder) => Unfilled(q, body);
    assert [name, role][1..] == [role];
    assert Filter([role], p) == [role];
    assert Filter([name, role], p) == [role];
  }

  /** `{role}` left empty in the body blocks the send, naming `role`. */
  lemma BodyTokenBlocksSend(t: Template)
    requires t.placeholders == Some([NameDef, RoleDef])
    requires t.body == "<p>Dear {name}, re {role}</p>"
    ensures AlnumKeys(Composed(t).placeholders) && CheckSend(Composed(t)) == Failure(MissingValues(["role"]))
  {
    ComposedPlaceholders(t);
    ComposedKeys(t);
    var s := Composed(t);
    var name := Placeholder("name", "Ann", Text);
    var role := Placeholder("role", "", Text);
    assert t.body == "<p>Dear {name}, re " + "{role}</p>";
    assert StartsWith("{role}</p>", "{role}");
    ContainsRight("<p>Dear {name}, re ", "{role}</p>", "{role}");
    RoleToken();
    assert Unfilled(role, s.content);
    MissingRoleOnly(name, role, s.content);
    assert KeysOf([role]) == ["role"];
  }

  lemma RoleToken()
    ensures Token("role") == "{role}"
  {
  }

  lemma BodyLacksRoleToken(body: string)
    requires body == "<p>Dear colleague</p>"
    ensures !Contains(body, Token("role"))
  {
    RoleToken();
    assert '{' !in body;
    MissingHeadNotContains(body, "{role}");
  }

  lemma NoUnfilledPasses(s: State)
    requires s.selected.Some? && s.recipient != ""
    requires |s.placeholders| == 2 && AlnumKeys(s.placeholders) && NoDigitKeys(s.placeholders)
    requires s.placeholders[0].value != "" && !Contains(s.content, Token(s.placeholders[1].key))
    ensures CheckSend(s).Success?
  {
    assert !Unfilled(s.placeholders[0], s.content);
    assert !Unfilled(s.placeholders[1], s.content);
  }

  /** `{role}` left empty blocks nothing when the body lacks its token,
      whatever the subject holds: only the body is scanned. */
  lemma SubjectOnlyTokenDoesNotBlock(t: Template)
    requires t.placeholders == Some([NameDef, RoleDef])
    requires t.body == "<p>Dear colleague</p>"
    ensures AlnumKeys(Composed(t).placeholders) && CheckSend(Composed(t)).Success?
  {
    ComposedPlaceholders(t);
    ComposedKeys(t);
    var s := Composed(t);
    BodyLacksRoleToken(s.content);
    NoUnfilledPasses(s);
  }
}
