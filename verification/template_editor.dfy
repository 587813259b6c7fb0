/** `components/template-manager.tsx`: the form that creates or edits a
    template. The Tiptap editor is reduced to the HTML it holds (`None`
    before it has been created); the save request and its reply are
    values, so `fetch` itself is not modelled. */
module TemplateEditor {
  import opened Wrappers
  import opened Text
  import opened TemplateModel
  import opened Renderer
  import PlaceholderManager

  /** The editor's content when no template is given. */
  const DefaultBody: string := "<p>Enter your template content here...</p>"

  /** The HTML of an editor whose document is one empty paragraph. */
  const EmptyParagraph: string := "<p></p>"

  const CollectionUrl: string := "/api/templates"

  datatype Form = Form(
    name: string,
    subject: string,
    placeholders: seq<PlaceholderDefinition>,
    html: Option<string>,
    isSaving: bool)

  /** The first render: the `useState` initialisers and the editor's
      initial content. `template?.name || ""` is the name itself, and an
      empty body falls back to the default content. */
  function Mount(template: Option<Template>): (r: Form)
    ensures !r.isSaving && r.html.Some?
    ensures template.None? ==> r.name == "" && r.subject == "" && r.placeholders == [] && r.html == Some(DefaultBody)
    ensures template.Some? ==>
              r.name == template.value.name && r.subject == template.value.subject &&
              r.placeholders == DefinitionsOf(template.value) &&
              r.html == Some(if template.value.body == "" then DefaultBody else template.value.body)
  {
    match template
    case None => Form("", "", [], Some(DefaultBody), false)
    case Some(t) => Form(t.name, t.subject, DefinitionsOf(t), Some(if t.body == "" then DefaultBody else t.body), false)
  }

  /** The effect run whenever the template prop changes: the fields take
      the template's values, or are blanked when there is none; the
      editor's content is replaced only once the editor exists. */
  function Sync(f: Form, template: Option<Template>): (r: Form)
    ensures r.isSaving == f.isSaving && r.html.Some? == f.html.Some?
    ensures template.None? ==> r.name == "" && r.subject == "" && r.placeholders == [] &&
                               (f.html.Some? ==> r.html == Some(DefaultBody))
    ensures template.Some? ==>
              r.name == template.value.name && r.subject == template.value.subject &&
              r.placeholders == DefinitionsOf(template.value) &&
              (f.html.Some? ==> r.html == Some(template.value.body))
  {
    match template
    case None => f.(name := "", subject := "", placeholders := [], html := if f.html.Some? then Some(DefaultBody) else None)
    case Some(t) => f.(name := t.name, subject := t.subject, placeholders := DefinitionsOf(t),
                       html := if f.html.Some? then Some(t.body) else None)
  }

  /** The effect forgets the form it ran on: only the prop, whether the
      editor exists and the saving flag matter. */
  lemma SyncForgetsForm(f: Form, g: Form, template: Option<Template>)
    requires f.html.Some? == g.html.Some? && f.isSaving == g.isSaving
    ensures Sync(f, template) == Sync(g, template)
  {
  }

  /** Running the effect again changes nothing. */
  lemma SyncIdempotent(f: Form, template: Option<Template>)
    ensures Sync(Sync(f, template), template) == Sync(f, template)
  {
  }

  /** After mounting, the effect only differs from the first render for a
      template whose body is empty: the effect writes that empty body. */
  lemma SyncAfterMount(template: Option<Template>)
    ensures template.None? || template.value.body != "" <==> Sync(Mount(template), template) == Mount(template)
  {
    if template.Some? && template.value.body == "" {
      assert Sync(Mount(template), template).html == Some("");
      assert DefaultBody != "";
    }
  }

  // ------------------------------------------------------------ saving

  /** Why `handleSaveTemplate` stops before sending anything. */
  datatype SaveError = NameRequired | SubjectRequired | ContentRequired

  /** The editor holds content: it exists, and its HTML is neither empty
      nor one empty paragraph. */
  predicate HasContent(html: Option<string>) {
    html.Some? && html.value != "" && html.value != EmptyParagraph
  }

  /** The three checks of `handleSaveTemplate`, in order; on success, the
      editor's HTML. Name and subject are checked after trimming. */
  function ValidateSave(f: Form): (r: Result<string, SaveError>)
    ensures r == Failure(NameRequired) <==> Trim(f.name) == ""
    ensures r == Failure(SubjectRequired) <==> Trim(f.name) != "" && Trim(f.subject) == ""
    ensures r == Failure(ContentRequired) <==> Trim(f.name) != "" && Trim(f.subject) != "" && !HasContent(f.html)
    ensures r.Success? ==> f.html == Some(r.value) && HasContent(f.html)
  {
    if Trim(f.name) == "" then Failure(NameRequired)
    else if Trim(f.subject) == "" then Failure(SubjectRequired)
    else if !HasContent(f.html) then Failure(ContentRequired)
    else Success(f.html.value)
  }

  /** A form passes validation exactly when none of the three checks fails. */
  lemma ValidateSaveIff(f: Form)
    ensures ValidateSave(f).Success? <==> Trim(f.name) != "" && Trim(f.subject) != "" && HasContent(f.html)
  {
  }

  /** The JSON body of the save request. */
  datatype SavePayload = SavePayload(name: string, subject: string, body: string, placeholders: seq<PlaceholderDefinition>)

  datatype SaveRequest = SaveRequest(verb: string, url: string, payload: SavePayload)

  /** The request `handleSaveTemplate` sends: PUT exactly when editing,
      the item URL exactly when editing a given template, and the form's
      fields as typed (not trimmed). */
  function RequestFor(f: Form, template: Option<Template>, isEditing: bool): (r: Result<SaveRequest, SaveError>)
    ensures r.Success? <==> ValidateSave(f).Success?
    ensures r.Failure? ==> r.error == ValidateSave(f).error
    ensures r.Success? ==> r.value.verb == (if isEditing then "PUT" else "POST")
    ensures r.Success? && isEditing && template.Some? ==> r.value.url == CollectionUrl + "/" + template.value.id
    ensures r.Success? && !(isEditing && template.Some?) ==> r.value.url == CollectionUrl
    ensures r.Success? ==> r.value.payload == SavePayload(f.name, f.subject, f.html.value, f.placeholders)
  {
    match ValidateSave(f)
    case Failure(e) => Failure(e)
    case Success(html) =>
      var verb := if isEditing then "PUT" else "POST";
      var url := if isEditing && template.Some? then CollectionUrl + "/" + template.value.id else CollectionUrl;
      Success(SaveRequest(verb, url, SavePayload(f.name, f.subject, html, f.placeholders)))
  }

  /** The collection URL is used exactly when there is no template to
      address: the item URL is always longer. */
  lemma CollectionUrlIff(f: Form, template: Option<Template>, isEditing: bool)
    requires RequestFor(f, template, isEditing).Success?
    ensures RequestFor(f, template, isEditing).value.url == CollectionUrl <==> !(isEditing && template.Some?)
  {
    var r := RequestFor(f, template, isEditing).value;
    if isEditing && template.Some? {
      assert |r.url| > |CollectionUrl|;
    }
  }

  /** Editing without a template still sends PUT, to the collection URL. */
  lemma EditingWithoutTemplate(f: Form)
    requires ValidateSave(f).Success?
    ensures var r := RequestFor(f, None, true);
            r.Success? && r.value.verb == "PUT" && r.value.url == CollectionUrl
  {
  }

  /** The result of one save: the form afterwards, the request sent if
      any, and the template handed to `onSave` if any. */
  datatype SaveOutcome = SaveOutcome(form: Form, request: Option<SaveRequest>, saved: Option<Template>)

  /** `handleSaveTemplate`. `reply` is the parsed body of an ok response,
      `None` when the response was not ok or the request threw. */
  function HandleSave(f: Form, template: Option<Template>, isEditing: bool, reply: Option<Template>): (r: SaveOutcome)
    ensures ValidateSave(f).Failure? ==> r == SaveOutcome(f, None, None)
    ensures ValidateSave(f).Success? ==>
              r.request == Some(RequestFor(f, template, isEditing).value) &&
              r.form == f.(isSaving := false) && r.saved == reply
    ensures r.saved.Some? ==> r.request.Some? && reply == r.saved
    ensures !f.isSaving ==> !r.form.isSaving
  {
    match RequestFor(f, template, isEditing)
    case Failure(_) => SaveOutcome(f, None, None)
    case Success(req) => SaveOutcome(f.(isSaving := false), Some(req), reply)
  }

  // ----------------------------------------------------- placeholders

  /** `insertPlaceholder`: the editor receives exactly `{key}` at the
      cursor, which lies at `at` or at the end when `at` is past it. */
  function InsertPlaceholder(f: Form, at: nat, d: PlaceholderDefinition): (r: Form)
    ensures f.html.None? ==> r == f
    ensures f.html.Some? ==>
              var k := if at <= |f.html.value| then at else |f.html.value|;
              r == f.(html := Some(f.html.value[..k] + Token(d.key) + f.html.value[k..]))
  {
    match f.html
    case None => f
    case Some(h) =>
      var k := if at <= |h| then at else |h|;
      f.(html := Some(h[..k] + Token(d.key) + h[k..]))
  }

  /** Inserting a placeholder and rendering it with a value gives the
      value at the cursor, when the editor held no copy of that token. */
  lemma InsertThenFill(f: Form, at: nat, d: PlaceholderDefinition, value: string)
    requires f.html.Some? && at <= |f.html.value|
    requires '{' !in d.key && value != ""
    requires !Contains(f.html.value[..at], Token(d.key)) && !Contains(f.html.value[at..], Token(d.key))
    ensures Fill(InsertPlaceholder(f, at, d).html.value, [Placeholder(d.key, value, d.ptype)]) ==
            f.html.value[..at] + value + f.html.value[at..]
  {
    FillReplacesToken(f.html.value[..at], f.html.value[at..], Placeholder(d.key, value, d.ptype));
  }

  /** The embedded placeholder manager's add action; its `onChange` is
      `setPlaceholders`. */
  function AddDefinition(f: Form, draft: PlaceholderManager.Draft): (r: Form)
    ensures r == f.(placeholders := r.placeholders)
    ensures PlaceholderManager.DistinctKeys(f.placeholders) ==> PlaceholderManager.DistinctKeys(r.placeholders)
    ensures r.placeholders == f.placeholders || r.placeholders == f.placeholders +
              [PlaceholderDefinition(PlaceholderManager.SanitizeKey(draft.key), draft.labelText, draft.ptype)]
  {
    f.(placeholders := PlaceholderManager.AddPlaceholder(PlaceholderManager.Editor(f.placeholders, draft)).defs)
  }
}
