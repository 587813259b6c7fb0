/** How the client components and the API routes fit together: what the
    browser posts is what the routes read, so a check passed on one side
    can be carried to the other. */
module Flows {
  import opened Wrappers
  import opened Text
  import opened TemplateModel
  import opened Renderer
  import PlaceholderManager
  import Session
  import TemplateEditor
  import TemplatesApi
  import SendApi

  // ------------------------------------------------------------ sending

  /** The FormData `handleSendEmail` posts, as formidable parses it; the
      browser's file is stored by formidable at `path`. */
  function ParsedSendForm(form: Session.SendForm, path: string): (p: SendApi.ParsedForm)
    ensures SendApi.FirstOr(p.recipient) == form.recipient
    ensures SendApi.FirstOr(p.subject) == form.subject && SendApi.FirstOr(p.content) == form.content
    ensures (|p.attachment| > 0) == form.attachment.Some?
  {
    var files := match form.attachment
      case None => []
      case Some(f) => [SendApi.UploadedFile(path, Some(f.name))];
    SendApi.ParsedForm([form.subject], [form.content], [form.recipient], files)
  }

  /** A send the client lets through is never refused by the route for a
      missing recipient; without an attachment, a signed-in user's email
      reaches Gmail as the rendered subject and body. */
  lemma ClientGateSatisfiesRoute(s: Session.State, token: string, path: string, env: SendApi.Env, encode: string -> string)
    requires AlnumKeys(s.placeholders) && Session.CheckSend(s).Success? && token != ""
    ensures var form := Session.CheckSend(s).value;
            var r := SendApi.Handle(SendApi.Request("POST", Some(token), Some(ParsedSendForm(form, path))), env, encode);
            r.response.status != 400 &&
            (s.file.None? ==>
               r.raw == Some(SendApi.UrlSafe(encode(SendApi.PlainMessage(
                 s.recipient, Fill(s.subject, s.placeholders), Fill(s.content, s.placeholders))))))
  {
    var form := Session.CheckSend(s).value;
    var p := ParsedSendForm(form, path);
    assert SendApi.FirstOr(p.recipient) == s.recipient != "";
  }

  // ------------------------------------------------------------- saving

  /** The JSON body of a save request as the templates route reads it. */
  function PostBodyOf(p: TemplateEditor.SavePayload): (b: TemplatesApi.PostBody)
    ensures b.placeholders.Some? && |b.placeholders.value| == |p.placeholders|
    ensures forall i :: 0 <= i < |p.placeholders| ==> b.placeholders.value[i] == ToRaw(p.placeholders[i])
  {
    TemplatesApi.PostBody(Some(p.name), Some(p.subject), Some(p.body),
                          Some(seq(|p.placeholders|, i requires 0 <= i < |p.placeholders| => ToRaw(p.placeholders[i]))))
  }

  /** A definition list the schema refuses makes a create fail with 500,
      even when the client's own checks all pass. */
  lemma InvalidDefinitionFailsCreate(f: TemplateEditor.Form, email: string, env: TemplatesApi.Env)
    requires TemplateEditor.ValidateSave(f).Success?
    requires exists i :: 0 <= i < |f.placeholders| && !ValidDefinition(f.placeholders[i])
    requires env.connected && env.usersUp && email != "" && email in env.users
    ensures var req := TemplateEditor.RequestFor(f, None, false).value;
            TemplatesApi.Handle(TemplatesApi.Request(req.verb, Some(email), PostBodyOf(req.payload)), env) ==
            TemplatesApi.Fail(500, "Failed to create template", env.store)
  {
    var req := TemplateEditor.RequestFor(f, None, false).value;
    var b := PostBodyOf(req.payload);
    var i :| 0 <= i < |f.placeholders| && !ValidDefinition(f.placeholders[i]);
    CastRejectsInvalid(f.placeholders[i]);
    assert b.placeholders.value[i] == ToRaw(f.placeholders[i]);
    assert !CastPlaceholders(b.placeholders.value).Success?;
    assert Trim("") == "";
    assert TemplatesApi.HasRequiredFields(b);
  }

  /** The key `!!!` is stored by the placeholder manager with an empty
      key, after which the template can no longer be created. */
  lemma PunctuationKeyBlocksCreate(f: TemplateEditor.Form, email: string, env: TemplatesApi.Env)
    requires f.placeholders == [] && TemplateEditor.ValidateSave(f).Success?
    requires env.connected && env.usersUp && email != "" && email in env.users
    ensures var g := TemplateEditor.AddDefinition(f, PlaceholderManager.Draft("!!!", "Name", Text));
            var req := TemplateEditor.RequestFor(g, None, false).value;
            g.placeholders == [PlaceholderDefinition("", "Name", Text)] &&
            TemplatesApi.Handle(TemplatesApi.Request(req.verb, Some(email), PostBodyOf(req.payload)), env).response.status == 500
  {
    PlaceholderManager.PunctuationKeyAccepted();
    var g := TemplateEditor.AddDefinition(f, PlaceholderManager.Draft("!!!", "Name", Text));
    assert TemplateEditor.ValidateSave(g) == TemplateEditor.ValidateSave(f);
    assert !ValidDefinition(g.placeholders[0]);
    InvalidDefinitionFailsCreate(g, email, env);
  }

  /** With the corrected add, every definition the editor holds is one
      the schema accepts, whatever drafts were added. */
  lemma CheckedAddKeepsCreatable(f: TemplateEditor.Form, draft: PlaceholderManager.Draft)
    requires PlaceholderManager.AllValid(f.placeholders)
    ensures var e := PlaceholderManager.AddPlaceholderChecked(PlaceholderManager.Editor(f.placeholders, draft));
            PlaceholderManager.AllValid(e.defs)
  {
  }

  // ---------------------------------------------------------- reopening

  /** The client template a route reply describes. */
  function FromJson(j: TemplatesApi.TemplateJson): (t: Template)
    ensures t.id == j.id && t.name == j.name && t.subject == j.subject && t.body == j.body &&
            DefinitionsOf(t) == j.placeholders
  {
    Template(j.id, j.name, j.subject, j.body, Some(j.placeholders))
  }

  /** A template the route created opens in the editor ready to save
      again, unless its body is exactly one empty paragraph; saving it
      from the edit view addresses that very document. */
  lemma CreatedTemplateReopens(post: TemplatesApi.Request, env: TemplatesApi.Env)
    requires TemplatesApi.Handle(post, env).response.status == 201
    requires TemplatesApi.Handle(post, env).response.reply.template.body != TemplateEditor.EmptyParagraph
    ensures var j := TemplatesApi.Handle(post, env).response.reply.template;
            var f := TemplateEditor.Mount(Some(FromJson(j)));
            var r := TemplateEditor.RequestFor(f, Some(FromJson(j)), true);
            r.Success? && r.value.verb == "PUT" && r.value.url == TemplateEditor.CollectionUrl + "/" + j.id
  {
    var r := TemplatesApi.Handle(post, env);
    TemplatesApi.CreatedIsTrimmed(post, env);
    var d := r.store[|env.store|];
    assert r.response.reply.template == TemplatesApi.ToJson(d);
    assert ValidStored(d);
  }
}
