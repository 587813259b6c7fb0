# InstaSend in Dafny

InstaSend is a Next.js tool for sending referral emails. A signed-in user:

1. keeps a library of email templates, each with a name, a subject, an HTML body and placeholder definitions such as `{name}`;
2. picks a template and fills in its placeholder values;
3. previews the rendered email;
4. sends it, optionally with a résumé attached, through the Gmail API.

This project models the core of the system as pure functions on immutable values:

- the composition session of the referral tool;
- the renderer that substitutes placeholder values;
- the placeholder editor and the placeholder form;
- the attachment picker;
- the template editor and the template list;
- the template schema;
- the `/api/templates` collection route;
- the `/api/email/send` route, which builds an RFC 5322-style message with LF line ends (RFC 2046 multipart/mixed when there is an attachment) and encodes it with the URL-safe base64 alphabet of section 5 of RFC 4648.

Browser events, fetches, the database, the session lookup, the clock and the Gmail call become parameters of these functions.

Modules:

- `Wrappers`, `Seqs`, `Text` and `ObjectIds` are support modules. They hold:
  - options and results;
  - filtering;
  - JavaScript string operations (`includes`, global `replace`, `trim`, `toLowerCase`, `join`, `split`);
  - the 24-digit hexadecimal form of MongoDB ObjectIds.
- `TemplateModel` holds the records and the mongoose schema validation.
- `Renderer`, `Session`, `PlaceholderForm`, `PlaceholderManager`, `FileUpload`, `TemplateEditor` and `TemplateList` model the client components.
- `TemplatesApi` and `SendApi` model the two API routes.
- `Flows` connects client and server: it shows that what one side checks holds on the other.

Three behaviours of the code are worth stating up front:

- Substitution is sequential: a value that holds a later placeholder's token is expanded again (`Renderer.SequentialNotSimultaneous`).
- Rendering twice is not the same as rendering once, even when no value contains a token (`Renderer.RenderNotIdempotent`). A replacement can complete a token out of the surrounding text.
- The send check scans only the unrendered body: a subject-only token never blocks a send (`Session.SubjectOnlyTokenDoesNotBlock`).

The composition session renders with the renderer as written, which compiles each token into a regular expression. A digits-only key therefore makes the preview and the send fail (see "## Findings").

## Model

| member | source | states |
|---|---|---|
| TemplateModel.CastType | models/Template.ts:6 | an absent type defaults to `text`; a present one is accepted exactly when it is one of the three enum names, and is then that name |
| TemplateModel.CastPlaceholder | models/Template.ts:3-7 | a placeholder subdocument casts exactly when key and label are non-empty strings and the type is valid; the result is a valid definition carrying the same key and label |
| TemplateModel.CastPlaceholders | models/Template.ts:14 | the array casts exactly when every element does, keeping length and order element by element |
| TemplateModel.CastToRaw | models/Template.ts:3-7 | a valid definition serialised into a request body casts back to itself |
| TemplateModel.CastRejectsInvalid | models/Template.ts:4-5 | a definition with an empty key or label is refused by the schema |
| TemplateModel.BuildDocument | models/Template.ts:9-18 | a document saves exactly when name, subject and body are non-empty and the placeholders cast; the saved document satisfies the schema, keeps every given field and gets both timestamps set to the current time |
| ObjectIds.FromToHex | pages/api/templates/index.ts:29 | reading back the fixed-width hexadecimal text of a number gives the number |
| ObjectIds.IdString | pages/api/templates/index.ts:29 | an id string is 24 hexadecimal digits that read back to the ObjectId |
| ObjectIds.IdStringInjective | pages/api/templates/index.ts:29 | different ObjectIds have different id strings |
| Renderer.Token | components/email-referral-tool.tsx:72 | the token of a key is the key between one opening and one closing brace |
| Renderer.StepUnchanged | components/email-referral-tool.tsx:72 | one replacement leaves the text as it is when the value is empty or the token does not occur |
| Renderer.Fill | components/email-referral-tool.tsx:69-75 | rendering leaves the text unchanged when every value is empty or when no key's token occurs in it |
| Renderer.FillSnoc | components/email-referral-tool.tsx:71-73 | placeholders are applied in list order, and the last one is applied to the result of all earlier ones |
| Renderer.FillSingleToken | components/email-referral-tool.tsx:72 | a lone token renders to its value, or stays the token when the value is empty |
| Renderer.FillReplacesToken | components/email-referral-tool.tsx:72 | a token between two token-free pieces of text is replaced by the value, and the surrounding text is kept |
| Renderer.SequentialNotSimultaneous | components/email-referral-tool.tsx:71-73 | `{a}` with `a = {b}` then `b = x` renders to `x`: a later placeholder expands the value of an earlier one |
| Renderer.RenderNotIdempotent | components/email-referral-tool.tsx:69-75 | `{a{ab}}` with `ab = b` renders to `{ab}`, and rendering that again gives `b` |
| Renderer.CompileToken | components/email-referral-tool.tsx:72 | the pattern for an alphanumeric key compiles exactly when the key is not all digits; otherwise it is an invalid-regexp error naming the token |
| Renderer.FillAsWritten | components/email-referral-tool.tsx:69-75 | the renderer as written succeeds exactly when no key is all digits, and then agrees with literal replacement; a failure names the first digits-only key of the list |
| Renderer.DigitKeyBreaksRendering | components/email-referral-tool.tsx:72 | the key `123` makes rendering `{123}` throw, where literal replacement gives the value |
| Session.Seed | components/email-referral-tool.tsx:55-62 | one runtime placeholder per definition, with the same key and type and an empty value |
| Session.SelectTemplate | components/email-referral-tool.tsx:49-63 | selecting makes the template the working copy, resets every placeholder value to empty whatever was there before, and changes nothing else |
| Session.ChangeValue | components/email-referral-tool.tsx:66 | every placeholder with the given key takes the new value; the others and the order are kept |
| Session.HandlePlaceholderChange | components/email-referral-tool.tsx:65-67 | a value edit touches only the placeholders with that key and no other part of the session |
| Session.ChangeUnknownKey | components/email-referral-tool.tsx:66 | an edit for a key that no placeholder has changes nothing |
| Session.Preview | components/email-referral-tool.tsx:77-79 | opening the preview sets the preview flag, and every other field is as before |
| Session.BackToEdit | components/email-referral-tool.tsx:81-83 | going back clears the preview flag, and every other field is as before |
| Session.PreviewOf | components/email-referral-tool.tsx:256-260 | the preview shows the subject and body rendered with the current values, the file and the recipient; it fails exactly when some key is all digits, and the failure names the first such key |
| Session.PreviewRoundTrip | components/email-referral-tool.tsx:77-83 | preview then back returns to the same session, and opening the preview does not change what it shows; the way back is reachable only when the preview renders, that is with no digits-only key |
| Session.PreviewAfterSelect | components/email-referral-tool.tsx:49-52 | right after a selection with alphanumeric keys, the preview renders exactly when no key is all digits, and then shows the template's own subject and body, since every value is empty |
| Session.Unfilled | components/email-referral-tool.tsx:124 | a placeholder is unfilled exactly when its value is empty and its token occurs somewhere in the unrendered body |
| Session.MissingPlaceholders | components/email-referral-tool.tsx:124 | the missing list keeps the placeholders' order, holds only unfilled placeholders, and holds every unfilled one |
| Session.MissingEmptyIff | components/email-referral-tool.tsx:124-125 | the missing list is empty exactly when no placeholder is empty with its token in the body |
| Session.CheckSend | components/email-referral-tool.tsx:113-134 | the checks run in order: no template, no recipient, missing values, then rendering of subject and body. A missing-values error lists the offending keys in order, and at least one. Rendering fails exactly when the earlier checks pass and some key is all digits, naming the first such key. A send passes exactly when all of it passes, and then posts the rendered subject and body, the recipient and the file |
| Session.HandleSend | components/email-referral-tool.tsx:113-165 | a send refused by the checks posts nothing and changes nothing; one whose rendering throws posts nothing and leaves the sending flag cleared; a delivered one clears template, body, subject, recipient, placeholders and file; a failed one keeps everything; sending ends in every case |
| Session.DigitKeyNeverPosts | components/email-referral-tool.tsx:130-165 | with a digits-only key no send is ever posted, whether or not it would be delivered |
| Session.SendAfterDeliveryNeedsTemplate | components/email-referral-tool.tsx:154-160 | after a delivered send, sending again is refused for want of a template |
| Session.FailedSendRetries | components/email-referral-tool.tsx:161-165 | after a failed send the session is as before and the same form can be sent again |
| Session.CreateTemplate | components/email-referral-tool.tsx:85-89 | the editor opens on no template, in create mode, on the templates tab, and every other field is as before |
| Session.EditTemplate | components/email-referral-tool.tsx:91-93 | the template chooser opens, and every other field is as before |
| Session.SelectTemplateToEdit | components/email-referral-tool.tsx:95-100 | the editor opens on the chosen template in edit mode on the templates tab, the chooser closes, and every other field is as before |
| Session.TemplateSaved | components/email-referral-tool.tsx:102-110 | after a save the compose tab returns; the working template, subject and body are replaced only when the selected template itself (same id) was edited; placeholder values and recipient are never touched |
| Session.TemplatesTabKeepsComposition | components/email-referral-tool.tsx:85-100 | creating, choosing or opening a template for editing changes neither what the preview shows nor what a send checks and posts |
| Session.OtherSaveKeepsComposition | components/email-referral-tool.tsx:102-110 | saving a template other than the selected one being edited leaves preview and send as they were |
| Session.SelfSaveSendsSaved | components/email-referral-tool.tsx:102-110 | after saving the selected template itself, a send passes exactly when there is a recipient, no digits-only key and no unfilled placeholder in the saved body, and then posts the saved subject and body rendered with the values already typed in; the values are not re-seeded |
| Session.FormAfterSelect | components/email-referral-tool.tsx:205-210 | after a selection with distinct keys, field `i` of the form is definition `i`'s key, its label (or the key when the label is empty), its type and an empty value |
| Session.FieldEditUpdatesOnlyItsPlaceholder | components/email-referral-tool.tsx:206-208 | typing into field `i` updates placeholder `i` alone when keys are distinct |
| Session.SeedDistinct | components/email-referral-tool.tsx:55-62 | distinct definition keys give distinct placeholder keys |
| Session.ComposedPlaceholders | components/email-referral-tool.tsx:49-67 | selecting a template with `name` and `role` and filling `name = Ann` leaves `role` empty and the body as the template's |
| Session.MissingRoleOnly | components/email-referral-tool.tsx:124 | of a filled `name` and an unfilled `role`, only `role` is missing |
| Session.BodyTokenBlocksSend | components/email-referral-tool.tsx:124-127 | with `{role}` unfilled in the body `<p>Dear {name}, re {role}</p>`, the send is refused naming exactly `role` |
| Session.NoUnfilledPasses | components/email-referral-tool.tsx:113-128 | with a template, a recipient, the first value filled and the second token absent from the body, the send passes |
| Session.SubjectOnlyTokenDoesNotBlock | components/email-referral-tool.tsx:124 | an empty `role` does not block a send whose body lacks `{role}`, whatever the subject holds |
| PlaceholderForm.FindDefinition | components/placeholder-form.tsx:15-17 | the result is the first definition with the key, or none exactly when no definition has it |
| PlaceholderForm.FieldFor | components/placeholder-form.tsx:24-33 | a field shows the definition's label (or the key when it has none or the label is empty) and its type (`text` when there is no definition), and carries the placeholder's key and value |
| PlaceholderForm.Fields | components/placeholder-form.tsx:23-37 | one field per placeholder, in list order |
| PlaceholderForm.OnFieldEdit | components/placeholder-form.tsx:23-32 | typing into field `i` reports the key of placeholder `i`, the one the field is drawn for, with the typed value |
| PlaceholderManager.SanitizeKey | components/placeholder-manager.tsx:31 | the sanitised key keeps the raw key's alphanumeric characters in their order, each as often as it occurs, and nothing else |
| PlaceholderManager.SanitizeKeyAlnum | components/placeholder-manager.tsx:31 | a sanitised key is alphanumeric and no longer than the raw key, and an alphanumeric key is kept as it is |
| PlaceholderManager.SanitizeConcat | components/placeholder-manager.tsx:31 | sanitising works character by character, so it distributes over concatenation |
| PlaceholderManager.DropSeparator | components/placeholder-manager.tsx:31 | a non-alphanumeric separator between two alphanumeric words is dropped |
| PlaceholderManager.SeparatorDropped | components/placeholder-manager.tsx:31 | `First`, any one non-alphanumeric character, `Name` becomes `FirstName` |
| PlaceholderManager.SanitizeExamples | components/placeholder-manager.tsx:31 | `First Name` and `First-Name` both become `FirstName` |
| PlaceholderManager.TrailingMarkDropped | components/placeholder-manager.tsx:31 | `First Name!` becomes `FirstName` |
| PlaceholderManager.AddPlaceholder | components/placeholder-manager.tsx:28-36 | an add with an empty raw key or label, or a sanitised key already present, is a no-op; otherwise the sanitised definition is appended and the draft reset; distinct keys stay distinct |
| PlaceholderManager.RemovePlaceholder | components/placeholder-manager.tsx:38-40 | removing an index in range deletes exactly that definition; any other index changes nothing |
| PlaceholderManager.RemovedIndex | components/placeholder-manager.tsx:39 | after a removal, the definitions before the index keep their positions and the later ones move down by one |
| PlaceholderManager.RemovePreservesDistinct | components/placeholder-manager.tsx:38-40 | removal keeps keys distinct and shortens the list by one exactly when the index is in range |
| PlaceholderManager.SanitizedKeysCollide | components/placeholder-manager.tsx:29-34 | after adding `First Name`, adding `First-Name` is refused because both sanitise to `FirstName` |
| PlaceholderManager.PunctuationKeyAccepted | components/placeholder-manager.tsx:29-34 | the raw key `!!!` passes the emptiness check and is stored with the empty key, which the schema rejects |
| PlaceholderManager.AddPlaceholderChecked | components/placeholder-manager.tsx:28-36 | with the emptiness check on the sanitised key, every stored definition satisfies the schema and keys stay distinct |
| FileUpload.IsValidFileType | components/file-upload.tsx:58-65 | a file is accepted exactly when its type is PDF, DOC or DOCX |
| FileUpload.HandleDrag | components/file-upload.tsx:20-29 | drag enter and drag over set the highlight, drag leave clears it, and any other event changes nothing; the file is never touched |
| FileUpload.HandleDrop | components/file-upload.tsx:31-42 | a drop clears the highlight and takes the first dropped file only when its type is accepted; otherwise the file is kept |
| FileUpload.HandleChange | components/file-upload.tsx:44-49 | browsing takes the first chosen file, with no type check; choosing nothing changes nothing |
| FileUpload.HandleRemoveFile | components/file-upload.tsx:51-56 | removal clears the file |
| FileUpload.NoBrowseKeepsWhitelisted | components/file-upload.tsx:20-56 | over any run of drags, drops and removals, an attachment that is absent or of an allowed type stays so |
| FileUpload.BrowseWhitelistedIff | components/file-upload.tsx:44-49 | after browsing, the attachment is absent or allowed exactly when the browsed file is allowed, or nothing was browsed and it was so before |
| FileUpload.DropChecksBrowseDoesNot | components/file-upload.tsx:36-48 | a PNG is refused when dropped and accepted when browsed |
| TemplateEditor.Mount | components/template-manager.tsx:36-54 | the first render blanks every field without a template and copies the template's otherwise; an empty body falls back to the default content |
| TemplateEditor.Sync | components/template-manager.tsx:57-73 | the effect copies the template's fields, or blanks them without one; the editor's content is replaced only once the editor exists |
| TemplateEditor.SyncForgetsForm | components/template-manager.tsx:57-73 | the form after the effect depends only on the template, on whether the editor exists and on the saving flag |
| TemplateEditor.SyncIdempotent | components/template-manager.tsx:57-73 | running the effect twice is the same as once |
| TemplateEditor.SyncAfterMount | components/template-manager.tsx:53-73 | the effect after the first render changes the form exactly when the template has an empty body |
| TemplateEditor.ValidateSave | components/template-manager.tsx:86-100 | each error is reported exactly when the earlier checks pass and its own fails: a blank name (after trimming), a blank subject, or an editor that is missing, empty or one empty paragraph |
| TemplateEditor.ValidateSaveIff | components/template-manager.tsx:86-100 | a save passes exactly when the trimmed name and subject are non-empty and the editor holds content |
| TemplateEditor.RequestFor | components/template-manager.tsx:102-119 | a request is sent exactly when validation passes: PUT exactly when editing, the item URL exactly when editing a given template, and the fields as typed, untrimmed |
| TemplateEditor.CollectionUrlIff | components/template-manager.tsx:106 | the collection URL is used exactly when there is no template to address |
| TemplateEditor.EditingWithoutTemplate | components/template-manager.tsx:105-106 | editing without a template still sends PUT, to the collection URL |
| TemplateEditor.HandleSave | components/template-manager.tsx:86-136 | a refused save sends nothing; otherwise the request is sent, saving ends, and only a successful reply is handed on |
| TemplateEditor.InsertPlaceholder | components/template-manager.tsx:82-84 | exactly the key's token is inserted at the cursor, which is clamped to the end of the content |
| TemplateEditor.InsertThenFill | components/template-manager.tsx:82-84 | inserting a token and rendering it puts the value at the cursor when the content held no copy of the token |
| TemplateEditor.AddDefinition | components/template-manager.tsx:167 | the embedded placeholder editor changes only the definitions, keeps keys distinct, and either keeps the list or appends the sanitised draft |
| TemplateList.NameMatches | components/template-list-selector.tsx:39 | a template matches exactly when the lower-cased query occurs somewhere in its lower-cased name |
| TemplateList.NameOccurs | components/template-list-selector.tsx:39 | `includes` on the lower-cased name agrees with an occurrence at some index |
| TemplateList.Filtered | components/template-list-selector.tsx:38-40 | the listed templates are a subsequence of the loaded ones |
| TemplateList.FilteredMembership | components/template-list-selector.tsx:38-40 | a template is listed exactly when it was loaded and its lower-cased name contains the lower-cased query |
| TemplateList.FilteredCounts | components/template-list-selector.tsx:38-40 | every copy of a matching template is kept, and no copy of any other |
| TemplateList.EmptyQueryListsAll | components/template-list-selector.tsx:17-40 | the empty query lists every loaded template |
| TemplateList.QueryCaseIrrelevant | components/template-list-selector.tsx:39 | queries that differ only in case list the same templates |
| TemplateList.LoadFinished | components/template-list-selector.tsx:19-36 | loading ends either way; a successful fetch replaces the list, a failed one keeps it; the query is kept |
| TemplateList.LoadFinishedListing | components/template-list-selector.tsx:19-40 | after a failed fetch every query lists what it listed before; after a successful one a template is listed exactly when it was fetched and matches the query |
| TemplateList.FailedLoadListsNothing | components/template-list-selector.tsx:15-32 | a failed first fetch leaves nothing to choose, whatever the query |
| TemplatesApi.ToJson | pages/api/templates/index.ts:27-32 | the returned `id` and `userId` are hexadecimal strings that read back to the document's ids, and every other field is the document's |
| TemplatesApi.JsonIdIdentifies | pages/api/templates/index.ts:29 | equal returned ids mean the same document |
| TemplatesApi.ToJsonAll | pages/api/templates/index.ts:27-32 | one converted document per stored one, in order |
| TemplatesApi.InsertNewest | pages/api/templates/index.ts:26 | inserting into a newest-first list keeps it newest first and adds exactly that document |
| TemplatesApi.SortNewest | pages/api/templates/index.ts:26 | the sort is a newest-first permutation of the documents |
| TemplatesApi.Listing | pages/api/templates/index.ts:26 | the query returns exactly the caller's documents, each as often as stored, newest first |
| TemplatesApi.ListingMembership | pages/api/templates/index.ts:26 | a document is listed for a user exactly when it is stored and owned by that user |
| TemplatesApi.NewDocument | pages/api/templates/index.ts:48-54 | a POST builds a document exactly when the trimmed name, subject and body are non-empty and the placeholders cast; it holds the trimmed fields, the cast placeholders (none when the field is absent), the caller as owner, the fresh id and the current time |
| TemplatesApi.Handle | pages/api/templates/index.ts:10-67 | a failing `connectDB` gives the framework's 500 before anything else; then 401 without a session email; a failing user lookup gives the framework's 500; then 401 for an unknown user, GET 200 with the caller's listing or 500, POST 400 for a missing or empty field, POST 201 with the created document appended or 500 when it fails validation or saving, and 405 with `Allow: GET, POST` otherwise |
| TemplatesApi.OnlyCreatedWrites | pages/api/templates/index.ts:47-59 | the store changes only on a 201, and then by appending one document |
| TemplatesApi.StoreStaysValid | pages/api/templates/index.ts:47-59 | every document the route stores satisfies the schema |
| TemplatesApi.CreatedIsTrimmed | pages/api/templates/index.ts:48-54 | a created document holds the request's fields trimmed, so trimming again changes nothing, and it belongs to the caller |
| TemplatesApi.BlankNameIsServerError | pages/api/templates/index.ts:43-62 | a name of spaces passes the 400 check and is refused by the schema after trimming: the answer is 500 |
| TemplatesApi.ListingOwnerScoped | pages/api/templates/index.ts:24-33 | a GET returns only the caller's documents, newest first, each with a valid id string |
| TemplatesApi.CreatedThenListed | pages/api/templates/index.ts:26-59 | a created template appears in the creator's next listing |
| SendApi.FirstOr | pages/api/email/send.ts:43-45 | a field is its first value, or empty when there is none |
| SendApi.Boundary | pages/api/email/send.ts:77 | the boundary starts with `boundary_` and holds neither a line break nor a double quote |
| SendApi.PlainMessage | pages/api/email/send.ts:67-73 | with single-line fields the message splits back into exactly its five lines: recipient, subject, content type, blank line and content |
| SendApi.SubjectBreakAddsHeader | pages/api/email/send.ts:67-73 | a line break in the subject starts a new header line |
| SendApi.MultipartMessage | pages/api/email/send.ts:81-98 | with single-line fields and boundary the multipart message splits back into exactly its lines |
| SendApi.MultipartSingleLines | pages/api/email/send.ts:81-98 | with single-line fields every line of the multipart message is a single line |
| SendApi.MultipartMessageLines | pages/api/email/send.ts:76-99 | the multipart message splits back into sixteen lines: both part delimiters, the HTML content, the attachment's base64 and the closing delimiter are where RFC 2046 places them |
| SendApi.SwapChar | pages/api/email/send.ts:101 | each occurrence of one character becomes another, and nothing else changes |
| SendApi.ReplaceOneChar | pages/api/email/send.ts:101 | a global replace of a one-character pattern is that character swap |
| SendApi.UrlSafe | pages/api/email/send.ts:101 | each `+` becomes `-` and each `/` becomes `_`, the length is kept, and neither `+` nor `/` remains |
| SendApi.UrlSafeAlphabet | pages/api/email/send.ts:101 | standard base64 is mapped into the URL-safe alphabet of section 5 of RFC 4648, padding stays in place, and the reverse swap restores the input |
| SendApi.BuildMessage | pages/api/email/send.ts:43-99 | without an attachment the message is the plain one; with one it is built exactly when the upload can be read, and is then the multipart message with the file's name and contents |
| SendApi.Handle | pages/api/email/send.ts:16-115 | the gates run in order: 405 for another method, 401 without an access token, 500 when parsing fails, 400 without a recipient, 500 when the attachment cannot be read. Gmail receives exactly the URL-safe encoding of the built message, and the answer is 200 exactly when that call succeeds |
| SendApi.RawIsUrlSafe | pages/api/email/send.ts:101-109 | what reaches Gmail contains no `+` and no `/` |
| SendApi.MethodCheckedFirst | pages/api/email/send.ts:17-19 | a GET is refused with 405 even without a session or a form |
| SendApi.NamelessAttachment | pages/api/email/send.ts:92-93 | an attachment without an original name is announced as `"null"` in both of its headers |
| Flows.ParsedSendForm | components/email-referral-tool.tsx:135-141 | the fields the route reads back are exactly the subject, body and recipient the client posted, and a file arrives exactly when one was attached |
| Flows.ClientGateSatisfiesRoute | pages/api/email/send.ts:43-50 | a send the client lets through is never refused with 400; without an attachment, Gmail receives the encoded plain message with the rendered subject and body |
| Flows.PostBodyOf | components/template-manager.tsx:113-118 | the body the route reads carries every definition in its serialised form, in order |
| Flows.InvalidDefinitionFailsCreate | pages/api/templates/index.ts:47-62 | a form the editor accepts still fails to create, with 500, when one of its definitions has an empty key or label |
| Flows.PunctuationKeyBlocksCreate | components/placeholder-manager.tsx:29-34 | after adding the key `!!!`, the template holds an empty-key definition and creating it is answered 500 |
| Flows.CheckedAddKeepsCreatable | components/placeholder-manager.tsx:28-36 | with the corrected add, the editor's definitions always satisfy the schema |
| Flows.FromJson | components/template-manager.tsx:125-129 | a route reply becomes a client template with the same id, fields and definitions |
| Flows.CreatedTemplateReopens | components/template-manager.tsx:97-106 | a created template whose body is not one empty paragraph reopens in the editor ready to save, and saving it in edit mode sends PUT to its own URL |

## Left out

- Rendering of widgets: layout, icons, toasts, dialogs and the tabs' markup are left out; only state changes and what a view shows are modelled.
- The Tiptap editor is reduced to its HTML: reading the content, setting it, and inserting text at a cursor position. Formatting commands and links (`setLink`) are left out, as is any HTML normalisation the editor performs.
- `components/template-selector.tsx`, `components/email-editor.tsx`, `components/email-preview.tsx` and `pages/api/templates/[id].ts` are not part of this model. The GET, PUT and DELETE item routes are left out with them.
- `models/User.ts` is reduced to a map from email to ObjectId. `connectDB`, `getServerSession` and `findOne` become inputs: the session's email or access token, the map, and flags saying whether the connection, the user lookup and the template queries succeed.
- The OAuth client setup, the refresh token and the NextAuth configuration are left out. `pages/api/ping.ts` and `next.config.ts` are left out too.
- `Buffer.from(...).toString("base64")` is the `encode` parameter of `SendApi.Handle`, and the file's base64 text is an input; the base64 encoding itself is not modelled. `Date.now()` is the `now` input.
- Renderer.Fill: models `replace` as literal replacement. A `$` pattern in a value, and a key holding regular-expression syntax other than digits-only braces, are not modelled; the editor only produces alphanumeric keys.
- Renderer.FillAsWritten: requires every key to be alphanumeric, as the placeholder editor's sanitiser makes them. A key with other characters (from a template written to the database directly) may be any regular expression, and what it matches is not modelled.
- Session.PreviewOf: requires alphanumeric keys, for the reason given for `Renderer.FillAsWritten`, and renders `$` patterns in values literally, as `Renderer.Fill` does. A failure stands for the exception thrown while the tool renders; with no error boundary React then unmounts the whole tool, and the state after that is not modelled.
- Session.CheckSend: requires alphanumeric keys, for the reason given for `Renderer.FillAsWritten`, and renders `$` patterns in values literally, as `Renderer.Fill` does.
- Session.HandleSend: requires alphanumeric keys, for the reason given for `Renderer.FillAsWritten`, and renders `$` patterns in values literally, as `Renderer.Fill` does.
- TemplateList.NameMatches: lower-cases ASCII letters only; JavaScript's Unicode case mapping is not modelled.
- TemplatesApi.Handle: a body field that is not a string (a number, say) is not modelled; fields are absent or strings. MongoDB's order among documents with equal `updatedAt` is unspecified, and the model keeps stored order. The `_id` and `__v` of subdocuments and the document's `__v` are not modelled. A throwing `getServerSession`, outside any `try`, would give the framework's 500; it is not modelled, and the session's email is an input.
- SendApi.Handle: the `multiples: false` option and any formidable parse error are reduced to the optional parsed form. An error thrown by the Gmail client is the `gmailUp` flag. A throwing `getServerSession`, inside the `try`, would give 500 "Failed to send email"; it is not modelled, and the access token is an input.
- The concurrency of the `isSending` and `isSaving` flags is not modelled: each handler runs to completion, and the button's `disabled` state is not modelled.
- File sizes, the displayed size text and the file input's reset are not modelled beyond clearing the file.
- Network, not-found and authentication failures appear only as the HTTP statuses the two modelled routes return and as the client's `delivered` and `reply` inputs.

## Findings

| source | as written | input that shows it | evidently intended | confidence | as-written member | corrected member |
|---|---|---|---|---|---|---|
| components/email-referral-tool.tsx:72 | the token is turned into a regular expression, `new RegExp("{" + key + "}", "g")` | a placeholder with key `123`, which the placeholder editor accepts: `{123}` is a quantifier with nothing to repeat, so rendering throws a SyntaxError: opening the preview throws while the tool renders, which unmounts the whole tool, and a send throws before anything is posted | replace the literal token `{123}` by the value | not executed | Renderer.FillAsWritten, Renderer.DigitKeyBreaksRendering, Session.DigitKeyNeverPosts | Renderer.Fill, Renderer.FillReplacesToken |
| components/placeholder-manager.tsx:29-31 | the emptiness check runs on the raw key, before punctuation is stripped | the key `!!!` with label `Name`: it is stored with the empty key, and the required-key validator then rejects the template, so creating it is answered 500 | refuse a key that is empty after sanitising | not executed | PlaceholderManager.AddPlaceholder, PlaceholderManager.PunctuationKeyAccepted, Flows.PunctuationKeyBlocksCreate | PlaceholderManager.AddPlaceholderChecked, Flows.CheckedAddKeepsCreatable |
