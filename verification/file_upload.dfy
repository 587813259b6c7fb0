/** `components/file-upload.tsx`: the optional résumé attachment, chosen
    by drag-and-drop (PDF, DOC and DOCX only) or through the file browser
    (no type check), and the highlight shown while a drag is over the zone. */
module FileUpload {
  import opened Wrappers

  /** A browser `File`: its name, MIME type and size in bytes. */
  datatype File = File(name: string, mime: string, size: nat)

  const PdfType := "application/pdf"
  const DocType := "application/msword"
  const DocxType := "application/vnd.openxmlformats-officedocument.wordprocessingml.document"

  const AllowedTypes: seq<string> := [PdfType, DocType, DocxType]

  /** `isValidFileType`: the MIME type is on the whitelist. */
  function IsValidFileType(f: File): (ok: bool)
    ensures ok <==> f.mime == PdfType || f.mime == DocType || f.mime == DocxType
  {
    f.mime in AllowedTypes
  }

  /** The attachment (owned by the parent) and the drop zone's highlight. */
  datatype Upload = Upload(file: Option<File>, dragActive: bool)

  /** `handleDrag`: `dragenter` and `dragover` switch the highlight on,
      `dragleave` switches it off, any other event type leaves it. */
  function HandleDrag(u: Upload, eventType: string): (r: Upload)
    ensures r.file == u.file
    ensures eventType == "dragenter" || eventType == "dragover" ==> r.dragActive
    ensures eventType == "dragleave" ==> !r.dragActive
    ensures eventType !in ["dragenter", "dragover", "dragleave"] ==> r == u
  {
    if eventType == "dragenter" || eventType == "dragover" then u.(dragActive := true)
    else if eventType == "dragleave" then u.(dragActive := false)
    else u
  }

  /** `handleDrop`: the highlight always goes off; the first dropped file
      becomes the attachment only when its type is allowed. */
  function HandleDrop(u: Upload, dropped: seq<File>): (r: Upload)
    ensures !r.dragActive
    ensures |dropped| > 0 && IsValidFileType(dropped[0]) ==> r.file == Some(dropped[0])
    ensures !(|dropped| > 0 && IsValidFileType(dropped[0])) ==> r.file == u.file
    ensures r.file.Some? && r.file != u.file ==> IsValidFileType(r.file.value)
  {
    if |dropped| > 0 && IsValidFileType(dropped[0]) then Upload(Some(dropped[0]), false)
    else u.(dragActive := false)
  }

  /** `handleChange`: the first browsed file becomes the attachment, with
      no type check; no selection leaves it. */
  function HandleChange(u: Upload, selected: seq<File>): (r: Upload)
    ensures r.dragActive == u.dragActive
    ensures |selected| > 0 ==> r.file == Some(selected[0])
    ensures |selected| == 0 ==> r == u
  {
    if |selected| > 0 then u.(file := Some(selected[0])) else u
  }

  /** `handleRemoveFile`: the attachment is cleared. */
  function HandleRemoveFile(u: Upload): (r: Upload)
    ensures r.file.None? && r.dragActive == u.dragActive
  {
    u.(file := None)
  }

  /** The zone's events: a drag event by its type, a drop, a browse, and a
      click on the remove button. */
  datatype Event = Drag(eventType: string) | Drop(dropped: seq<File>) | Browse(selected: seq<File>) | Remove

  function Apply(u: Upload, e: Event): Upload {
    match e
    case Drag(t) => HandleDrag(u, t)
    case Drop(fs) => HandleDrop(u, fs)
    case Browse(fs) => HandleChange(u, fs)
    case Remove => HandleRemoveFile(u)
  }

  /** The events in order. */
  function Run(u: Upload, es: seq<Event>): Upload
    decreases |es|
  {
    if |es| == 0 then u else Run(Apply(u, es[0]), es[1..])
  }

  /** There is no attachment, or it has an allowed type. */
  predicate Whitelisted(u: Upload) {
    u.file.None? || IsValidFileType(u.file.value)
  }

  /** Drags, drops and removals never bring in a file of another type. */
  lemma {:induction false} NoBrowseKeepsWhitelisted(u: Upload, es: seq<Event>)
    requires Whitelisted(u)
    requires forall k :: 0 <= k < |es| ==> !es[k].Browse?
    ensures Whitelisted(Run(u, es))
    decreases |es|
  {
    if |es| > 0 {
      assert Whitelisted(Apply(u, es[0]));
      NoBrowseKeepsWhitelisted(Apply(u, es[0]), es[1..]);
    }
  }

  /** Browsing keeps the whitelist exactly when it takes an allowed file or
      takes nothing: one browsed file of another type breaks it. */
  lemma BrowseWhitelistedIff(u: Upload, selected: seq<File>)
    ensures Whitelisted(HandleChange(u, selected)) <==>
            (if |selected| > 0 then IsValidFileType(selected[0]) else Whitelisted(u))
  {
  }

  /** Dropping keeps only whitelisted files, where browsing takes anything:
      the same PNG is refused by a drop and accepted from the browser. */
  lemma DropChecksBrowseDoesNot(u: Upload)
    requires u.file.None?
    ensures HandleDrop(u, [File("photo.png", "image/png", 2048)]).file.None?
    ensures HandleChange(u, [File("photo.png", "image/png", 2048)]).file == Some(File("photo.png", "image/png", 2048))
  {
  }
}
