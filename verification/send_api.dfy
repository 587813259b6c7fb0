/** `pages/api/email/send.ts`: the route that turns a composed email into
    a raw RFC 5322-style message with LF line ends (a single text/html
    part, or an RFC 2046 multipart/mixed message carrying one attachment) and hands it to the
    Gmail API. The session, formidable's parse, the uploaded file's bytes,
    the clock, `Buffer`'s base64 encoder and the Gmail call are inputs. */
module SendApi {
  import opened Wrappers
  import opened Text

  // ---------------------------------------------------------- inputs

  /** An uploaded file as formidable describes it. */
  datatype UploadedFile = UploadedFile(filepath: string, originalFilename: Option<string>)

  /** formidable's fields and files: every name maps to a list of values. */
  datatype ParsedForm = ParsedForm(
    subject: seq<string>,
    content: seq<string>,
    recipient: seq<string>,
    attachment: seq<UploadedFile>)

  /** A request: its method, the session's access token, and the parsed
      form (`None` when parsing fails). */
  datatype Request = Request(verb: string, accessToken: Option<string>, form: Option<ParsedForm>)

  /** The outside world: the base64 text of each readable upload, whether
      the Gmail call succeeds, and `Date.now()`. */
  datatype Env = Env(files: map<string, string>, gmailUp: bool, now: nat)

  datatype Response = Response(status: int, error: Option<string>)

  /** A response and the `raw` value passed to Gmail, if the call was made. */
  datatype Outcome = Outcome(response: Response, raw: Option<string>)

  /** `fields.x?.[0] || ""`. */
  function FirstOr(values: seq<string>): (v: string)
    ensures |values| == 0 ==> v == ""
    ensures |values| > 0 ==> v == values[0]
  {
    if |values| > 0 && values[0] != "" then values[0] else ""
  }

  // --------------------------------------------------------- messages

  const HtmlContentType: string := "Content-Type: text/html; charset=utf-8"

  predicate SingleLine(s: string) {
    '\n' !in s
  }

  predicate AllSingleLine(ls: seq<string>) {
    forall i :: 0 <= i < |ls| ==> SingleLine(ls[i])
  }

  lemma SingleLinesConcat(a: seq<string>, b: seq<string>)
    requires AllSingleLine(a) && AllSingleLine(b)
    ensures AllSingleLine(a + b)
  {
    forall i | 0 <= i < |a + b|
      ensures SingleLine((a + b)[i])
    {
      if i >= |a| {
        assert (a + b)[i] == b[i - |a|];
      }
    }
  }

  /** The header block: recipient, subject, content type, blank line. */
  function HeaderLines(recipient: string, subject: string, contentType: string): seq<string> {
    ["To: " + recipient, "Subject: " + subject, contentType, ""]
  }

  lemma HeaderSingleLines(recipient: string, subject: string, contentType: string)
    requires SingleLine(recipient) && SingleLine(subject) && SingleLine(contentType)
    ensures AllSingleLine(HeaderLines(recipient, subject, contentType))
  {
    var ls := HeaderLines(recipient, subject, contentType);
    assert ls[0] == "To: " + recipient && ls[1] == "Subject: " + subject;
  }

  /** The message without an attachment. */
  function PlainLines(recipient: string, subject: string, content: string): seq<string> {
    HeaderLines(recipient, subject, HtmlContentType) + [content]
  }

  /** The lines joined with `\n`. With single-line fields the message
      splits back into exactly its five lines: the headers, the blank line
      and the content. */
  function PlainMessage(recipient: string, subject: string, content: string): (m: string)
    ensures SingleLine(recipient) && SingleLine(subject) && SingleLine(content) ==>
              Split(m, '\n') == PlainLines(recipient, subject, content)
  {
    var ls := PlainLines(recipient, subject, content);
    assert SingleLine(recipient) && SingleLine(subject) && SingleLine(content) ==>
             Split(Join(ls, '\n'), '\n') == ls by {
      if SingleLine(recipient) && SingleLine(subject) && SingleLine(content) {
        HeaderSingleLines(recipient, subject, HtmlContentType);
        SingleLinesConcat(HeaderLines(recipient, subject, HtmlContentType), [content]);
        SplitJoin(ls, '\n');
      }
    }
    Join(ls, '\n')
  }

  /** `"boundary_" + Date.now()`. */
  function Boundary(now: nat): (b: string)
    ensures |b| > 9 && b[..9] == "boundary_"
    ensures '\n' !in b && '"' !in b
  {
    var digits := NatToString(now);
    assert forall i :: 0 <= i < |digits| ==> digits[i] != '\n' && digits[i] != '"';
    "boundary_" + digits
  }

  /** A template string renders an absent file name as `null`. */
  function FileNameText(name: Option<string>): string {
    match name
    case Some(n) => n
    case None => "null"
  }

  function MultipartType(boundary: string): string {
    "Content-Type: multipart/mixed; boundary=\"" + boundary + "\""
  }

  /** The HTML body part, opened by the delimiter line. */
  function HtmlPartLines(boundary: string, content: string): seq<string> {
    ["--" + boundary, HtmlContentType, "", content, ""]
  }

  /** The attachment part, opened by the delimiter line. */
  function FilePartLines(boundary: string, fileName: string, data: string): seq<string> {
    ["--" + boundary,
     "Content-Type: application/octet-stream; name=\"" + fileName + "\"",
     "Content-Disposition: attachment; filename=\"" + fileName + "\"",
     "Content-Transfer-Encoding: base64",
     "",
     data]
  }

  /** The multipart/mixed message: headers, the HTML part, the attachment
      part, and the closing delimiter. */
  function MultipartLines(recipient: string, subject: string, content: string,
                          boundary: string, fileName: string, data: string): seq<string> {
    HeaderLines(recipient, subject, MultipartType(boundary)) +
    HtmlPartLines(boundary, content) +
    FilePartLines(boundary, fileName, data) +
    ["--" + boundary + "--"]
  }

  /** The lines joined with `\n`. With single-line fields and boundary the
      message splits back into exactly its lines. */
  function MultipartMessage(recipient: string, subject: string, content: string,
                            boundary: string, fileName: string, data: string): (m: string)
    ensures SingleLine(recipient) && SingleLine(subject) && SingleLine(content) &&
            SingleLine(boundary) && SingleLine(fileName) && SingleLine(data) ==>
              Split(m, '\n') == MultipartLines(recipient, subject, content, boundary, fileName, data)
  {
    var ls := MultipartLines(recipient, subject, content, boundary, fileName, data);
    assert SingleLine(recipient) && SingleLine(subject) && SingleLine(content) &&
           SingleLine(boundary) && SingleLine(fileName) && SingleLine(data) ==>
             Split(Join(ls, '\n'), '\n') == ls by {
      if SingleLine(recipient) && SingleLine(subject) && SingleLine(content) &&
         SingleLine(boundary) && SingleLine(fileName) && SingleLine(data) {
        MultipartSingleLines(recipient, subject, content, boundary, fileName, data);
        SplitJoin(ls, '\n');
      }
    }
    Join(ls, '\n')
  }

  /** A line break in the subject starts a new header line: the subject
      `a\nb` yields a message whose third line is `b`. */
  lemma SubjectBreakAddsHeader(recipient: string, a: string, b: string, content: string)
    requires SingleLine(recipient) && SingleLine(a) && SingleLine(b) && SingleLine(content)
    ensures Split(PlainMessage(recipient, a + "\n" + b, content), '\n') ==
            ["To: " + recipient, "Subject: " + a, b, HtmlContentType, "", content]
  {
    var ls := ["To: " + recipient, "Subject: " + a, b, HtmlContentType, "", content];
    var post := [HtmlContentType, "", content];
    assert "Subject: " + (a + "\n" + b) == ("Subject: " + a) + ['\n'] + b;
    assert PlainLines(recipient, a + "\n" + b, content) == ["To: " + recipient] + [("Subject: " + a) + ['\n'] + b] + post;
    JoinBreak(["To: " + recipient], "Subject: " + a, b, post, '\n');
    assert ["To: " + recipient] + ["Subject: " + a, b] + post == ls;
    forall i | 0 <= i < |ls|
      ensures '\n' !in ls[i]
    {
      if i == 0 { assert ls[0] == "To: " + recipient; }
      if i == 1 { assert ls[1] == "Subject: " + a; }
    }
    SplitJoin(ls, '\n');
  }

  lemma MultipartSingleLines(recipient: string, subject: string, content: string,
                             bnd: string, fileName: string, data: string)
    requires SingleLine(recipient) && SingleLine(subject) && SingleLine(content)
    requires SingleLine(bnd) && SingleLine(fileName) && SingleLine(data)
    ensures AllSingleLine(MultipartLines(recipient, subject, content, bnd, fileName, data))
  {
    HeaderSingleLines(recipient, subject, MultipartType(bnd));
    var html := HtmlPartLines(bnd, content);
    assert html[0] == "--" + bnd;
    var file := FilePartLines(bnd, fileName, data);
    assert file[0] == "--" + bnd;
    assert file[1] == "Content-Type: application/octet-stream; name=\"" + fileName + "\"";
    assert file[2] == "Content-Disposition: attachment; filename=\"" + fileName + "\"";
    var close := ["--" + bnd + "--"];
    assert close[0] == "--" + bnd + "--";
    SingleLinesConcat(HeaderLines(recipient, subject, MultipartType(bnd)), html);
    SingleLinesConcat(HeaderLines(recipient, subject, MultipartType(bnd)) + html, file);
    SingleLinesConcat(HeaderLines(recipient, subject, MultipartType(bnd)) + html + file, close);
  }

  /** With single-line fields the multipart message splits back into its
      sixteen lines, so the HTML part comes first, then the attachment
      part, and the last line is the closing delimiter. */
  lemma MultipartMessageLines(recipient: string, subject: string, content: string,
                              now: nat, fileName: string, data: string)
    requires SingleLine(recipient) && SingleLine(subject) && SingleLine(content)
    requires SingleLine(fileName) && SingleLine(data)
    ensures var ls := Split(MultipartMessage(recipient, subject, content, Boundary(now), fileName, data), '\n');
            |ls| == 16 && ls[4] == ls[9] == "--" + Boundary(now) && ls[7] == content &&
            ls[14] == data && ls[15] == "--" + Boundary(now) + "--"
  {
    var bnd := Boundary(now);
    var ls := MultipartLines(recipient, subject, content, bnd, fileName, data);
    assert Split(MultipartMessage(recipient, subject, content, bnd, fileName, data), '\n') == ls;
    assert ls[4] == "--" + bnd && ls[7] == content;
  }

  // ------------------------------------------------------------ base64

  /** Every occurrence of `a` in `s` becomes `b`; nothing else changes. */
  function SwapChar(s: string, a: char, b: char): (r: string)
    ensures |r| == |s|
    ensures forall i :: 0 <= i < |s| ==> r[i] == if s[i] == a then b else s[i]
  {
    seq(|s|, i requires 0 <= i < |s| => if s[i] == a then b else s[i])
  }

  /** A global replace of one character is the character swap. */
  lemma {:induction false} ReplaceOneChar(s: string, a: char, b: char)
    ensures ReplaceAll(s, [a], [b]) == SwapChar(s, a, b)
    decreases |s|
  {
    if |s| > 0 {
      ReplaceOneChar(s[1..], a, b);
      if StartsWith(s, [a]) {
        assert s[0] == a;
      } else {
        assert s[..1] == [s[0]];
      }
    }
  }

  /** `.replace(/\+/g, "-").replace(/\//g, "_")` applied to base64 text. */
  function UrlSafe(s: string): (r: string)
    ensures |r| == |s|
    ensures forall i :: 0 <= i < |s| ==>
              r[i] == (if s[i] == '+' then '-' else if s[i] == '/' then '_' else s[i])
    ensures '+' !in r && '/' !in r
  {
    var once := ReplaceAll(s, "+", "-");
    ReplaceOneChar(s, '+', '-');
    ReplaceOneChar(once, '/', '_');
    ReplaceAll(once, "/", "_")
  }

  /** The alphabet of standard base64 (section 4 of RFC 4648), padding
      included. */
  predicate IsBase64Char(c: char) {
    ('A' <= c <= 'Z') || ('a' <= c <= 'z') || ('0' <= c <= '9') || c == '+' || c == '/' || c == '='
  }

  /** The URL- and filename-safe alphabet (section 5 of RFC 4648), with
      padding. */
  predicate IsBase64UrlChar(c: char) {
    ('A' <= c <= 'Z') || ('a' <= c <= 'z') || ('0' <= c <= '9') || c == '-' || c == '_' || c == '='
  }

  /** The rewrite maps standard base64 into the URL-safe alphabet, keeps
      every `=` in place, and is undone by the reverse swap. */
  lemma UrlSafeAlphabet(s: string)
    requires forall i :: 0 <= i < |s| ==> IsBase64Char(s[i])
    ensures forall i :: 0 <= i < |s| ==> IsBase64UrlChar(UrlSafe(s)[i])
    ensures forall i :: 0 <= i < |s| ==> (s[i] == '=' <==> UrlSafe(s)[i] == '=')
    ensures SwapChar(SwapChar(UrlSafe(s), '-', '+'), '_', '/') == s
  {
  }

  // ----------------------------------------------------------- handler

  predicate HasToken(t: Option<string>) {
    t.Some? && t.value != ""
  }

  const Failed: Response := Response(500, Some("Failed to send email"))

  /** The message the route builds for a parsed form with a recipient, or
      `None` when the attachment cannot be read. */
  function BuildMessage(form: ParsedForm, env: Env): (m: Option<string>)
    ensures |form.attachment| == 0 ==>
              m == Some(PlainMessage(FirstOr(form.recipient), FirstOr(form.subject), FirstOr(form.content)))
    ensures |form.attachment| > 0 ==> (m.Some? <==> form.attachment[0].filepath in env.files)
    ensures |form.attachment| > 0 && m.Some? ==>
              m.value == MultipartMessage(FirstOr(form.recipient), FirstOr(form.subject), FirstOr(form.content),
                                          Boundary(env.now), FileNameText(form.attachment[0].originalFilename),
                                          env.files[form.attachment[0].filepath])
  {
    var recipient := FirstOr(form.recipient);
    var subject := FirstOr(form.subject);
    var content := FirstOr(form.content);
    if |form.attachment| == 0 then Some(PlainMessage(recipient, subject, content))
    else
      var file := form.attachment[0];
      if file.filepath !in env.files then None
      else Some(MultipartMessage(recipient, subject, content, Boundary(env.now),
                                 FileNameText(file.originalFilename), env.files[file.filepath]))
  }

  /** `handler`. `encode` is `Buffer.from(message).toString("base64")`. */
  function Handle(req: Request, env: Env, encode: string -> string): (r: Outcome)
    ensures req.verb != "POST" ==> r == Outcome(Response(405, Some("Method not allowed")), None)
    ensures req.verb == "POST" && !HasToken(req.accessToken) ==> r == Outcome(Response(401, Some("Unauthorized")), None)
    ensures req.verb == "POST" && HasToken(req.accessToken) && req.form.None? ==> r == Outcome(Failed, None)
    ensures req.verb == "POST" && HasToken(req.accessToken) && req.form.Some? && FirstOr(req.form.value.recipient) == "" ==>
              r == Outcome(Response(400, Some("Recipient email is required")), None)
    ensures req.verb == "POST" && HasToken(req.accessToken) && req.form.Some? && FirstOr(req.form.value.recipient) != "" &&
              BuildMessage(req.form.value, env).None? ==>
              r == Outcome(Failed, None)
    ensures r.raw.Some? <==> req.verb == "POST" && HasToken(req.accessToken) && req.form.Some? &&
                             FirstOr(req.form.value.recipient) != "" && BuildMessage(req.form.value, env).Some?
    ensures r.raw.Some? ==> r.raw.value == UrlSafe(encode(BuildMessage(req.form.value, env).value)) &&
                            r.response == (if env.gmailUp then Response(200, None) else Failed)
    ensures r.response.status == 200 <==> r.raw.Some? && env.gmailUp
  {
    if req.verb != "POST" then Outcome(Response(405, Some("Method not allowed")), None)
    else if !HasToken(req.accessToken) then Outcome(Response(401, Some("Unauthorized")), None)
    else match req.form
      case None => Outcome(Failed, None)
      case Some(form) =>
        if FirstOr(form.recipient) == "" then Outcome(Response(400, Some("Recipient email is required")), None)
        else match BuildMessage(form, env)
          case None => Outcome(Failed, None)
          case Some(message) =>
            var raw := UrlSafe(encode(message));
            if env.gmailUp then Outcome(Response(200, None), Some(raw)) else Outcome(Failed, Some(raw))
  }

  /** Whatever reaches Gmail carries no `+` or `/`. */
  lemma RawIsUrlSafe(req: Request, env: Env, encode: string -> string)
    requires Handle(req, env, encode).raw.Some?
    ensures var raw := Handle(req, env, encode).raw.value;
            '+' !in raw && '/' !in raw
  {
  }

  /** The method is checked before anything else: a GET is refused with
      405 even without a session or a form. */
  lemma MethodCheckedFirst(env: Env, encode: string -> string)
    ensures Handle(Request("GET", None, None), env, encode).response.status == 405
  {
  }

  /** An attachment without an original file name is announced as
      `"null"` in both of its headers. */
  lemma NamelessAttachment(recipient: string, subject: string, content: string, now: nat, data: string)
    ensures var ls := MultipartLines(recipient, subject, content, Boundary(now), FileNameText(None), data);
            ls[10] == "Content-Type: application/octet-stream; name=\"null\"" &&
            ls[11] == "Content-Disposition: attachment; filename=\"null\""
  {
  }
}
