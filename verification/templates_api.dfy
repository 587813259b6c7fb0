/** `pages/api/templates/index.ts`: the collection route for templates.
    The session lookup, the user collection and the template collection
    are inputs: the signed-in email, an email-to-id map, the stored
    documents, and whether the database call succeeds. */
module TemplatesApi {
  import opened Wrappers
  import opened Text
  import opened Seqs
  import opened ObjectIds
  import opened TemplateModel

  // ---------------------------------------------------------- records

  /** A document as the route returns it: `_id` is gone and `id` holds
      its hexadecimal string. */
  datatype TemplateJson = TemplateJson(
    id: string,
    name: string,
    subject: string,
    body: string,
    placeholders: seq<PlaceholderDefinition>,
    userId: string,
    createdAt: int,
    updatedAt: int)

  /** `toObject()` followed by `plain.id = plain._id.toString()` and
      `delete plain._id`. */
  function ToJson(d: StoredTemplate): (j: TemplateJson)
    ensures forall i :: 0 <= i < |j.id| ==> IsHexDigit(j.id[i])
    ensures forall i :: 0 <= i < |j.userId| ==> IsHexDigit(j.userId[i])
    ensures FromHex(j.id) == d.oid && FromHex(j.userId) == d.userId
    ensures j.name == d.name && j.subject == d.subject && j.body == d.body && j.placeholders == d.placeholders
    ensures j.createdAt == d.createdAt && j.updatedAt == d.updatedAt
  {
    TemplateJson(IdString(d.oid), d.name, d.subject, d.body, d.placeholders, IdString(d.userId), d.createdAt, d.updatedAt)
  }

  /** The returned `id` identifies the document: equal ids, equal `_id`. */
  lemma JsonIdIdentifies(a: StoredTemplate, b: StoredTemplate)
    requires ToJson(a).id == ToJson(b).id
    ensures a.oid == b.oid
  {
    IdStringInjective(a.oid, b.oid);
  }

  function ToJsonAll(ds: seq<StoredTemplate>): (r: seq<TemplateJson>)
    ensures |r| == |ds| && forall i :: 0 <= i < |ds| ==> r[i] == ToJson(ds[i])
  {
    seq(|ds|, i requires 0 <= i < |ds| => ToJson(ds[i]))
  }

  // ---------------------------------------------------------- listing

  /** Ordered by `updatedAt`, most recent first. */
  predicate NewestFirst(ds: seq<StoredTemplate>) {
    forall i, j :: 0 <= i < j < |ds| ==> ds[i].updatedAt >= ds[j].updatedAt
  }

  /** Insert `d` into a newest-first list ahead of every entry that is not
      more recent than it. */
  function InsertNewest(d: StoredTemplate, ds: seq<StoredTemplate>): (r: seq<StoredTemplate>)
    requires NewestFirst(ds)
    ensures NewestFirst(r)
    ensures multiset(r) == multiset(ds) + multiset{d}
    ensures |r| > 0 && (r[0] == d || (|ds| > 0 && r[0] == ds[0]))
    decreases |ds|
  {
    if |ds| == 0 then [d]
    else if d.updatedAt >= ds[0].updatedAt then [d] + ds
    else
      var rest := InsertNewest(d, ds[1..]);
      assert ds == [ds[0]] + ds[1..];
      assert ds[0].updatedAt >= rest[0].updatedAt;
      [ds[0]] + rest
  }

  /** `.sort({ updatedAt: -1 })`: a newest-first permutation. Documents
      with the same `updatedAt` keep their stored order. */
  function SortNewest(ds: seq<StoredTemplate>): (r: seq<StoredTemplate>)
    ensures NewestFirst(r)
    ensures multiset(r) == multiset(ds)
    decreases |ds|
  {
    if |ds| == 0 then []
    else
      assert ds == [ds[0]] + ds[1..];
      InsertNewest(ds[0], SortNewest(ds[1..]))
  }

  predicate OwnedBy(d: StoredTemplate, uid: ObjectId) {
    d.userId == uid
  }

  /** `Template.find({ userId }).sort({ updatedAt: -1 })`: exactly the
      caller's documents, each as often as stored, newest first. */
  function Listing(store: seq<StoredTemplate>, uid: ObjectId): (r: seq<StoredTemplate>)
    ensures NewestFirst(r)
    ensures forall d {:trigger multiset(r)[d]} :: multiset(r)[d] == if OwnedBy(d, uid) then multiset(store)[d] else 0
    ensures forall i :: 0 <= i < |r| ==> OwnedBy(r[i], uid) && r[i] in store
  {
    var owned := Filter(store, d => OwnedBy(d, uid));
    var r := SortNewest(owned);
    assert forall i :: 0 <= i < |r| ==> r[i] in multiset(owned);
    forall i | 0 <= i < |r|
      ensures OwnedBy(r[i], uid) && r[i] in store
    {
      assert multiset(owned)[r[i]] > 0;
    }
    r
  }

  /** A document is listed for its owner exactly when it is stored. */
  lemma ListingMembership(store: seq<StoredTemplate>, uid: ObjectId, d: StoredTemplate)
    ensures d in Listing(store, uid) <==> d in store && OwnedBy(d, uid)
  {
    var r := Listing(store, uid);
    assert d in r <==> multiset(r)[d] > 0;
    assert d in store <==> multiset(store)[d] > 0;
  }

  // ---------------------------------------------------------- handler

  /** The fields of a POST body; each may be absent. */
  datatype PostBody = PostBody(
    name: Option<string>,
    subject: Option<string>,
    body: Option<string>,
    placeholders: Option<seq<RawPlaceholder>>)

  /** A request: its method, the session's email, and its body. */
  datatype Request = Request(verb: string, email: Option<string>, body: PostBody)

  /** What the route can see of the database: whether `connectDB` and the
      user lookup succeed, the users by email, the templates collection and
      whether queries on it succeed, the id and time a new document gets. */
  datatype Env = Env(
    connected: bool,
    usersUp: bool,
    users: map<string, ObjectId>,
    store: seq<StoredTemplate>,
    storeUp: bool,
    freshId: ObjectId,
    now: int)

  /** A JSON body the handler writes, or `Unhandled`: the framework's own
      500 page for an exception that escapes the handler. */
  datatype Reply = ErrorReply(message: string) | One(template: TemplateJson) | Many(templates: seq<TemplateJson>) | Unhandled

  /** A response: status, JSON body and the `Allow` header (empty when
      not set). */
  datatype Response = Response(status: int, reply: Reply, allow: seq<string>)

  datatype Outcome = Outcome(response: Response, store: seq<StoredTemplate>)

  function Fail(status: int, message: string, store: seq<StoredTemplate>): Outcome {
    Outcome(Response(status, ErrorReply(message), []), store)
  }

  /** An exception outside every `try`: the framework answers 500 and
      nothing is written. */
  function Crashed(store: seq<StoredTemplate>): Outcome {
    Outcome(Response(500, Unhandled, []), store)
  }

  /** The database is reachable and the session carries an email that
      belongs to a user. */
  predicate Authorized(req: Request, env: Env) {
    env.connected && env.usersUp && Present(req.email) && req.email.value in env.users
  }

  /** Name, subject and body are all present and non-empty. */
  predicate HasRequiredFields(b: PostBody) {
    Present(b.name) && Present(b.subject) && Present(b.body)
  }

  /** The document a valid POST builds: trimmed fields, placeholders
      defaulting to `[]`, the caller as owner, the fresh id and the current
      time for both timestamps. The schema refuses it exactly when a field
      trims to "" or a placeholder fails to cast. */
  function NewDocument(b: PostBody, uid: ObjectId, env: Env): (r: Result<StoredTemplate, ValidationError>)
    requires HasRequiredFields(b)
    ensures r.Success? <==> Trim(b.name.value) != "" && Trim(b.subject.value) != "" && Trim(b.body.value) != "" &&
                            CastPlaceholders(b.placeholders.GetOr([])).Success?
    ensures r.Success? ==> ValidStored(r.value) &&
                           r.value.name == Trim(b.name.value) && r.value.subject == Trim(b.subject.value) &&
                           r.value.body == Trim(b.body.value) && r.value.userId == uid && r.value.oid == env.freshId &&
                           r.value.createdAt == env.now && r.value.updatedAt == env.now &&
                           CastPlaceholders(b.placeholders.GetOr([])) == Success(r.value.placeholders)
    ensures r.Success? && b.placeholders.None? ==> r.value.placeholders == []
  {
    BuildDocument(env.freshId, Trim(b.name.value), Trim(b.subject.value), Trim(b.body.value),
                  b.placeholders.GetOr([]), uid, env.now)
  }

  /** `handler`. */
  function Handle(req: Request, env: Env): (r: Outcome)
    ensures !env.connected ==> r == Crashed(env.store)
    ensures env.connected && !Present(req.email) ==> r == Fail(401, "Unauthorized", env.store)
    ensures env.connected && Present(req.email) && !env.usersUp ==> r == Crashed(env.store)
    ensures env.connected && Present(req.email) && env.usersUp && req.email.value !in env.users ==>
              r == Fail(401, "User not found", env.store)
    ensures Authorized(req, env) && req.verb == "GET" ==>
              var uid := env.users[req.email.value];
              (env.storeUp ==> r == Outcome(Response(200, Many(ToJsonAll(Listing(env.store, uid))), []), env.store)) &&
              (!env.storeUp ==> r == Fail(500, "Failed to fetch templates", env.store))
    ensures Authorized(req, env) && req.verb == "POST" && !HasRequiredFields(req.body) ==>
              r == Fail(400, "Missing required fields", env.store)
    ensures Authorized(req, env) && req.verb == "POST" && HasRequiredFields(req.body) ==>
              var built := NewDocument(req.body, env.users[req.email.value], env);
              (built.Success? && env.storeUp ==>
                 r == Outcome(Response(201, One(ToJson(built.value)), []), env.store + [built.value])) &&
              (!(built.Success? && env.storeUp) ==> r == Fail(500, "Failed to create template", env.store))
    ensures Authorized(req, env) && req.verb != "GET" && req.verb != "POST" ==>
              r == Outcome(Response(405, ErrorReply("Method not allowed"), ["GET", "POST"]), env.store)
  {
    if !env.connected then Crashed(env.store)
    else if !Present(req.email) then Fail(401, "Unauthorized", env.store)
    else if !env.usersUp then Crashed(env.store)
    else if req.email.value !in env.users then Fail(401, "User not found", env.store)
    else
      var uid := env.users[req.email.value];
      if req.verb == "GET" then
        if env.storeUp then Outcome(Response(200, Many(ToJsonAll(Listing(env.store, uid))), []), env.store)
        else Fail(500, "Failed to fetch templates", env.store)
      else if req.verb == "POST" then
        if !HasRequiredFields(req.body) then Fail(400, "Missing required fields", env.store)
        else
          match NewDocument(req.body, uid, env)
          case Success(d) =>
            if env.storeUp then Outcome(Response(201, One(ToJson(d)), []), env.store + [d])
            else Fail(500, "Failed to create template", env.store)
          case Failure(_) => Fail(500, "Failed to create template", env.store)
      else Outcome(Response(405, ErrorReply("Method not allowed"), ["GET", "POST"]), env.store)
  }

  // ---------------------------------------------------------- properties

  /** Only a 201 changes the store, and then by appending one document. */
  lemma OnlyCreatedWrites(req: Request, env: Env)
    ensures var r := Handle(req, env);
            r.store == env.store || (r.response.status == 201 && |r.store| == |env.store| + 1 && r.store[..|env.store|] == env.store)
  {
    var r := Handle(req, env);
    if r.store != env.store {
      assert r.store[..|env.store|] == env.store;
    }
  }

  predicate AllStoredValid(store: seq<StoredTemplate>) {
    forall i :: 0 <= i < |store| ==> ValidStored(store[i])
  }

  /** Every document the route stores passes the schema. */
  lemma StoreStaysValid(req: Request, env: Env)
    requires AllStoredValid(env.store)
    ensures AllStoredValid(Handle(req, env).store)
  {
    var r := Handle(req, env);
    if Authorized(req, env) && req.verb == "POST" && HasRequiredFields(req.body) &&
       NewDocument(req.body, env.users[req.email.value], env).Success? && env.storeUp {
      var d := NewDocument(req.body, env.users[req.email.value], env).value;
      assert r.store == env.store + [d];
      assert ValidStored(d);
    } else {
      assert r.store == env.store;
    }
  }

  /** A created document holds the request's fields trimmed, so a second
      trim changes nothing, and it belongs to the caller. */
  lemma CreatedIsTrimmed(req: Request, env: Env)
    requires Handle(req, env).response.status == 201
    ensures var d := Handle(req, env).store[|env.store|];
            Authorized(req, env) && HasRequiredFields(req.body) &&
            d.name == Trim(req.body.name.value) && Trim(d.name) == d.name &&
            d.subject == Trim(req.body.subject.value) && Trim(d.subject) == d.subject &&
            d.body == Trim(req.body.body.value) && Trim(d.body) == d.body &&
            d.userId == env.users[req.email.value] && d.oid == env.freshId
  {
    TrimIdempotent(req.body.name.value);
    TrimIdempotent(req.body.subject.value);
    TrimIdempotent(req.body.body.value);
  }

  /** A name of spaces passes the 400 check, is trimmed to "" and is
      refused by the schema: the response is 500, not 400. */
  lemma BlankNameIsServerError(env: Env, email: string)
    requires env.connected && env.usersUp && email != "" && email in env.users
    ensures var b := PostBody(Some("  "), Some("Hi"), Some("<p>x</p>"), None);
            Handle(Request("POST", Some(email), b), env) == Fail(500, "Failed to create template", env.store)
  {
    var b := PostBody(Some("  "), Some("Hi"), Some("<p>x</p>"), None);
    assert Trim("  ") == "" by {
      assert AllWhitespace("  ");
    }
    var req := Request("POST", Some(email), b);
    assert Authorized(req, env) && HasRequiredFields(b);
    assert NewDocument(b, env.users[email], env).Failure?;
    assert req.verb == "POST";
  }

  /** A GET lists only the caller's documents, newest first, each with
      its string id and owner. */
  lemma ListingOwnerScoped(req: Request, env: Env)
    requires Authorized(req, env) && req.verb == "GET" && env.storeUp
    ensures var ts := Handle(req, env).response.reply.templates;
            var uid := env.users[req.email.value];
            forall i :: 0 <= i < |ts| ==> ts[i].userId == IdString(uid) && FromHex(ts[i].id) < Pow16(IdDigits)
    ensures var ts := Handle(req, env).response.reply.templates;
            forall i, j :: 0 <= i < j < |ts| ==> ts[i].updatedAt >= ts[j].updatedAt
  {
  }

  /** A template created by a user is listed by that user's next GET. */
  lemma CreatedThenListed(post: Request, env: Env)
    requires Handle(post, env).response.status == 201
    ensures var r := Handle(post, env);
            var get := Request("GET", post.email, post.body);
            var after := Handle(get, env.(store := r.store));
            after.response.status == 200 && r.response.reply.template in after.response.reply.templates
  {
    var r := Handle(post, env);
    var uid := env.users[post.email.value];
    var d := r.store[|env.store|];
    assert d in r.store;
    ListingMembership(r.store, uid, d);
    var listed := Listing(r.store, uid);
    var k :| 0 <= k < |listed| && listed[k] == d;
    assert ToJsonAll(listed)[k] == ToJson(d);
  }
}
