/** The records of `models/Template.ts` and of the client-side types that
    mirror them: placeholder definitions, the template a client holds, the
    stored MongoDB document, and the schema validation run on save. */
module TemplateModel {
  import opened Wrappers
  import opened ObjectIds

  /** The schema's `type` enum for a placeholder. */
  datatype PlaceholderType = Text | Email | Number

  function TypeName(t: PlaceholderType): string {
    match t
    case Text => "text"
    case Email => "email"
    case Number => "number"
  }

  /** A placeholder definition attached to a template. */
  datatype PlaceholderDefinition = PlaceholderDefinition(key: string, labelText: string, ptype: PlaceholderType)

  /** The template record a client holds; `placeholders` is optional. */
  datatype Template = Template(
    id: string,
    name: string,
    subject: string,
    body: string,
    placeholders: Option<seq<PlaceholderDefinition>>)

  /** The definitions of a client template, `[]` when it has none. */
  function DefinitionsOf(t: Template): seq<PlaceholderDefinition> {
    t.placeholders.GetOr([])
  }

  /** The stored document; `createdAt`/`updatedAt` come from the schema's
      `timestamps` option. */
  datatype StoredTemplate = StoredTemplate(
    oid: ObjectId,
    name: string,
    subject: string,
    body: string,
    placeholders: seq<PlaceholderDefinition>,
    userId: ObjectId,
    createdAt: int,
    updatedAt: int)

  /** A placeholder subdocument as it arrives before casting: every path
      may be absent. */
  datatype RawPlaceholder = RawPlaceholder(key: Option<string>, labelText: Option<string>, ptype: Option<string>)

  /** The reason a document fails validation: a required path that is
      absent or the empty string, or a value outside an enum. */
  datatype ValidationError = Required(path: string) | NotInEnum(path: string, value: string)

  /** A required String path holds a non-empty string. */
  predicate Present(v: Option<string>) {
    v.Some? && v.value != ""
  }

  predicate ValidDefinition(d: PlaceholderDefinition) {
    d.key != "" && d.labelText != ""
  }

  /** What the schema guarantees of every stored document. */
  predicate ValidStored(t: StoredTemplate) {
    t.name != "" && t.subject != "" && t.body != "" &&
    forall i :: 0 <= i < |t.placeholders| ==> ValidDefinition(t.placeholders[i])
  }

  /** The `type` path: absent means the default `text`; a present value
      must be one of the enum's names. */
  function CastType(v: Option<string>): (r: Result<PlaceholderType, ValidationError>)
    ensures v.None? ==> r == Success(Text)
    ensures v.Some? ==> (r.Success? <==> v.value in ["text", "email", "number"])
    ensures v.Some? && r.Success? ==> TypeName(r.value) == v.value
  {
    match v
    case None => Success(Text)
    case Some(s) =>
      if s == "text" then Success(Text)
      else if s == "email" then Success(Email)
      else if s == "number" then Success(Number)
      else Failure(NotInEnum("type", s))
  }

  /** Casting and validating one placeholder subdocument. */
  function CastPlaceholder(raw: RawPlaceholder): (r: Result<PlaceholderDefinition, ValidationError>)
    ensures r.Success? <==> Present(raw.key) && Present(raw.labelText) && CastType(raw.ptype).Success?
    ensures r.Success? ==> ValidDefinition(r.value) &&
                           r.value.key == raw.key.value && r.value.labelText == raw.labelText.value
  {
    if !Present(raw.key) then Failure(Required("key"))
    else if !Present(raw.labelText) then Failure(Required("label"))
    else
      match CastType(raw.ptype)
      case Failure(e) => Failure(e)
      case Success(t) => Success(PlaceholderDefinition(raw.key.value, raw.labelText.value, t))
  }

  /** Casting the `placeholders` array: it succeeds exactly when every
      element does, and keeps the order. */
  function CastPlaceholders(raws: seq<RawPlaceholder>): (r: Result<seq<PlaceholderDefinition>, ValidationError>)
    ensures r.Success? <==> forall i :: 0 <= i < |raws| ==> CastPlaceholder(raws[i]).Success?
    ensures r.Success? ==> |r.value| == |raws| &&
                           forall i :: 0 <= i < |raws| ==> CastPlaceholder(raws[i]) == Success(r.value[i])
    decreases |raws|
  {
    if |raws| == 0 then Success([])
    else
      match CastPlaceholder(raws[0])
      case Failure(e) => Failure(e)
      case Success(d) =>
        match CastPlaceholders(raws[1..])
        case Failure(e) => Failure(e)
        case Success(ds) => Success([d] + ds)
  }

  /** How a client serialises a definition into a request body. */
  function ToRaw(d: PlaceholderDefinition): RawPlaceholder {
    RawPlaceholder(Some(d.key), Some(d.labelText), Some(TypeName(d.ptype)))
  }

  /** A valid definition survives the round trip through a request body. */
  lemma CastToRaw(d: PlaceholderDefinition)
    requires ValidDefinition(d)
    ensures CastPlaceholder(ToRaw(d)) == Success(d)
  {
  }

  /** A definition with an empty key or label is refused by the schema. */
  lemma CastRejectsInvalid(d: PlaceholderDefinition)
    requires !ValidDefinition(d)
    ensures CastPlaceholder(ToRaw(d)).Failure?
  {
  }

  /** Building and validating a new document, as `new Template(...)`
      followed by `save()` does. Timestamps are both set to `now`. */
  function BuildDocument(
    oid: ObjectId, name: string, subject: string, body: string,
    raws: seq<RawPlaceholder>, userId: ObjectId, now: int): (r: Result<StoredTemplate, ValidationError>)
    ensures r.Success? <==> name != "" && subject != "" && body != "" && CastPlaceholders(raws).Success?
    ensures r.Success? ==> ValidStored(r.value)
    ensures r.Success? ==> r.value.oid == oid && r.value.name == name && r.value.subject == subject &&
                           r.value.body == body && r.value.userId == userId &&
                           r.value.createdAt == now && r.value.updatedAt == now &&
                           CastPlaceholders(raws) == Success(r.value.placeholders)
  {
    if name == "" then Failure(Required("name"))
    else if subject == "" then Failure(Required("subject"))
    else if body == "" then Failure(Required("body"))
    else
      match CastPlaceholders(raws)
      case Failure(e) => Failure(e)
      case Success(ds) => Success(StoredTemplate(oid, name, subject, body, ds, userId, now, now))
  }
}
