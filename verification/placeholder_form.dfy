/** `components/placeholder-form.tsx`: one input field per runtime
    placeholder, labelled and typed from the template's definition with
    that key, falling back to the key and to `text`. */
module PlaceholderForm {
  import opened Wrappers
  import opened TemplateModel
  import opened Renderer

  /** What the form shows for one placeholder. */
  datatype Field = Field(key: string, caption: string, inputType: PlaceholderType, value: string)

  /** `templatePlaceholders.find(tp => tp.key === key)`: the first
      definition with that key, if any. */
  function FindDefinition(defs: seq<PlaceholderDefinition>, key: string): (r: Option<PlaceholderDefinition>)
    ensures r.None? <==> forall i :: 0 <= i < |defs| ==> defs[i].key != key
    ensures r.Some? ==> exists i :: 0 <= i < |defs| && defs[i] == r.value && defs[i].key == key &&
                                    forall j :: 0 <= j < i ==> defs[j].key != key
    decreases |defs|
  {
    if |defs| == 0 then None
    else if defs[0].key == key then Some(defs[0])
    else
      var r := FindDefinition(defs[1..], key);
      assert r.Some? ==> exists i :: 0 <= i < |defs| && defs[i] == r.value && defs[i].key == key &&
                                     forall j :: 0 <= j < i ==> defs[j].key != key by {
        if r.Some? {
          var i :| 0 <= i < |defs[1..]| && defs[1..][i] == r.value && defs[1..][i].key == key &&
                   forall j :: 0 <= j < i ==> defs[1..][j].key != key;
          assert defs[i + 1] == defs[1..][i];
          assert forall j :: 1 <= j < i + 1 ==> defs[j] == defs[1..][j - 1];
        }
      }
      r
  }

  /** The field for one placeholder: `definition?.label || key` as the
      caption and `definition?.type || "text"` as the input type. */
  function FieldFor(p: Placeholder, defs: seq<PlaceholderDefinition>): (f: Field)
    ensures f.key == p.key && f.value == p.value
    ensures FindDefinition(defs, p.key).None? ==> f.caption == p.key && f.inputType == Text
    ensures FindDefinition(defs, p.key).Some? ==>
              f.inputType == FindDefinition(defs, p.key).value.ptype &&
              f.caption == (if FindDefinition(defs, p.key).value.labelText == "" then p.key
                            else FindDefinition(defs, p.key).value.labelText)
  {
    match FindDefinition(defs, p.key)
    case None => Field(p.key, p.key, Text, p.value)
    case Some(d) => Field(p.key, if d.labelText != "" then d.labelText else p.key, d.ptype, p.value)
  }

  /** The rendered form: exactly one field per placeholder, in list order. */
  function Fields(ps: seq<Placeholder>, defs: seq<PlaceholderDefinition>): (fs: seq<Field>)
    ensures |fs| == |ps|
    ensures forall i :: 0 <= i < |ps| ==> fs[i] == FieldFor(ps[i], defs)
    decreases |ps|
  {
    if |ps| == 0 then [] else [FieldFor(ps[0], defs)] + Fields(ps[1..], defs)
  }

  /** Typing `value` into field `i` of the form for `ps` reports the key
      of placeholder `i`, the one the field is drawn for, with the new
      value. */
  function OnFieldEdit(ps: seq<Placeholder>, defs: seq<PlaceholderDefinition>, i: nat, value: string): (change: (string, string))
    requires i < |ps|
    ensures change == (ps[i].key, value)
  {
    (Fields(ps, defs)[i].key, value)
  }
}
