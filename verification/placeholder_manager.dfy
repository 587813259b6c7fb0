/** `components/placeholder-manager.tsx`: the ordered list of placeholder
    definitions a template author edits, with a draft row for the next
    definition. Keys are sanitised to `[A-Za-z0-9]` and kept unique. */
module PlaceholderManager {
  import opened Text
  import opened Seqs
  import opened TemplateModel

  /** The draft row (`newPlaceholder`). */
  datatype Draft = Draft(key: string, labelText: string, ptype: PlaceholderType)

  /** The draft after a successful add, and initially. */
  const EmptyDraft := Draft("", "", Text)

  /** The list being edited together with the draft row. */
  datatype Editor = Editor(defs: seq<PlaceholderDefinition>, draft: Draft)

  /** `key.replace(/[^a-zA-Z0-9]/g, "")`: the alphanumeric characters of
      the raw key, in their order, each as often as it occurs there, and
      nothing else. */
  function SanitizeKey(raw: string): (r: string)
    ensures IsSubsequence(r, raw)
    ensures forall c {:trigger multiset(r)[c]} :: multiset(r)[c] == if IsAlnum(c) then multiset(raw)[c] else 0
    decreases |raw|
  {
    if |raw| == 0 then ""
    else
      var rest := SanitizeKey(raw[1..]);
      assert raw == [raw[0]] + raw[1..];
      if IsAlnum(raw[0]) then
        assert ([raw[0]] + rest)[1..] == rest;
        [raw[0]] + rest
      else rest
  }

  /** A sanitised key is alphanumeric and no longer than the raw one, and
      an alphanumeric key is kept as it is. */
  lemma {:induction false} SanitizeKeyAlnum(raw: string)
    ensures AllAlnum(SanitizeKey(raw))
    ensures |SanitizeKey(raw)| <= |raw|
    ensures AllAlnum(raw) ==> SanitizeKey(raw) == raw
    decreases |raw|
  {
    if |raw| > 0 {
      SanitizeKeyAlnum(raw[1..]);
      assert raw == [raw[0]] + raw[1..];
    }
  }

  /** Sanitising works character by character: it distributes over
      concatenation, keeping exactly the alphanumeric characters. */
  lemma {:induction false} SanitizeConcat(a: string, b: string)
    ensures SanitizeKey(a + b) == SanitizeKey(a) + SanitizeKey(b)
    decreases |a|
  {
    if |a| > 0 {
      assert (a + b)[1..] == a[1..] + b;
      SanitizeConcat(a[1..], b);
    } else {
      assert a + b == b;
    }
  }

  predicate HasKey(defs: seq<PlaceholderDefinition>, key: string) {
    exists i :: 0 <= i < |defs| && defs[i].key == key
  }

  predicate DistinctKeys(defs: seq<PlaceholderDefinition>) {
    forall i, j :: 0 <= i < j < |defs| ==> defs[i].key != defs[j].key
  }

  predicate AllValid(defs: seq<PlaceholderDefinition>) {
    forall i :: 0 <= i < |defs| ==> ValidDefinition(defs[i])
  }

  /** `addPlaceholder`: a no-op when the raw key or the label is empty or
      when the sanitised key is taken; otherwise the definition is appended
      and the draft is reset. Keys stay pairwise distinct. */
  function AddPlaceholder(e: Editor): (r: Editor)
    ensures e.draft.key == "" || e.draft.labelText == "" ==> r == e
    ensures HasKey(e.defs, SanitizeKey(e.draft.key)) ==> r == e
    ensures r != e ==> r.defs == e.defs + [PlaceholderDefinition(SanitizeKey(e.draft.key), e.draft.labelText, e.draft.ptype)] &&
                       r.draft == EmptyDraft
    ensures e.draft.key != "" && e.draft.labelText != "" && !HasKey(e.defs, SanitizeKey(e.draft.key)) ==> r != e
    ensures DistinctKeys(e.defs) ==> DistinctKeys(r.defs)
  {
    if e.draft.key == "" || e.draft.labelText == "" then e
    else
      var key := SanitizeKey(e.draft.key);
      if HasKey(e.defs, key) then e
      else
        var defs' := e.defs + [PlaceholderDefinition(key, e.draft.labelText, e.draft.ptype)];
        assert |defs'| > |e.defs|;
        Editor(defs', EmptyDraft)
  }

  /** `removePlaceholder(index)`: exactly the entry at `index` goes, the
      others keep their order; an index outside the list changes nothing. */
  function RemovePlaceholder(defs: seq<PlaceholderDefinition>, index: int): (r: seq<PlaceholderDefinition>)
    ensures 0 <= index < |defs| ==> r == defs[..index] + defs[index + 1..]
    ensures !(0 <= index < |defs|) ==> r == defs
    decreases |defs|
  {
    if |defs| == 0 then []
    else if index == 0 then defs[1..]
    else
      var rest := RemovePlaceholder(defs[1..], index - 1);
      assert 0 < index < |defs| ==> [defs[0]] + defs[1..][..index - 1] == defs[..index];
      assert !(0 <= index < |defs|) ==> [defs[0]] + defs[1..] == defs;
      [defs[0]] + rest
  }

  /** Where an entry of the shortened list comes from. */
  lemma RemovedIndex(defs: seq<PlaceholderDefinition>, index: int, i: int)
    requires 0 <= index < |defs| && 0 <= i < |defs| - 1
    ensures RemovePlaceholder(defs, index)[i] == defs[if i < index then i else i + 1]
  {
    var r := RemovePlaceholder(defs, index);
    assert r == defs[..index] + defs[index + 1..];
  }

  /** Removing an entry keeps the keys pairwise distinct and shortens the
      list by one exactly when the index is in range. */
  lemma RemovePreservesDistinct(defs: seq<PlaceholderDefinition>, index: int)
    requires DistinctKeys(defs)
    ensures DistinctKeys(RemovePlaceholder(defs, index))
    ensures |RemovePlaceholder(defs, index)| == (if 0 <= index < |defs| then |defs| - 1 else |defs|)
  {
    var r := RemovePlaceholder(defs, index);
    if 0 <= index < |defs| {
      forall i, j | 0 <= i < j < |r|
        ensures r[i].key != r[j].key
      {
        RemovedIndex(defs, index, i);
        RemovedIndex(defs, index, j);
      }
    }
  }

  /** A separator between two alphanumeric words is dropped. */
  lemma DropSeparator(x: string, c: char, y: string)
    requires AllAlnum(x) && AllAlnum(y) && !IsAlnum(c)
    ensures SanitizeKey(x + [c] + y) == x + y
  {
    SanitizeConcat(x + [c], y);
    SanitizeConcat(x, [c]);
    SanitizeKeyAlnum(x);
    SanitizeKeyAlnum(y);
    assert SanitizeKey([c]) == [] + SanitizeKey([c][1..]);
  }

  /** `First Name` and `First-Name` both sanitise to `FirstName`. */
  lemma SanitizeExamples()
    ensures SanitizeKey("First Name") == "FirstName"
    ensures SanitizeKey("First-Name") == "FirstName"
  {
    SeparatorDropped(' ');
    SeparatorDropped('-');
    assert "First" + [' '] + "Name" == "First Name";
    assert "First" + ['-'] + "Name" == "First-Name";
  }

  /** `First`, one separator, `Name` sanitises to `FirstName`. */
  lemma SeparatorDropped(c: char)
    requires !IsAlnum(c)
    ensures SanitizeKey("First" + [c] + "Name") == "FirstName"
  {
    assert AllAlnum("First") && AllAlnum("Name");
    DropSeparator("First", c, "Name");
  }

  /** A trailing punctuation mark is dropped too: `First Name!` is
      `FirstName`. */
  lemma TrailingMarkDropped()
    ensures SanitizeKey("First Name!") == "FirstName"
  {
    SanitizeExamples();
    SanitizeConcat("First Name", "!");
    assert SanitizeKey("!") == [] + SanitizeKey("!"[1..]);
    assert "First Name" + "!" == "First Name!";
  }

  /** Two visually different keys collide once sanitised: `First Name` is
      stored as `FirstName`, and a later `First-Name` is refused. */
  lemma SanitizedKeysCollide()
    ensures var e1 := AddPlaceholder(Editor([], Draft("First Name", "First name", Text)));
            var e2 := e1.(draft := Draft("First-Name", "Name", Text));
            e1.defs == [PlaceholderDefinition("FirstName", "First name", Text)] && AddPlaceholder(e2) == e2
  {
    SanitizeExamples();
    var e1 := AddPlaceholder(Editor([], Draft("First Name", "First name", Text)));
    assert e1.defs == [PlaceholderDefinition("FirstName", "First name", Text)];
    var e2 := e1.(draft := Draft("First-Name", "Name", Text));
    assert e2.defs[0].key == SanitizeKey(e2.draft.key);
    assert HasKey(e2.defs, SanitizeKey(e2.draft.key));
  }

  /** The emptiness check looks at the raw key: `!!!` passes it, sanitises
      to the empty key and is stored, giving a definition the schema rejects. */
  lemma PunctuationKeyAccepted()
    ensures AddPlaceholder(Editor([], Draft("!!!", "Name", Text))).defs == [PlaceholderDefinition("", "Name", Text)]
    ensures !ValidDefinition(PlaceholderDefinition("", "Name", Text))
  {
    assert SanitizeKey("!!!") == "";
  }

  /** `addPlaceholder` with the emptiness check applied to the sanitised
      key: every stored definition is one the schema accepts. */
  function AddPlaceholderChecked(e: Editor): (r: Editor)
    ensures SanitizeKey(e.draft.key) == "" || e.draft.labelText == "" ==> r == e
    ensures SanitizeKey(e.draft.key) != "" ==> r == AddPlaceholder(e)
    ensures AllValid(e.defs) ==> AllValid(r.defs)
    ensures DistinctKeys(e.defs) ==> DistinctKeys(r.defs)
  {
    if SanitizeKey(e.draft.key) == "" then e else AddPlaceholder(e)
  }
}
