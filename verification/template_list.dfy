/** `components/template-list-selector.tsx`: the modal that lists the
    caller's templates for editing and narrows them by a search query. */
module TemplateList {
  import opened Wrappers
  import opened Text
  import opened Seqs
  import opened TemplateModel

  /** The selector's state: the fetched templates, the loading flag and
      the search box. */
  datatype Selector = Selector(templates: seq<Template>, loading: bool, query: string)

  /** The state on opening, before the fetch completes. */
  const Opened: Selector := Selector([], true, "")

  /** The name contains the query, both lower-cased: the lower-cased
      query occurs somewhere in the lower-cased name. */
  predicate NameMatches(t: Template, query: string): (b: bool)
    ensures b <==> exists i :: OccursAt(ToLowerAscii(t.name), ToLowerAscii(query), i)
  {
    NameOccurs(t, query);
    Contains(ToLowerAscii(t.name), ToLowerAscii(query))
  }

  lemma NameOccurs(t: Template, query: string)
    ensures Contains(ToLowerAscii(t.name), ToLowerAscii(query)) <==>
            exists i :: OccursAt(ToLowerAscii(t.name), ToLowerAscii(query), i)
  {
    ContainsIffOccurs(ToLowerAscii(t.name), ToLowerAscii(query));
  }

  /** `filteredTemplates`: the templates whose name matches, in order. */
  function Filtered(templates: seq<Template>, query: string): (r: seq<Template>)
    ensures IsSubsequence(r, templates)
    ensures |r| <= |templates|
  {
    var r := Filter(templates, t => NameMatches(t, query));
    SubsequenceLength(r, templates);
    r
  }

  /** A template is listed exactly when it was loaded and its name matches. */
  lemma FilteredMembership(templates: seq<Template>, query: string, t: Template)
    ensures t in Filtered(templates, query) <==> t in templates && NameMatches(t, query)
  {
    FilterMembership(templates, t => NameMatches(t, query), t);
  }

  /** Every occurrence of a matching template is kept, and none other. */
  lemma FilteredCounts(templates: seq<Template>, query: string, t: Template)
    ensures multiset(Filtered(templates, query))[t] == if NameMatches(t, query) then multiset(templates)[t] else 0
  {
  }

  /** The empty query lists everything: every string contains "". */
  lemma EmptyQueryListsAll(templates: seq<Template>)
    ensures Filtered(templates, "") == templates
  {
    var p := (t: Template) => NameMatches(t, "");
    forall i | 0 <= i < |templates|
      ensures p(templates[i])
    {
      assert ToLowerAscii("") == "";
      assert StartsWith(ToLowerAscii(templates[i].name), "");
    }
    FilterAll(templates, p);
  }

  /** Two queries that lower-case alike list the same templates; in
      particular the query's own case never matters. */
  lemma QueryCaseIrrelevant(templates: seq<Template>, q1: string, q2: string)
    requires ToLowerAscii(q1) == ToLowerAscii(q2)
    ensures Filtered(templates, q1) == Filtered(templates, q2)
  {
    FilterCongruent(templates, t => NameMatches(t, q1), t => NameMatches(t, q2));
  }

  /** The end of the fetch: a list on success, nothing on failure (a non-ok
      response, a network error or an unreadable body); loading ends
      either way. */
  function LoadFinished(s: Selector, fetched: Option<seq<Template>>): (r: Selector)
    ensures !r.loading && r.query == s.query
    ensures fetched.Some? ==> r.templates == fetched.value
    ensures fetched.None? ==> r.templates == s.templates
  {
    match fetched
    case Some(ts) => s.(templates := ts, loading := false)
    case None => s.(loading := false)
  }

  /** A failed fetch keeps what is listed for every query; a successful
      one lists a template exactly when it was fetched and matches. */
  lemma LoadFinishedListing(s: Selector, fetched: Option<seq<Template>>, q: string, t: Template)
    ensures fetched.None? ==> Filtered(LoadFinished(s, fetched).templates, q) == Filtered(s.templates, q)
    ensures fetched.Some? ==>
              (t in Filtered(LoadFinished(s, fetched).templates, q) <==> t in fetched.value && NameMatches(t, q))
  {
    FilteredMembership(LoadFinished(s, fetched).templates, q, t);
  }

  /** A failed fetch on opening leaves an empty list, not loading, and so
      nothing to choose whatever the query. */
  lemma FailedLoadListsNothing(query: string)
    ensures var r := LoadFinished(Opened.(query := query), None);
            r.templates == [] && !r.loading && Filtered(r.templates, r.query) == []
  {
  }
}
