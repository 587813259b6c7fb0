/** `fillPlaceholders` of `components/email-referral-tool.tsx`: the runtime
    placeholders are applied one after another, in list order, each
    replacing every `{key}` token of the text by its value, or by the token
    itself when the value is empty. */
module Renderer {
  import opened Wrappers
  import opened Text
  import opened TemplateModel

  /** A runtime placeholder of the composition session. */
  datatype Placeholder = Placeholder(key: string, value: string, ptype: PlaceholderType)

  /** The token `{key}` that stands for a placeholder in a text. */
  function Token(key: string): (t: string)
    ensures |t| == |key| + 2 && t[0] == '{' && t[|t| - 1] == '}'
    ensures t[1..|t| - 1] == key
  {
    "{" + key + "}"
  }

  /** Tokens of brace-free keys never overlap one another. */
  lemma TokenHeadUnique(key: string)
    requires '{' !in key
    ensures HeadUnique(Token(key))
  {
    var t := Token(key);
    forall j | 0 < j < |t|
      ensures t[j] != t[0]
    {
      if j < |t| - 1 {
        assert t[j] == key[j - 1];
      }
    }
  }

  /** `p.value || "{key}"`: an empty value is replaced by the token itself. */
  function Replacement(p: Placeholder): string {
    if p.value == "" then Token(p.key) else p.value
  }

  /** One iteration of the fold: the global replacement for one placeholder. */
  function Step(text: string, p: Placeholder): string {
    ReplaceAll(text, Token(p.key), Replacement(p))
  }

  /** A step leaves the text alone when the value is empty or the token is absent. */
  lemma StepUnchanged(text: string, p: Placeholder)
    ensures p.value == "" || !Contains(text, Token(p.key)) ==> Step(text, p) == text
  {
    if p.value == "" {
      ReplaceAllSelf(text, Token(p.key));
    } else if !Contains(text, Token(p.key)) {
      ReplaceAllAbsent(text, Token(p.key), p.value);
    }
  }

  /** The rendered text. Unfilled placeholders and keys that do not occur
      leave the text as it was. */
  function Fill(text: string, ps: seq<Placeholder>): (r: string)
    ensures (forall i :: 0 <= i < |ps| ==> ps[i].value == "") ==> r == text
    ensures (forall i :: 0 <= i < |ps| ==> !Contains(text, Token(ps[i].key))) ==> r == text
    decreases |ps|
  {
    if |ps| == 0 then text
    else
      StepUnchanged(text, ps[0]);
      Fill(Step(text, ps[0]), ps[1..])
  }

  /** The fold runs in list order: the last placeholder is applied last. */
  lemma {:induction false} FillSnoc(text: string, ps: seq<Placeholder>, p: Placeholder)
    ensures Fill(text, ps + [p]) == Step(Fill(text, ps), p)
    decreases |ps|
  {
    if |ps| == 0 {
      assert [p][1..] == [];
    } else {
      assert (ps + [p])[1..] == ps[1..] + [p];
      FillSnoc(Step(text, ps[0]), ps[1..], p);
    }
  }

  /** A lone token renders to the value, or stays itself when the value is empty. */
  lemma FillSingleToken(key: string, value: string, t: PlaceholderType)
    ensures Fill(Token(key), [Placeholder(key, value, t)]) == (if value == "" then Token(key) else value)
  {
    var p := Placeholder(key, value, t);
    var tok := Token(key);
    assert StartsWith(tok, tok);
    assert tok[|tok|..] == "";
    assert Step(tok, p) == Replacement(p) + ReplaceAll("", tok, Replacement(p));
  }

  /** Every occurrence of a placeholder's token is replaced: a token between
      two token-free pieces of text becomes the replacement. */
  lemma FillReplacesToken(a: string, b: string, p: Placeholder)
    requires '{' !in p.key
    requires !Contains(a, Token(p.key)) && !Contains(b, Token(p.key))
    ensures Fill(a + Token(p.key) + b, [p]) == a + Replacement(p) + b
  {
    var tok := Token(p.key);
    TokenHeadUnique(p.key);
    ReplaceAllAround(a, tok, b, Replacement(p));
    ReplaceAllAbsent(a, tok, Replacement(p));
    ReplaceAllAbsent(b, tok, Replacement(p));
  }

  /** Substitution is sequential, not simultaneous: a value holding a later
      placeholder's token is expanded again by that later placeholder. */
  lemma SequentialNotSimultaneous()
    ensures Fill("{a}", [Placeholder("a", "{b}", Text), Placeholder("b", "x", Text)]) == "x"
  {
    var pa := Placeholder("a", "{b}", Text);
    var pb := Placeholder("b", "x", Text);
    assert Token("a") == "{a}" && Token("b") == "{b}";
    FillSingleToken("a", "{b}", Text);
    FillSingleToken("b", "x", Text);
    FillSnoc("{a}", [pa], pb);
    assert [pa] + [pb] == [pa, pb];
    assert Fill("{b}", [pb]) == Step("{b}", pb);
  }

  /** Rendering is not idempotent even when no value holds a token: the
      replacement can complete a token out of the surrounding text. */
  lemma RenderNotIdempotent()
    ensures Fill("{a{ab}}", [Placeholder("ab", "b", Text)]) == "{ab}"
    ensures Fill("{ab}", [Placeholder("ab", "b", Text)]) == "b"
  {
    var p := Placeholder("ab", "b", Text);
    assert Token("ab") == "{ab}";
    assert "{a{ab}}" == "{a" + Token("ab") + "}";
    assert !Contains("{a", "{ab}");
    assert !Contains("}", "{ab}");
    FillReplacesToken("{a", "}", p);
    FillSingleToken("ab", "b", Text);
  }

  // ------------------------------------------------------------------
  // The renderer as written builds `new RegExp(`{${p.key}}`, "g")`.

  predicate DigitsOnly(key: string) {
    |key| > 0 && forall i :: 0 <= i < |key| ==> IsDigit(key[i])
  }

  datatype RenderError = InvalidRegExp(source: string)

  /** The keys the placeholder editor produces: sanitised to `[A-Za-z0-9]`. */
  predicate AlnumKeys(ps: seq<Placeholder>) {
    forall i :: 0 <= i < |ps| ==> AllAlnum(ps[i].key)
  }

  /** No key is made of digits alone, so every pattern compiles. */
  predicate NoDigitKeys(ps: seq<Placeholder>) {
    forall i :: 0 <= i < |ps| ==> !DigitsOnly(ps[i].key)
  }

  /** `new RegExp("{" + key + "}")` for an alphanumeric key. Digits alone
      make the braced quantifier `{n}` with nothing to repeat, which is a
      SyntaxError; any other alphanumeric key (the empty one included) gives
      a pattern matching only the literal token. */
  function CompileToken(key: string): (r: Result<string, RenderError>)
    requires AllAlnum(key)
    ensures r.Success? <==> !DigitsOnly(key)
    ensures r.Success? ==> r.value == Token(key)
    ensures r.Failure? ==> r.error == InvalidRegExp(Token(key))
  {
    if DigitsOnly(key) then Failure(InvalidRegExp(Token(key))) else Success(Token(key))
  }

  /** `e` is the error for the first digits-only key of the list: that key
      is digits-only and no earlier one is. */
  predicate FirstDigitKey(ps: seq<Placeholder>, e: RenderError) {
    exists i :: 0 <= i < |ps| && DigitsOnly(ps[i].key) && e == InvalidRegExp(Token(ps[i].key)) &&
                forall j :: 0 <= j < i ==> !DigitsOnly(ps[j].key)
  }

  lemma FirstDigitKeyTail(ps: seq<Placeholder>, e: RenderError)
    requires |ps| > 0 && !DigitsOnly(ps[0].key) && FirstDigitKey(ps[1..], e)
    ensures FirstDigitKey(ps, e)
  {
    var k :| 0 <= k < |ps[1..]| && DigitsOnly(ps[1..][k].key) && e == InvalidRegExp(Token(ps[1..][k].key)) &&
             forall j :: 0 <= j < k ==> !DigitsOnly(ps[1..][j].key);
    assert ps[k + 1] == ps[1..][k];
    forall j | 0 <= j < k + 1
      ensures !DigitsOnly(ps[j].key)
    {
      if j > 0 { assert ps[j] == ps[1..][j - 1]; }
    }
  }

  lemma NoDigitKeysTail(ps: seq<Placeholder>)
    requires |ps| > 0
    ensures (forall i :: 0 <= i < |ps| ==> !DigitsOnly(ps[i].key)) <==>
            !DigitsOnly(ps[0].key) && forall i :: 0 <= i < |ps[1..]| ==> !DigitsOnly(ps[1..][i].key)
  {
    assert forall i :: 0 <= i < |ps[1..]| ==> ps[1..][i] == ps[i + 1];
  }

  /** `fillPlaceholders` as written: the fold throws at the first
      placeholder whose pattern does not compile, in list order. */
  function FillAsWritten(text: string, ps: seq<Placeholder>): (r: Result<string, RenderError>)
    requires AlnumKeys(ps)
    ensures r.Success? <==> NoDigitKeys(ps)
    ensures r.Success? ==> r.value == Fill(text, ps)
    ensures r.Failure? ==> FirstDigitKey(ps, r.error)
    decreases |ps|
  {
    if |ps| == 0 then Success(text)
    else
      NoDigitKeysTail(ps);
      var head := CompileToken(ps[0].key);
      if head.Failure? then
        assert DigitsOnly(ps[0].key) && head.error == InvalidRegExp(Token(ps[0].key));
        Failure(head.error)
      else
        var r := FillAsWritten(Step(text, ps[0]), ps[1..]);
        if r.Failure? then
          FirstDigitKeyTail(ps, r.error);
          r
        else
          r
  }

  /** A digits-only key such as `123` (which the placeholder editor accepts)
      makes rendering throw, where a literal replacement renders it. */
  lemma DigitKeyBreaksRendering()
    ensures FillAsWritten("{123}", [Placeholder("123", "5", Number)]) == Failure(InvalidRegExp("{123}"))
    ensures Fill("{123}", [Placeholder("123", "5", Number)]) == "5"
  {
    assert DigitsOnly("123") by {
      assert IsDigit("123"[0]) && IsDigit("123"[1]) && IsDigit("123"[2]);
    }
    assert Token("123") == "{123}";
    FillSingleToken("123", "5", Number);
  }
}
