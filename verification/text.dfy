/** The JavaScript string operations the application relies on, over
    `string` (a sequence of Unicode scalar values): `startsWith`,
    `includes`, a literal global `replace`, `trim`, ASCII `toLowerCase`,
    `Array.prototype.join` and `String.prototype.split` on one character. */
module Text {

  /** `t` occurs in `s` starting at index `i`. */
  predicate OccursAt(s: string, t: string, i: int) {
    0 <= i && i + |t| <= |s| && s[i..i + |t|] == t
  }

  predicate StartsWith(s: string, p: string) {
    |p| <= |s| && s[..|p|] == p
  }

  /** `s.includes(t)`; the empty string is contained in every string. */
  predicate Contains(s: string, t: string)
    decreases |s|
  {
    StartsWith(s, t) || (|s| > 0 && Contains(s[1..], t))
  }

  /** `Contains` agrees with the index-based definition of a substring. */
  lemma {:induction false} ContainsIffOccurs(s: string, t: string)
    ensures Contains(s, t) <==> exists i :: OccursAt(s, t, i)
    decreases |s|
  {
    if StartsWith(s, t) {
      assert OccursAt(s, t, 0);
    } else if |s| > 0 {
      ContainsIffOccurs(s[1..], t);
      if exists i :: OccursAt(s, t, i) {
        var i :| OccursAt(s, t, i);
        assert i > 0;
        assert s[1..][i - 1..i - 1 + |t|] == s[i..i + |t|];
        assert OccursAt(s[1..], t, i - 1);
      }
      if exists j :: OccursAt(s[1..], t, j) {
        var j :| OccursAt(s[1..], t, j);
        assert s[1..][j..j + |t|] == s[j + 1..j + 1 + |t|];
        assert OccursAt(s, t, j + 1);
      }
    }
  }

  /** An occurrence in the left part is an occurrence in the whole. */
  lemma {:induction false} ContainsLeft(a: string, b: string, t: string)
    requires Contains(a, t)
    ensures Contains(a + b, t)
    decreases |a|
  {
    if StartsWith(a, t) {
      assert (a + b)[..|t|] == a[..|t|];
    } else {
      assert (a + b)[1..] == a[1..] + b;
      ContainsLeft(a[1..], b, t);
    }
  }

  /** An occurrence in the right part is an occurrence in the whole. */
  lemma {:induction false} ContainsRight(a: string, b: string, t: string)
    requires Contains(b, t)
    ensures Contains(a + b, t)
    decreases |a|
  {
    if |a| > 0 {
      assert (a + b)[1..] == a[1..] + b;
      ContainsRight(a[1..], b, t);
    } else {
      assert a + b == b;
    }
  }

  /** A string lacking the first character of `t` cannot contain `t`. */
  lemma {:induction false} MissingHeadNotContains(s: string, t: string)
    requires |t| > 0 && t[0] !in s
    ensures !Contains(s, t)
    decreases |s|
  {
    if |s| > 0 {
      assert s[0] != t[0];
      MissingHeadNotContains(s[1..], t);
    }
  }

  /** A prefix lacking the first character of `t` adds no occurrence. */
  lemma {:induction false} MissingHeadPrefix(a: string, b: string, t: string)
    requires |t| > 0 && t[0] !in a
    requires !Contains(b, t)
    ensures !Contains(a + b, t)
    decreases |a|
  {
    if |a| > 0 {
      assert (a + b)[0] == a[0];
      assert (a + b)[1..] == a[1..] + b;
      MissingHeadPrefix(a[1..], b, t);
    } else {
      assert a + b == b;
    }
  }

  /** `s.replace(/pat/g, rep)` for a pattern that matches only the literal
      text `pat` and a replacement with no `$` patterns: the string is
      scanned left to right, every non-overlapping occurrence of `pat` is
      replaced by `rep`, and replaced text is never scanned again. */
  function ReplaceAll(s: string, pat: string, rep: string): string
    requires |pat| > 0
    decreases |s|
  {
    if |s| == 0 then ""
    else if StartsWith(s, pat) then rep + ReplaceAll(s[|pat|..], pat, rep)
    else [s[0]] + ReplaceAll(s[1..], pat, rep)
  }

  /** Replacing a pattern by itself changes nothing. */
  lemma {:induction false} ReplaceAllSelf(s: string, pat: string)
    requires |pat| > 0
    ensures ReplaceAll(s, pat, pat) == s
    decreases |s|
  {
    if |s| > 0 {
      if StartsWith(s, pat) {
        ReplaceAllSelf(s[|pat|..], pat);
        assert s == s[..|pat|] + s[|pat|..];
      } else {
        ReplaceAllSelf(s[1..], pat);
        assert s == [s[0]] + s[1..];
      }
    }
  }

  /** Text in which the pattern does not occur comes back unchanged. */
  lemma {:induction false} ReplaceAllAbsent(s: string, pat: string, rep: string)
    requires |pat| > 0
    requires !Contains(s, pat)
    ensures ReplaceAll(s, pat, rep) == s
    decreases |s|
  {
    if |s| > 0 {
      ReplaceAllAbsent(s[1..], pat, rep);
      assert s == [s[0]] + s[1..];
    }
  }

  /** The first character of `pat` occurs nowhere else in it, so two
      occurrences of `pat` can never overlap. A placeholder token `{key}`
      with a brace-free key is such a pattern. */
  predicate HeadUnique(pat: string) {
    |pat| > 0 && forall j :: 0 < j < |pat| ==> pat[j] != pat[0]
  }

  /** A match of a non-overlapping pattern cannot start inside a shorter
      prefix and run on into a following occurrence of the pattern. */
  lemma NoStraddle(a: string, pat: string, b: string)
    requires HeadUnique(pat)
    requires 0 < |a| < |pat|
    ensures !StartsWith(a + pat + b, pat)
  {
    var s := a + pat + b;
    assert s[|a|] == pat[0];
    assert pat[|a|] != pat[0];
    assert s[..|pat|][|a|] != pat[|a|];
  }

  lemma DropFront(a: string, p: string, b: string, k: nat)
    requires k <= |a|
    ensures (a + p + b)[k..] == a[k..] + p + b
  {
  }

  lemma TakeFront(a: string, p: string, b: string, k: nat)
    requires k <= |a|
    ensures (a + p + b)[..k] == a[..k]
  {
  }

  /** The step of `ReplaceAllAround` when `a` starts with the pattern. */
  lemma AroundMatchStep(a: string, pat: string, b: string, rep: string)
    requires |pat| > 0 && |a| >= |pat| && StartsWith(a, pat)
    requires ReplaceAll(a[|pat|..] + pat + b, pat, rep) ==
             ReplaceAll(a[|pat|..], pat, rep) + rep + ReplaceAll(b, pat, rep)
    ensures ReplaceAll(a + pat + b, pat, rep) == ReplaceAll(a, pat, rep) + rep + ReplaceAll(b, pat, rep)
  {
    var s := a + pat + b;
    var t := a[|pat|..];
    TakeFront(a, pat, b, |pat|);
    assert StartsWith(s, pat);
    DropFront(a, pat, b, |pat|);
    var tail := ReplaceAll(t, pat, rep);
    assert ReplaceAll(a, pat, rep) == rep + tail;
    assert ReplaceAll(s, pat, rep) == rep + (tail + rep + ReplaceAll(b, pat, rep));
  }

  /** The step of `ReplaceAllAround` when no match starts at the front. */
  lemma AroundSkipStep(a: string, pat: string, b: string, rep: string)
    requires |pat| > 0 && |a| > 0 && !StartsWith(a + pat + b, pat)
    requires ReplaceAll(a[1..] + pat + b, pat, rep) == ReplaceAll(a[1..], pat, rep) + rep + ReplaceAll(b, pat, rep)
    ensures ReplaceAll(a + pat + b, pat, rep) == ReplaceAll(a, pat, rep) + rep + ReplaceAll(b, pat, rep)
  {
    var s := a + pat + b;
    DropFront(a, pat, b, 1);
    assert s[0] == a[0];
    if |pat| <= |a| {
      TakeFront(a, pat, b, |pat|);
    }
    assert !StartsWith(a, pat);
    var tail := ReplaceAll(a[1..], pat, rep);
    assert ReplaceAll(a, pat, rep) == [a[0]] + tail;
    assert ReplaceAll(s, pat, rep) == [a[0]] + (tail + rep + ReplaceAll(b, pat, rep));
  }

  /** Every occurrence is replaced: an occurrence of a non-overlapping
      pattern splits the replacement into independent halves. */
  lemma {:induction false} ReplaceAllAround(a: string, pat: string, b: string, rep: string)
    requires HeadUnique(pat)
    ensures ReplaceAll(a + pat + b, pat, rep) == ReplaceAll(a, pat, rep) + rep + ReplaceAll(b, pat, rep)
    decreases |a|
  {
    var s := a + pat + b;
    if |a| == 0 {
      assert s == pat + b;
      assert s[..|pat|] == pat;
      assert s[|pat|..] == b;
    } else {
      if |a| < |pat| {
        NoStraddle(a, pat, b);
      }
      if StartsWith(s, pat) {
        assert |a| >= |pat|;
        assert a[..|pat|] == s[..|pat|];
        ReplaceAllAround(a[|pat|..], pat, b, rep);
        AroundMatchStep(a, pat, b, rep);
      } else {
        ReplaceAllAround(a[1..], pat, b, rep);
        AroundSkipStep(a, pat, b, rep);
      }
    }
  }

  // ---------------------------------------------------------------- trim

  /** The characters `String.prototype.trim` removes: ECMAScript
      WhiteSpace (TAB, VT, FF, SP, NBSP, ZWNBSP and category Zs) and
      LineTerminator (LF, CR, LS, PS). */
  predicate IsJsWhitespace(c: char) {
    var n := c as int;
    n == 0x09 || n == 0x0A || n == 0x0B || n == 0x0C || n == 0x0D || n == 0x20 ||
    n == 0xA0 || n == 0x1680 || (0x2000 <= n <= 0x200A) || n == 0x2028 || n == 0x2029 ||
    n == 0x202F || n == 0x205F || n == 0x3000 || n == 0xFEFF
  }

  predicate AllWhitespace(s: string) {
    forall i :: 0 <= i < |s| ==> IsJsWhitespace(s[i])
  }

  /** The number of whitespace characters `s` starts with. */
  function LeadingSpace(s: string): (n: nat)
    ensures n <= |s|
    ensures forall k :: 0 <= k < n ==> IsJsWhitespace(s[k])
    ensures n < |s| ==> !IsJsWhitespace(s[n])
    decreases |s|
  {
    if |s| > 0 && IsJsWhitespace(s[0]) then 1 + LeadingSpace(s[1..]) else 0
  }

  /** The index where the whitespace `s` ends with begins. */
  function TrailingSpace(s: string): (m: nat)
    ensures m <= |s|
    ensures forall k :: m <= k < |s| ==> IsJsWhitespace(s[k])
    ensures m > 0 ==> !IsJsWhitespace(s[m - 1])
    decreases |s|
  {
    if |s| > 0 && IsJsWhitespace(s[|s| - 1]) then TrailingSpace(s[..|s| - 1]) else |s|
  }

  /** `r` is the slice of `s` at `i`, and everything around it is whitespace. */
  predicate IsTrimmedSlice(s: string, r: string, i: int) {
    0 <= i <= |s| - |r| && r == s[i..i + |r|] &&
    (forall k :: 0 <= k < i ==> IsJsWhitespace(s[k])) &&
    (forall k :: i + |r| <= k < |s| ==> IsJsWhitespace(s[k]))
  }

  /** `s.trim()`: `s` without its leading and trailing whitespace. */
  function Trim(s: string): (r: string)
    ensures exists i :: IsTrimmedSlice(s, r, i)
    ensures r == [] || (!IsJsWhitespace(r[0]) && !IsJsWhitespace(r[|r| - 1]))
    ensures r == [] <==> AllWhitespace(s)
  {
    var n := LeadingSpace(s);
    var m := TrailingSpace(s);
    if n == |s| then
      assert IsTrimmedSlice(s, "", n);
      ""
    else
      assert IsTrimmedSlice(s, s[n..m], n);
      s[n..m]
  }

  /** Trimming twice is trimming once. */
  lemma TrimIdempotent(s: string)
    ensures Trim(Trim(s)) == Trim(s)
  {
    var r := Trim(s);
    TrimNoop(r);
  }

  /** A string with no whitespace at either end is its own trim. */
  lemma TrimNoop(s: string)
    requires s == [] || (!IsJsWhitespace(s[0]) && !IsJsWhitespace(s[|s| - 1]))
    ensures Trim(s) == s
  {
  }

  // ---------------------------------------------------------------- case

  /** ASCII-only `toLowerCase` of one character. */
  function LowerChar(c: char): char {
    if 'A' <= c <= 'Z' then (c as int + 32) as char else c
  }

  /** ASCII-only `s.toLowerCase()`. */
  function ToLowerAscii(s: string): (r: string)
    ensures |r| == |s|
    ensures forall i :: 0 <= i < |s| ==> r[i] == LowerChar(s[i])
    decreases |s|
  {
    if |s| == 0 then "" else [LowerChar(s[0])] + ToLowerAscii(s[1..])
  }

  // ---------------------------------------------------------------- alnum

  /** Membership in the regular-expression class `[a-zA-Z0-9]`. */
  predicate IsAlnum(c: char) {
    ('a' <= c <= 'z') || ('A' <= c <= 'Z') || ('0' <= c <= '9')
  }

  predicate AllAlnum(s: string) {
    forall i :: 0 <= i < |s| ==> IsAlnum(s[i])
  }

  predicate IsDigit(c: char) {
    '0' <= c <= '9'
  }

  // ---------------------------------------------------------------- lines

  /** `lines.join(sep)`: `[]` joins to `""` and one element to itself. */
  function Join(lines: seq<string>, sep: char): string
    decreases |lines|
  {
    if |lines| == 0 then ""
    else if |lines| == 1 then lines[0]
    else lines[0] + [sep] + Join(lines[1..], sep)
  }

  /** A separator inside one element joins like two elements. */
  lemma {:induction false} JoinBreak(pre: seq<string>, x: string, y: string, post: seq<string>, sep: char)
    ensures Join(pre + [x + [sep] + y] + post, sep) == Join(pre + [x, y] + post, sep)
    decreases |pre|
  {
    if |pre| == 0 {
      assert pre + [x + [sep] + y] + post == [x + [sep] + y] + post;
      assert pre + [x, y] + post == [x, y] + post;
      assert ([x, y] + post)[1..] == [y] + post;
      if |post| > 0 {
        assert ([x + [sep] + y] + post)[1..] == post;
        assert ([y] + post)[1..] == post;
      }
    } else {
      JoinBreak(pre[1..], x, y, post, sep);
      assert (pre + [x + [sep] + y] + post)[1..] == pre[1..] + [x + [sep] + y] + post;
      assert (pre + [x, y] + post)[1..] == pre[1..] + [x, y] + post;
    }
  }

  /** `s.split(sep)` for a one-character separator: always at least one
      piece, and no piece holds the separator. */
  function Split(s: string, sep: char): (r: seq<string>)
    ensures |r| > 0
    ensures forall i :: 0 <= i < |r| ==> sep !in r[i]
    decreases |s|
  {
    if |s| == 0 then [""]
    else if s[0] == sep then [""] + Split(s[1..], sep)
    else
      var rest := Split(s[1..], sep);
      [[s[0]] + rest[0]] + rest[1..]
  }

  lemma {:induction false} SplitNoSeparator(x: string, sep: char)
    requires sep !in x
    ensures Split(x, sep) == [x]
    decreases |x|
  {
    if |x| > 0 {
      SplitNoSeparator(x[1..], sep);
      assert x == [x[0]] + x[1..];
    }
  }

  lemma {:induction false} SplitAtSeparator(x: string, sep: char, y: string)
    requires sep !in x
    ensures Split(x + [sep] + y, sep) == [x] + Split(y, sep)
    decreases |x|
  {
    var s := x + [sep] + y;
    if |x| == 0 {
      assert s[1..] == y;
    } else {
      assert s[1..] == x[1..] + [sep] + y;
      SplitAtSeparator(x[1..], sep, y);
      assert x == [x[0]] + x[1..];
    }
  }

  /** Splitting a joined list of separator-free lines gives the lines back. */
  lemma {:induction false} SplitJoin(lines: seq<string>, sep: char)
    requires |lines| > 0
    requires forall i :: 0 <= i < |lines| ==> sep !in lines[i]
    ensures Split(Join(lines, sep), sep) == lines
    decreases |lines|
  {
    if |lines| == 1 {
      SplitNoSeparator(lines[0], sep);
    } else {
      SplitJoin(lines[1..], sep);
      SplitAtSeparator(lines[0], sep, Join(lines[1..], sep));
      assert lines == [lines[0]] + lines[1..];
    }
  }

  // ---------------------------------------------------------------- numbers

  function DigitChar(d: nat): char
    requires d < 10
  {
    ('0' as int + d) as char
  }

  /** `String(n)` for a non-negative integer: its decimal digits. */
  function NatToString(n: nat): (r: string)
    ensures |r| > 0 && forall i :: 0 <= i < |r| ==> IsDigit(r[i])
    decreases n
  {
    if n < 10 then [DigitChar(n)] else NatToString(n / 10) + [DigitChar(n % 10)]
  }
}
