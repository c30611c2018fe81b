/** Character classes and string rewrites shared by the backend's slug, token and search helpers.
    Python's `str.lower`, `str.strip`, `str.split`, `re.sub` with the patterns the backend uses,
    and Python's ordering of strings, written as total functions over `string` (= `seq<char>`). */
module Strings {

  // ---------------------------------------------------------------------------
  // Character classes
  // ---------------------------------------------------------------------------

  /** Python's `str.isspace`, which is also what `\s` matches in a `str` pattern. */
  predicate IsSpace(c: char) {
    c == ' ' || c == '\t' || c == '\n' || c == '\r' || c == '\U{000B}' || c == '\U{000C}'
    || ('\U{001C}' <= c <= '\U{001F}') || c == '\U{0085}' || c == '\U{00A0}' || c == '\U{1680}'
    || ('\U{2000}' <= c <= '\U{200A}') || c == '\U{2028}' || c == '\U{2029}' || c == '\U{202F}'
    || c == '\U{205F}' || c == '\U{3000}'
  }

  predicate IsDash(c: char) { c == '-' }

  predicate IsUpper(c: char) { 'A' <= c <= 'Z' }
  predicate IsLowerLetter(c: char) { 'a' <= c <= 'z' }
  predicate IsDigit(c: char) { '0' <= c <= '9' }
  predicate IsAlnum(c: char) { IsUpper(c) || IsLowerLetter(c) || IsDigit(c) }

  /** The characters a finished slug may contain: `[a-z0-9-]`. */
  predicate IsSlugChar(c: char) { IsLowerLetter(c) || IsDigit(c) || c == '-' }

  /** The characters `[a-zA-Z0-9\s-]` that the slug helpers keep before lower-casing. */
  predicate IsSlugSource(c: char) { IsAlnum(c) || IsSpace(c) || c == '-' }

  /** ASCII lower-casing of one character. */
  function LowerChar(c: char): (r: char)
    ensures !IsUpper(r)
    ensures IsUpper(c) ==> IsLowerLetter(r)
    ensures !IsUpper(c) ==> r == c
  {
    if IsUpper(c) then (c as int + 32) as char else c
  }

  /** ASCII upper-casing of one character. */
  function UpperChar(c: char): (r: char)
    ensures IsLowerLetter(c) ==> IsUpper(r) && LowerChar(r) == c
    ensures !IsLowerLetter(c) ==> r == c
  {
    if IsLowerLetter(c) then (c as int - 32) as char else c
  }

  /** `s.lower()` on ASCII letters. */
  function Lower(s: string): (r: string)
    ensures |r| == |s|
    ensures forall i :: 0 <= i < |s| ==> r[i] == LowerChar(s[i])
  {
    seq(|s|, i requires 0 <= i < |s| => LowerChar(s[i]))
  }

  /** Keeps the characters that satisfy `p`, in order (`re.sub("[^...]", "", s)`). */
  function Keep(s: string, p: char -> bool): (r: string)
    ensures |r| <= |s|
  {
    if s == [] then [] else (if p(s[0]) then [s[0]] else []) + Keep(s[1..], p)
  }

  lemma {:induction false} KeepMembers(s: string, p: char -> bool)
    ensures forall i :: 0 <= i < |Keep(s, p)| ==> Keep(s, p)[i] in s && p(Keep(s, p)[i])
    decreases |s|
  {
    if s != [] {
      KeepMembers(s[1..], p);
      var r := Keep(s, p);
      var rest := Keep(s[1..], p);
      forall i | 0 <= i < |r| ensures r[i] in s && p(r[i]) {
        if p(s[0]) && i == 0 {
        } else {
          var j := if p(s[0]) then i - 1 else i;
          assert r[i] == rest[j];
          assert rest[j] in s[1..];
        }
      }
    }
  }

  // ---------------------------------------------------------------------------
  // Stripping and splitting
  // ---------------------------------------------------------------------------

  /** Drops leading characters that satisfy `p`. */
  function TrimStart(s: string, p: char -> bool): (r: string)
    ensures |r| <= |s|
  {
    if s != [] && p(s[0]) then TrimStart(s[1..], p) else s
  }

  /** `TrimStart` leaves a suffix of its input that does not start with a `p`-character. */
  lemma {:induction false} TrimStartSuffix(s: string, p: char -> bool)
    ensures var r := TrimStart(s, p); r == s[|s| - |r|..] && (r != [] ==> !p(r[0]))
    decreases |s|
  {
    if s != [] && p(s[0]) {
      TrimStartSuffix(s[1..], p);
    }
  }

  /** Every character `TrimStart` drops satisfies `p`. */
  lemma {:induction false} TrimStartDropped(s: string, p: char -> bool)
    ensures forall i :: 0 <= i < |s| - |TrimStart(s, p)| ==> p(s[i])
    decreases |s|
  {
    if s != [] && p(s[0]) {
      TrimStartDropped(s[1..], p);
    }
  }

  /** Drops trailing characters that satisfy `p`. */
  function TrimEnd(s: string, p: char -> bool): (r: string)
    ensures |r| <= |s|
  {
    if s != [] && p(s[|s| - 1]) then TrimEnd(s[..|s| - 1], p) else s
  }

  /** `TrimEnd` leaves a prefix of its input that does not end with a `p`-character. */
  lemma {:induction false} TrimEndPrefix(s: string, p: char -> bool)
    ensures var r := TrimEnd(s, p); r == s[..|r|] && (r != [] ==> !p(r[|r| - 1]))
    decreases |s|
  {
    if s != [] && p(s[|s| - 1]) {
      TrimEndPrefix(s[..|s| - 1], p);
    }
  }

  /** Every character `TrimEnd` drops satisfies `p`. */
  lemma {:induction false} TrimEndDropped(s: string, p: char -> bool)
    ensures forall i :: |TrimEnd(s, p)| <= i < |s| ==> p(s[i])
    decreases |s|
  {
    if s != [] && p(s[|s| - 1]) {
      TrimEndDropped(s[..|s| - 1], p);
    }
  }

  /** `s.strip()`: whitespace removed at both ends. */
  function Strip(s: string): string {
    TrimEnd(TrimStart(s, IsSpace), IsSpace)
  }

  /** `Strip` only removes characters: what is left is a slice of the input. */
  lemma StripSlice(s: string)
    ensures var k := |s| - |TrimStart(s, IsSpace)|; k + |Strip(s)| <= |s| && Strip(s) == s[k..k + |Strip(s)|]
  {
    TrimStartSuffix(s, IsSpace);
    TrimEndPrefix(TrimStart(s, IsSpace), IsSpace);
  }

  /** A stripped string neither starts nor ends with whitespace. */
  lemma StripEnds(s: string)
    ensures Strip(s) != [] ==> !IsSpace(Strip(s)[0]) && !IsSpace(Strip(s)[|Strip(s)| - 1])
  {
    var t := TrimStart(s, IsSpace);
    TrimStartSuffix(s, IsSpace);
    TrimEndPrefix(t, IsSpace);
    var r := TrimEnd(t, IsSpace);
    if r != [] {
      assert r[0] == t[0];
    }
  }

  /** `s.strip().strip() == s.strip()`. */
  lemma StripIdempotent(s: string)
    ensures Strip(Strip(s)) == Strip(s)
  {
    StripEnds(s);
    StripNoop(Strip(s));
  }

  lemma StripMembers(s: string)
    ensures forall c :: c in Strip(s) ==> c in s
  {
    StripSlice(s);
    var r := Strip(s);
    var i := |s| - |TrimStart(s, IsSpace)|;
    forall c | c in r ensures c in s {
      var k :| 0 <= k < |r| && r[k] == c;
      assert s[i + k] == c;
    }
  }

  /** True when `s` has no non-space character (Python: `not s.strip()`). */
  predicate IsBlank(s: string) {
    forall i :: 0 <= i < |s| ==> IsSpace(s[i])
  }

  /** The longest prefix of `s` with no whitespace. */
  function FirstWord(s: string): (w: string)
    ensures |w| <= |s| && w == s[..|w|]
    ensures forall i :: 0 <= i < |w| ==> !IsSpace(w[i])
    ensures |w| < |s| ==> IsSpace(s[|w|])
  {
    if s == [] || IsSpace(s[0]) then [] else [s[0]] + FirstWord(s[1..])
  }

  /** `s.split()` with no separator: the maximal runs of non-whitespace, in order. */
  function Words(s: string): (ws: seq<string>)
    ensures |ws| <= |s|
    decreases |s|
  {
    var t := TrimStart(s, IsSpace);
    if t == [] then []
    else
      var w := FirstWord(t);
      [w] + Words(t[|w|..])
  }

  /** Each word is non-empty and holds no whitespace. */
  lemma {:induction false} WordsShape(s: string)
    ensures forall k :: 0 <= k < |Words(s)| ==> Words(s)[k] != [] && NoSpace(Words(s)[k])
    decreases |s|
  {
    var t := TrimStart(s, IsSpace);
    TrimStartSuffix(s, IsSpace);
    if t != [] {
      var w := FirstWord(t);
      WordsShape(t[|w|..]);
      assert Words(s) == [w] + Words(t[|w|..]);
    }
  }

  /** Every character of a word comes from the input. */
  lemma {:induction false} WordsChars(s: string, k: nat, i: nat)
    requires k < |Words(s)| && i < |Words(s)[k]|
    ensures Words(s)[k][i] in s
    decreases |s|
  {
    var t := TrimStart(s, IsSpace);
    TrimStartSuffix(s, IsSpace);
    var w := FirstWord(t);
    var u := t[|w|..];
    var off := |s| - |t|;
    assert Words(s) == [w] + Words(u);
    var c := Words(s)[k][i];
    if k == 0 {
      assert c == w[i] == t[i] == s[off + i];
    } else {
      assert c == Words(u)[k - 1][i];
      WordsChars(u, k - 1, i);
      var j :| 0 <= j < |u| && u[j] == c;
      assert s[off + |w| + j] == c;
    }
  }

  predicate NoSpace(s: string) {
    forall i :: 0 <= i < |s| ==> !IsSpace(s[i])
  }

  predicate NotSpace(c: char) { !IsSpace(c) }

  lemma {:induction false} KeepAppend(a: string, b: string, p: char -> bool)
    ensures Keep(a + b, p) == Keep(a, p) + Keep(b, p)
    decreases |a|
  {
    if a == [] {
      assert a + b == b;
    } else {
      var head := if p(a[0]) then [a[0]] else [];
      assert (a + b)[0] == a[0];
      assert (a + b)[1..] == a[1..] + b;
      KeepAppend(a[1..], b, p);
      calc {
        Keep(a + b, p);
        head + Keep(a[1..] + b, p);
        head + (Keep(a[1..], p) + Keep(b, p));
        (head + Keep(a[1..], p)) + Keep(b, p);
        Keep(a, p) + Keep(b, p);
      }
    }
  }

  /** Keeping every character of a string whose characters all pass `p` changes nothing. */
  lemma {:induction false} KeepAll(s: string, p: char -> bool)
    requires forall i :: 0 <= i < |s| ==> p(s[i])
    ensures Keep(s, p) == s
    decreases |s|
  {
    if s != [] { KeepAll(s[1..], p); }
  }

  lemma {:induction false} KeepNone(s: string, p: char -> bool)
    requires forall i :: 0 <= i < |s| ==> !p(s[i])
    ensures Keep(s, p) == []
    decreases |s|
  {
    if s != [] { KeepNone(s[1..], p); }
  }

  /** `s.split()` loses exactly the whitespace: its words, concatenated, are the non-space
      characters of `s` in order. */
  lemma {:induction false} WordsConcat(s: string)
    ensures Concat(Words(s)) == Keep(s, NotSpace)
    decreases |s|
  {
    var t := TrimStart(s, IsSpace);
    TrimStartKeep(s);
    if t != [] {
      var w := FirstWord(t);
      var rest := t[|w|..];
      var ws := Words(rest);
      assert Words(s) == [w] + ws;
      FirstWordKeep(t);
      WordsConcat(rest);
      assert ([w] + ws)[0] == w && ([w] + ws)[1..] == ws;
    }
  }

  lemma TrimStartKeep(s: string)
    ensures Keep(s, NotSpace) == Keep(TrimStart(s, IsSpace), NotSpace)
  {
    var t := TrimStart(s, IsSpace);
    var pre := s[..|s| - |t|];
    TrimStartSuffix(s, IsSpace);
    assert s == pre + t;
    KeepAppend(pre, t, NotSpace);
    TrimStartDropped(s, IsSpace);
    KeepNone(pre, NotSpace);
  }

  lemma FirstWordKeep(t: string)
    ensures Keep(t, NotSpace) == FirstWord(t) + Keep(t[|FirstWord(t)|..], NotSpace)
  {
    var w := FirstWord(t);
    assert t == w + t[|w|..];
    KeepAppend(w, t[|w|..], NotSpace);
    KeepAll(w, NotSpace);
  }

  lemma StripNoop(s: string)
    requires s != [] ==> !IsSpace(s[0]) && !IsSpace(s[|s| - 1])
    ensures Strip(s) == s
  {
  }

  lemma {:induction false} LowerNoop(s: string)
    requires forall i :: 0 <= i < |s| ==> !IsUpper(s[i])
    ensures Lower(s) == s
  {
  }

  /** `Strip` leaves nothing exactly when every character is whitespace. */
  lemma StripEmpty(s: string)
    ensures Strip(s) == [] <==> IsBlank(s)
  {
    var t := TrimStart(s, IsSpace);
    TrimStartDropped(s, IsSpace);
    TrimEndDropped(t, IsSpace);
    TrimStartSuffix(s, IsSpace);
    if t != [] {
      assert !IsSpace(s[|s| - |t|]);
      assert TrimEnd(t, IsSpace) != [];
    }
  }

  /** `sep.join(parts)`. */
  function Join(sep: string, parts: seq<string>): string {
    if parts == [] then []
    else if |parts| == 1 then parts[0]
    else parts[0] + sep + Join(sep, parts[1..])
  }

  /** The sequences of `parts` concatenated. */
  function Concat<T>(parts: seq<seq<T>>): seq<T> {
    if parts == [] then [] else parts[0] + Concat(parts[1..])
  }

  /** The elements of `xs` that satisfy `p`, in order. */
  function Where<X>(xs: seq<X>, p: X -> bool): seq<X> {
    if xs == [] then [] else (if p(xs[0]) then [xs[0]] else []) + Where(xs[1..], p)
  }

  lemma {:induction false} WhereMembers<X>(xs: seq<X>, p: X -> bool, x: X)
    ensures x in Where(xs, p) <==> x in xs && p(x)
    decreases |xs|
  {
    if xs != [] {
      WhereMembers(xs[1..], p, x);
      assert xs == [xs[0]] + xs[1..];
    }
  }

  /** Two tests that agree on the elements of `xs` keep the same elements. */
  lemma {:induction false} WhereAgree<X>(xs: seq<X>, p: X -> bool, p': X -> bool)
    requires forall i :: 0 <= i < |xs| ==> p(xs[i]) == p'(xs[i])
    ensures Where(xs, p) == Where(xs, p')
    decreases |xs|
  {
    if xs != [] {
      assert forall i :: 0 <= i < |xs| - 1 ==> xs[1..][i] == xs[i + 1];
      WhereAgree(xs[1..], p, p');
    }
  }

  /** A test and its negation split `xs` between them. */
  lemma {:induction false} WhereComplement<X>(xs: seq<X>, p: X -> bool, np: X -> bool)
    requires forall i :: 0 <= i < |xs| ==> np(xs[i]) == !p(xs[i])
    ensures |Where(xs, p)| + |Where(xs, np)| == |xs|
    decreases |xs|
  {
    if xs != [] {
      assert forall i :: 0 <= i < |xs| - 1 ==> xs[1..][i] == xs[i + 1];
      WhereComplement(xs[1..], p, np);
    }
  }

  lemma {:induction false} WhereShorter<X>(xs: seq<X>, p: X -> bool)
    ensures |Where(xs, p)| <= |xs|
    ensures |Where(xs, p)| == |xs| ==> Where(xs, p) == xs
    decreases |xs|
  {
    if xs != [] {
      WhereShorter(xs[1..], p);
      assert xs == [xs[0]] + xs[1..];
    }
  }

  lemma {:induction false} WhereAppend<X>(xs: seq<X>, ys: seq<X>, p: X -> bool)
    ensures Where(xs + ys, p) == Where(xs, p) + Where(ys, p)
    decreases |xs|
  {
    if xs != [] {
      WhereAppend(xs[1..], ys, p);
      assert (xs + ys)[1..] == xs[1..] + ys;
    } else {
      assert xs + ys == ys;
    }
  }

  // ---------------------------------------------------------------------------
  // Substrings
  // ---------------------------------------------------------------------------

  /** `s` starts with `pre` (`s.startswith(pre)`). */
  predicate StartsWith(s: string, pre: string) {
    |pre| <= |s| && s[..|pre|] == pre
  }

  /** `sub` occurs in `s` at index `i`. */
  predicate OccursAt(s: string, sub: string, i: int) {
    0 <= i && i + |sub| <= |s| && s[i..i + |sub|] == sub
  }

  /** Python's `sub in s` on strings. */
  predicate Contains(s: string, sub: string) {
    exists i :: 0 <= i <= |s| - |sub| && OccursAt(s, sub, i)
  }

  lemma ContainsEmpty(s: string)
    ensures Contains(s, [])
  {
    assert OccursAt(s, [], 0);
  }

  lemma StartsWithContains(s: string, pre: string)
    requires StartsWith(s, pre)
    ensures Contains(s, pre)
  {
    assert OccursAt(s, pre, 0);
  }

  // ---------------------------------------------------------------------------
  // The run-collapsing rewrites of the slug helpers
  // ---------------------------------------------------------------------------

  /** Replaces every maximal run of characters satisfying `p` by a single `-`:
      `re.sub(r"\s+", "-", s)` for `p == IsSpace`, and `re.sub(r"-+", "-", s)` (equally
      `re.sub(r"-{2,}", "-", s)`, since a lone `-` is replaced by itself) for `p == IsDash`. */
  function SquashRuns(s: string, p: char -> bool): (r: string)
    ensures forall c :: c in r ==> c == '-' || (c in s && !p(c))
    ensures s != [] && !p(s[0]) ==> r != [] && r[0] == s[0]
    ensures s != [] && p(s[0]) ==> r != [] && r[0] == '-'
    ensures s == [] <==> r == []
    decreases |s|
  {
    if s == [] then []
    else if p(s[0]) then
      TrimStartSuffix(s, p);
      "-" + SquashRuns(TrimStart(s, p), p)
    else [s[0]] + SquashRuns(s[1..], p)
  }

  /** No two consecutive dashes. */
  predicate NoDashRun(s: string) {
    forall i :: 0 <= i < |s| - 1 ==> !(s[i] == '-' && s[i + 1] == '-')
  }

  predicate AllSlugChars(s: string) {
    forall i :: 0 <= i < |s| ==> IsSlugChar(s[i])
  }

  /** The shape every kebab slug has: `[a-z0-9-]` only, no dash runs, no dash at either end. */
  predicate IsKebab(s: string) {
    AllSlugChars(s) && NoDashRun(s) && (s != [] ==> s[0] != '-' && s[|s| - 1] != '-')
  }

  lemma {:induction false} SquashDashesNoRun(s: string)
    ensures NoDashRun(SquashRuns(s, IsDash))
    decreases |s|
  {
    if s == [] {
    } else if IsDash(s[0]) {
      var t := TrimStart(s, IsDash);
      TrimStartSuffix(s, IsDash);
      SquashDashesNoRun(t);
      var rest := SquashRuns(t, IsDash);
      assert SquashRuns(s, IsDash) == "-" + rest;
      assert rest != [] ==> rest[0] != '-';
    } else {
      SquashDashesNoRun(s[1..]);
    }
  }

  /** A string already free of `p`-characters is left alone by `SquashRuns`. */
  lemma {:induction false} SquashRunsNoop(s: string, p: char -> bool)
    requires forall i :: 0 <= i < |s| ==> !p(s[i])
    ensures SquashRuns(s, p) == s
    decreases |s|
  {
    if s != [] {
      SquashRunsNoop(s[1..], p);
    }
  }

  /** A string without dash runs is left alone by `re.sub("-+", "-", s)`. */
  lemma {:induction false} SquashDashesNoop(s: string)
    requires NoDashRun(s)
    ensures SquashRuns(s, IsDash) == s
    decreases |s|
  {
    if s != [] {
      var tail := s[1..];
      assert NoDashRun(tail) by {
        forall i | 0 <= i < |tail| - 1 ensures !(tail[i] == '-' && tail[i + 1] == '-') {
          assert tail[i] == s[i + 1] && tail[i + 1] == s[i + 2];
        }
      }
      SquashDashesNoop(tail);
      if IsDash(s[0]) {
        assert TrimStart(s, IsDash) == TrimStart(tail, IsDash);
        if tail != [] {
          assert tail[0] == s[1] != '-';
        }
        assert TrimStart(tail, IsDash) == tail;
        assert s == "-" + tail;
      } else {
        assert s == [s[0]] + tail;
      }
    }
  }

  /** The tail shared by every kebab helper: `re.sub(r"\s+", "-", s)`, then
      `re.sub(r"-+", "-", s)`, then `s.strip("-")`. */
  function KebabTail(s: string): string {
    StripDashes(SquashRuns(SquashRuns(s, IsSpace), IsDash))
  }

  /** Lower-case letters, digits, whitespace and dashes: what reaches `KebabTail`. */
  predicate IsKebabSource(c: char) { IsLowerLetter(c) || IsDigit(c) || IsSpace(c) || c == '-' }

  /** Collapsing whitespace runs and then dash runs of such a string leaves `[a-z0-9-]` with no
      dash run. */
  lemma SquashShape(s: string)
    requires forall i :: 0 <= i < |s| ==> IsKebabSource(s[i])
    ensures var b := SquashRuns(SquashRuns(s, IsSpace), IsDash); AllSlugChars(b) && NoDashRun(b)
  {
    var a := SquashRuns(s, IsSpace);
    assert forall i :: 0 <= i < |a| ==> IsSlugChar(a[i]) by {
      forall i | 0 <= i < |a| ensures IsSlugChar(a[i]) {
        assert a[i] in a;
      }
    }
    var b := SquashRuns(a, IsDash);
    assert forall i :: 0 <= i < |b| ==> IsSlugChar(b[i]) by {
      forall i | 0 <= i < |b| ensures IsSlugChar(b[i]) {
        assert b[i] in b;
      }
    }
    SquashDashesNoRun(a);
  }

  lemma KebabTailShape(s: string)
    requires forall i :: 0 <= i < |s| ==> IsKebabSource(s[i])
    ensures IsKebab(KebabTail(s))
  {
    SquashShape(s);
    StripDashesKeepsShape(SquashRuns(SquashRuns(s, IsSpace), IsDash));
  }

  /** A finished kebab slug passes through `KebabTail` unchanged. */
  lemma KebabTailNoop(s: string)
    requires IsKebab(s)
    ensures KebabTail(s) == s
  {
    SquashRunsNoop(s, IsSpace);
    SquashDashesNoop(s);
    StripDashesNoop(s);
  }

  /** `s.strip("-")`. */
  function StripDashes(s: string): (r: string)
    ensures exists i, j :: 0 <= i <= j <= |s| && r == s[i..j]
    ensures r != [] ==> r[0] != '-' && r[|r| - 1] != '-'
  {
    var t := TrimStart(s, IsDash);
    var r := TrimEnd(t, IsDash);
    TrimStartSuffix(s, IsDash);
    TrimEndPrefix(t, IsDash);
    assert r == s[|s| - |t|..|s| - |t| + |r|];
    r
  }

  /** A string of dashes only is stripped away entirely. */
  lemma {:induction false} StripDashesAllDashes(s: string)
    requires forall i :: 0 <= i < |s| ==> s[i] == '-'
    ensures StripDashes(s) == []
    decreases |s|
  {
    if s != [] {
      StripDashesAllDashes(s[1..]);
    }
  }

  lemma StripDashesKeepsShape(s: string)
    requires AllSlugChars(s) && NoDashRun(s)
    ensures IsKebab(StripDashes(s))
  {
    var r := StripDashes(s);
    var i, j :| 0 <= i <= j <= |s| && r == s[i..j];
    assert forall k :: 0 <= k < |r| ==> r[k] == s[i + k];
  }

  lemma StripDashesNoop(s: string)
    requires s != [] ==> s[0] != '-' && s[|s| - 1] != '-'
    ensures StripDashes(s) == s
  {
  }

  // ---------------------------------------------------------------------------
  // Python's ordering of strings (code point by code point)
  // ---------------------------------------------------------------------------

  /** `a < b` for Python strings. */
  predicate Less(a: string, b: string)
    decreases |a|
  {
    if a == [] then b != []
    else if b == [] then false
    else if a[0] == b[0] then Less(a[1..], b[1..])
    else a[0] < b[0]
  }

  lemma {:induction false} LessIrreflexive(a: string)
    ensures !Less(a, a)
    decreases |a|
  {
    if a != [] { LessIrreflexive(a[1..]); }
  }

  lemma {:induction false} LessTransitive(a: string, b: string, c: string)
    requires Less(a, b) && Less(b, c)
    ensures Less(a, c)
    decreases |a|
  {
    if a != [] && b != [] && c != [] && a[0] == b[0] && b[0] == c[0] {
      LessTransitive(a[1..], b[1..], c[1..]);
    }
  }

  lemma {:induction false} LessTotal(a: string, b: string)
    ensures a == b || Less(a, b) || Less(b, a)
    decreases |a|
  {
    if a != [] && b != [] && a[0] == b[0] {
      LessTotal(a[1..], b[1..]);
      if a[1..] == b[1..] {
        assert a == [a[0]] + a[1..] && b == [b[0]] + b[1..];
      }
    }
  }

  lemma LessAsymmetric(a: string, b: string)
    requires Less(a, b)
    ensures !Less(b, a)
  {
    if Less(b, a) {
      LessTransitive(a, b, a);
      LessIrreflexive(a);
    }
  }

  /** `a <= b` for Python strings. */
  predicate LessEq(a: string, b: string) {
    a == b || Less(a, b)
  }

  /** Strictly ascending: sorted and duplicate-free. */
  predicate StrictlySorted(xs: seq<string>) {
    forall i, j :: 0 <= i < j < |xs| ==> Less(xs[i], xs[j])
  }

  /** Inserts `x` into a strictly ascending list, keeping it strictly ascending. */
  function InsertSorted(xs: seq<string>, x: string): (r: seq<string>)
    requires StrictlySorted(xs)
    ensures StrictlySorted(r)
    ensures forall y :: y in r <==> y in xs || y == x
    decreases |xs|
  {
    if xs == [] then [x]
    else if x == xs[0] then xs
    else if Less(x, xs[0]) then
      LessBelowAll(xs, x);
      [x] + xs
    else
      LessTotal(x, xs[0]);
      var rest := InsertSorted(xs[1..], x);
      assert forall y :: y in rest ==> Less(xs[0], y);
      [xs[0]] + rest
  }

  lemma LessBelowAll(xs: seq<string>, x: string)
    requires StrictlySorted(xs) && xs != [] && Less(x, xs[0])
    ensures forall k :: 0 <= k < |xs| ==> Less(x, xs[k])
  {
    forall k | 0 < k < |xs| ensures Less(x, xs[k]) {
      LessTransitive(x, xs[0], xs[k]);
    }
  }

  lemma StrictlySortedNoDup(xs: seq<string>)
    requires StrictlySorted(xs)
    ensures NoDup(xs)
  {
    forall i, j | 0 <= i < j < |xs| ensures xs[i] != xs[j] {
      LessIrreflexive(xs[i]);
    }
  }

  // ---------------------------------------------------------------------------
  // Order-preserving de-duplication
  // ---------------------------------------------------------------------------

  predicate NoDup<T(==)>(xs: seq<T>) {
    forall i, j :: 0 <= i < j < |xs| ==> xs[i] != xs[j]
  }

  /** Index of the first occurrence of `x` in `xs`. */
  function IndexOf<T(==)>(xs: seq<T>, x: T): (k: nat)
    requires x in xs
    ensures k < |xs| && xs[k] == x
    ensures forall j :: 0 <= j < k ==> xs[j] != x
  {
    if xs[0] == x then 0 else 1 + IndexOf(xs[1..], x)
  }

  /** The first occurrence of every element, in the order first seen (what
      `list(dict.fromkeys(xs))` and the "append if not yet seen" loops compute). */
  function Dedup<T(==)>(xs: seq<T>): seq<T> {
    if xs == [] then []
    else
      var d := Dedup(xs[..|xs| - 1]);
      if xs[|xs| - 1] in d then d else d + [xs[|xs| - 1]]
  }

  /** `Dedup` keeps exactly the elements of its input and no element twice. */
  lemma {:induction false} DedupElements<T>(xs: seq<T>)
    ensures forall x :: x in Dedup(xs) <==> x in xs
    ensures NoDup(Dedup(xs))
    decreases |xs|
  {
    if xs != [] {
      var init := xs[..|xs| - 1];
      DedupElements(init);
      assert xs == init + [xs[|xs| - 1]];
    }
  }

  /** Every element of `d` occurs in `xs`, and `d` lists them in the order of their first
      occurrence in `xs`. */
  ghost predicate InFirstSeenOrder<T>(d: seq<T>, xs: seq<T>) {
    (forall x :: x in d ==> x in xs)
    && forall i, j :: 0 <= i < j < |d| && d[i] in xs && d[j] in xs ==> IndexOf(xs, d[i]) < IndexOf(xs, d[j])
  }

  lemma DedupMember<T>(xs: seq<T>, x: T)
    requires x in Dedup(xs)
    ensures x in xs
  {
    DedupElements(xs);
  }

  /** `Dedup` lists elements in the order of their first occurrence in the input. */
  lemma {:induction false} DedupFirstSeenOrder<T>(xs: seq<T>)
    ensures InFirstSeenOrder(Dedup(xs), xs)
    decreases |xs|
  {
    if xs != [] {
      var init := xs[..|xs| - 1];
      var last := xs[|xs| - 1];
      DedupFirstSeenOrder(init);
      DedupElements(init);
      var d := Dedup(init);
      var dx := Dedup(xs);
      assert xs == init + [last];
      forall x | x in init ensures IndexOf(xs, x) == IndexOf(init, x) {
        IndexOfPrefix(init, [last], x);
      }
      DedupElements(xs);
      forall i, j | 0 <= i < j < |dx| && dx[i] in xs && dx[j] in xs
        ensures IndexOf(xs, dx[i]) < IndexOf(xs, dx[j])
      {
        assert dx == (if last in d then d else d + [last]);
        assert dx[i] == d[i] && d[i] in d;
        DedupMember(init, d[i]);
        IndexOfPrefix(init, [last], d[i]);
        if j < |d| {
          assert dx[j] == d[j] && d[j] in d;
          DedupMember(init, d[j]);
          IndexOfPrefix(init, [last], d[j]);
        } else {
          assert dx[j] == last && last !in init;
        }
      }
    } else {
      assert Dedup(xs) == [];
    }
  }

  lemma IndexOfPrefix<T>(a: seq<T>, b: seq<T>, x: T)
    requires x in a
    ensures x in a + b && IndexOf(a + b, x) == IndexOf(a, x)
  {
    var k := IndexOf(a, x);
    assert (a + b)[k] == x;
  }

  /** The first `n` elements, or all of them when there are fewer (Python `xs[:n]`, `n >= 0`). */
  function Take<T>(xs: seq<T>, n: nat): (r: seq<T>)
    ensures |r| <= n && |r| <= |xs|
    ensures r == xs[..|r|]
    ensures |xs| <= n ==> r == xs
  {
    if |xs| <= n then xs else xs[..n]
  }

  /** `list(dict.fromkeys(xs))[:n]`: at most `n` elements, none twice, all from `xs`, in the
      order of their first occurrence. */
  lemma TakeDedupShape<T>(xs: seq<T>, n: nat)
    ensures var r := Take(Dedup(xs), n);
      |r| <= n && NoDup(r) && (forall x :: x in r ==> x in xs) && InFirstSeenOrder(r, xs)
  {
    var d := Dedup(xs);
    var r := Take(d, n);
    DedupElements(xs);
    DedupFirstSeenOrder(xs);
    assert r == d[..|r|];
    forall i, j | 0 <= i < j < |r| ensures r[i] != r[j] {
      assert r[i] == d[i] && r[j] == d[j];
    }
    forall x | x in r ensures x in xs {
      assert x in d;
    }
    forall i, j | 0 <= i < j < |r| && r[i] in xs && r[j] in xs
      ensures IndexOf(xs, r[i]) < IndexOf(xs, r[j])
    {
      assert r[i] == d[i] && r[j] == d[j];
    }
  }

  /** Python's `xs[:n]` for any integer `n` (a negative `n` counts from the end). */
  function SliceTo<T>(xs: seq<T>, n: int): (r: seq<T>)
    ensures |r| <= |xs| && r == xs[..|r|]
    ensures n >= 0 ==> |r| == if n < |xs| then n else |xs|
    ensures n < 0 ==> |r| == if |xs| + n > 0 then |xs| + n else 0
  {
    if n >= 0 then Take(xs, n)
    else if |xs| + n > 0 then xs[..|xs| + n]
    else []
  }
}
