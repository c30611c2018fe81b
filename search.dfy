/** backend/search.py: the search fields kept on user documents (`_slugify`, `_name_tokens`,
    `ensure_user_search_fields`) and the three-stage name search `search_users`. */
module Search {
  import opened Wrappers
  import opened Strings
  import opened Sorting
  import opened ProfileSlugs

  // ---------------------------------------------------------------------------
  // _slugify
  // ---------------------------------------------------------------------------

  /** `_slugify(full_name)`: keep `[a-zA-Z0-9\s-]`, strip, lower-case, whitespace runs to one
      dash, dash runs to one dash. Unlike the kebab helpers it does not strip dashes at the ends. */
  function Slugify(full: string): (r: string)
    ensures AllSlugChars(r) && NoDashRun(r)
  {
    var kept := Keep(full, IsSlugSource);
    var low := Lower(Strip(kept));
    KeepMembers(full, IsSlugSource);
    SlugifySource(kept);
    SquashShape(low);
    SquashRuns(SquashRuns(low, IsSpace), IsDash)
  }

  lemma SlugifySource(kept: string)
    requires forall i :: 0 <= i < |kept| ==> IsSlugSource(kept[i])
    ensures forall i :: 0 <= i < |Lower(Strip(kept))| ==> IsKebabSource(Lower(Strip(kept))[i])
  {
    StripMembers(kept);
    var t := Strip(kept);
    forall i | 0 <= i < |t| ensures IsSlugSource(t[i]) {
      assert t[i] in t;
      var k :| 0 <= k < |kept| && kept[k] == t[i];
    }
  }

  /** A slug is its own slug. */
  lemma SlugifyIdempotent(full: string)
    ensures Slugify(Slugify(full)) == Slugify(full)
  {
    SlugifyFixes(Slugify(full));
  }

  /** Every step of `_slugify` leaves a string of `[a-z0-9-]` without dash runs unchanged. */
  lemma SlugifyFixes(r: string)
    requires AllSlugChars(r) && NoDashRun(r)
    ensures Slugify(r) == r
  {
    SlugCharsPass(r);
    KeepAll(r, IsSlugSource);
    StripNoop(r);
    LowerNoop(r);
    SquashRunsNoop(r, IsSpace);
    SquashDashesNoop(r);
  }

  lemma SlugCharsPass(r: string)
    requires AllSlugChars(r)
    ensures forall i :: 0 <= i < |r| ==> IsSlugSource(r[i]) && !IsSpace(r[i]) && !IsUpper(r[i])
  {
  }

  // ---------------------------------------------------------------------------
  // _name_tokens
  // ---------------------------------------------------------------------------

  /** `re.sub(r"[^a-zA-Z0-9\s-]", " ", s)`: every other character becomes a space. */
  function Blank(s: string): (r: string)
    ensures |r| == |s|
    ensures forall i :: 0 <= i < |s| ==> r[i] == (if IsSlugSource(s[i]) then s[i] else ' ')
  {
    seq(|s|, i requires 0 <= i < |s| => if IsSlugSource(s[i]) then s[i] else ' ')
  }

  /** The words `_name_tokens` works on: the blanked name, stripped, lower-cased, split on
      whitespace runs with empty pieces dropped. */
  function NameWords(full: string): seq<string> {
    Words(Lower(Strip(Blank(full))))
  }

  /** `min(len(p), 6)`: the longest prefix `_name_tokens` adds. */
  function PrefixCap(p: string): nat {
    if |p| < 6 then |p| else 6
  }

  /** The word followed by its prefixes of lengths 2 to `min(len(p), 6)`. */
  function Expansion(p: string): (r: seq<string>)
    ensures |r| >= 1 && r[0] == p
  {
    [p] + seq(if PrefixCap(p) >= 2 then PrefixCap(p) - 1 else 0, j requires 0 <= j < PrefixCap(p) - 1 => p[..j + 2])
  }

  /** A word or one of the prefixes `_name_tokens` takes of it. */
  predicate IsExpansionOf(t: string, p: string) {
    t == p || (2 <= |t| <= PrefixCap(p) && t == p[..|t|])
  }

  lemma ExpansionMembers(p: string, t: string)
    ensures t in Expansion(p) <==> IsExpansionOf(t, p)
  {
    var e := Expansion(p);
    if IsExpansionOf(t, p) && t != p {
      assert e[|t| - 1] == t;
    }
  }

  /** The token list before de-duplication: each word's expansion, word by word. */
  function Candidates(parts: seq<string>): seq<string> {
    if parts == [] then [] else Candidates(parts[..|parts| - 1]) + Expansion(parts[|parts| - 1])
  }

  lemma {:induction false} CandidatesMembers(parts: seq<string>, t: string)
    ensures t in Candidates(parts) <==> exists p :: p in parts && IsExpansionOf(t, p)
    decreases |parts|
  {
    if parts != [] {
      var init, last := parts[..|parts| - 1], parts[|parts| - 1];
      CandidatesMembers(init, t);
      ExpansionMembers(last, t);
      assert parts == init + [last];
      if exists p :: p in parts && IsExpansionOf(t, p) {
        var p :| p in parts && IsExpansionOf(t, p);
        if p != last {
          assert p in init;
        }
      }
    }
  }

  /** What `_name_tokens(full)` returns. */
  function NameTokensOf(full: string): seq<string> {
    Dedup(Candidates(NameWords(full)))
  }

  /** `_name_tokens`: the tokens are exactly the words of the name and their prefixes of length
      2 to 6 (no longer than the word), each once, in the order first produced. */
  lemma NameTokensShape(full: string)
    ensures forall t :: t in NameTokensOf(full) <==> exists p :: p in NameWords(full) && IsExpansionOf(t, p)
    ensures NoDup(NameTokensOf(full))
    ensures InFirstSeenOrder(NameTokensOf(full), Candidates(NameWords(full)))
  {
    var c := Candidates(NameWords(full));
    DedupElements(c);
    DedupFirstSeenOrder(c);
    forall t ensures t in NameTokensOf(full) <==> exists p :: p in NameWords(full) && IsExpansionOf(t, p) {
      CandidatesMembers(NameWords(full), t);
    }
  }

  /** Every word of the name is among its tokens. */
  lemma NameWordsAreTokens(full: string, p: string)
    requires p in NameWords(full)
    ensures p in NameTokensOf(full)
  {
    NameTokensShape(full);
    assert IsExpansionOf(p, p);
  }

  /** `_name_tokens` as the source runs it: the words expanded into `toks`, then the loop with
      the `seen` set that keeps first occurrences. */
  method NameTokens(full: string) returns (out: seq<string>)
    ensures out == NameTokensOf(full)
  {
    var parts := NameWords(full);
    var toks := ExpandWords(parts);
    var seen: set<string> := {};
    out := [];
    var i := 0;
    while i < |toks|
      invariant 0 <= i <= |toks|
      invariant out == Dedup(toks[..i])
      invariant forall t :: t in seen <==> t in out
    {
      var t := toks[i];
      assert toks[..i + 1] == toks[..i] + [t];
      if t !in seen {
        out := out + [t];
        seen := seen + {t};
      }
      i := i + 1;
    }
    assert toks[..|toks|] == toks;
  }

  /** The first loop of `_name_tokens`: each word, then its prefixes of length 2 to
      `min(len(p), 6)`. */
  method ExpandWords(parts: seq<string>) returns (toks: seq<string>)
    ensures toks == Candidates(parts)
  {
    toks := [];
    var i := 0;
    while i < |parts|
      invariant 0 <= i <= |parts|
      invariant toks == Candidates(parts[..i])
    {
      var p := parts[i];
      var before := toks;
      toks := toks + [p];
      var k := 2;
      while k <= PrefixCap(p)
        invariant 2 <= k <= PrefixCap(p) + 1 || (k == 2 && PrefixCap(p) < 2)
        invariant toks == before + [p] + seq(k - 2, j requires 0 <= j < k - 2 => p[..j + 2])
      {
        toks := toks + [p[..k]];
        k := k + 1;
      }
      assert toks == before + Expansion(p);
      assert parts[..i + 1][..i] == parts[..i];
      i := i + 1;
    }
    assert parts[..|parts|] == parts;
  }

  // ---------------------------------------------------------------------------
  // ensure_user_search_fields
  // ---------------------------------------------------------------------------

  /** A user document as the search sees it: its string fields and its `nameTokens` list (an
      absent list is the empty one; both are falsy). */
  datatype SearchDoc = SearchDoc(fields: Fields, nameTokens: seq<string>)

  /** `u.get("fullName") or " ".join([first or "", last or ""]).strip()`. */
  function FullNameOf(u: Fields): string {
    if Get(u, "fullName") != [] then Get(u, "fullName") else Strip(Get(u, "firstName") + " " + Get(u, "lastName"))
  }

  /** `ensure_user_search_fields(user)`: a copy with `fullName` filled in, `fullNameLower` its
      lower-case form, and `nameTokens` and `slug` computed when falsy. */
  function EnsureSearchFields(u: SearchDoc): (r: SearchDoc)
    ensures r.fields.Keys == u.fields.Keys + {"fullName", "fullNameLower", "slug"}
    ensures Get(r.fields, "fullName") == FullNameOf(u.fields)
    ensures Get(r.fields, "fullNameLower") == Lower(Get(r.fields, "fullName"))
    ensures Get(u.fields, "fullName") != [] ==> Get(r.fields, "fullName") == Get(u.fields, "fullName")
    ensures u.nameTokens != [] ==> r.nameTokens == u.nameTokens
    ensures u.nameTokens == [] ==> r.nameTokens == NameTokensOf(FullNameOf(u.fields))
    ensures Get(u.fields, "slug") != [] ==> Get(r.fields, "slug") == Get(u.fields, "slug")
    ensures Get(u.fields, "slug") == [] ==> Get(r.fields, "slug") == Slugify(FullNameOf(u.fields))
    ensures forall k :: k in u.fields && k != "fullName" && k != "fullNameLower" && k != "slug" ==>
      r.fields[k] == u.fields[k]
  {
    var full := FullNameOf(u.fields);
    var slug := if Get(u.fields, "slug") != [] then Get(u.fields, "slug") else Slugify(full);
    SearchDoc(u.fields["fullName" := full]["fullNameLower" := Lower(full)]["slug" := slug],
              if u.nameTokens != [] then u.nameTokens else NameTokensOf(full))
  }

  /** Filling in the search fields twice is filling them in once. */
  lemma EnsureSearchFieldsIdempotent(u: SearchDoc)
    ensures EnsureSearchFields(EnsureSearchFields(u)) == EnsureSearchFields(u)
  {
    var r := EnsureSearchFields(u);
    FullNameSettles(u);
    RefillSettles(u, r, EnsureSearchFields(r));
  }

  /** What `EnsureSearchFields` promises about `b` as the filled-in copy of `a`. */
  ghost predicate Refilled(a: SearchDoc, b: SearchDoc) {
    && b.fields.Keys == a.fields.Keys + {"fullName", "fullNameLower", "slug"}
    && Get(b.fields, "fullName") == FullNameOf(a.fields)
    && Get(b.fields, "fullNameLower") == Lower(Get(b.fields, "fullName"))
    && (a.nameTokens != [] ==> b.nameTokens == a.nameTokens)
    && (a.nameTokens == [] ==> b.nameTokens == NameTokensOf(FullNameOf(a.fields)))
    && (Get(a.fields, "slug") != [] ==> Get(b.fields, "slug") == Get(a.fields, "slug"))
    && (Get(a.fields, "slug") == [] ==> Get(b.fields, "slug") == Slugify(FullNameOf(a.fields)))
    && (forall k :: k in a.fields && k != "fullName" && k != "fullNameLower" && k != "slug" ==>
          b.fields[k] == a.fields[k])
  }

  lemma RefillSettles(u: SearchDoc, r: SearchDoc, rr: SearchDoc)
    requires Refilled(u, r) && Refilled(r, rr) && FullNameOf(r.fields) == FullNameOf(u.fields)
    ensures rr == r
  {
    forall k | k in rr.fields ensures k in r.fields && rr.fields[k] == r.fields[k] {
      if k == "fullName" || k == "fullNameLower" {
        assert Get(rr.fields, k) == Get(r.fields, k);
      } else if k == "slug" {
        assert Get(rr.fields, "slug") == Get(r.fields, "slug");
      }
    }
  }

  /** The filled-in full name is the one a second pass would compute. */
  lemma FullNameSettles(u: SearchDoc)
    ensures FullNameOf(EnsureSearchFields(u).fields) == FullNameOf(u.fields)
  {
    var f := EnsureSearchFields(u).fields;
    assert Get(f, "firstName") == Get(u.fields, "firstName");
    assert Get(f, "lastName") == Get(u.fields, "lastName");
  }

  // ---------------------------------------------------------------------------
  // search_users
  // ---------------------------------------------------------------------------

  /** A document of the `users` collection with its id, as a query streams it. */
  datatype Stored = Stored(id: string, doc: SearchDoc)

  /** The minimal card `search_users` returns for a user. */
  datatype Card = Card(id: string, fullName: string, slug: string, avatarUrl: Option<string>)

  /** The card of a document whose search fields are filled in. */
  function CardFrom(id: string, u: SearchDoc): Card {
    var full := Get(u.fields, "fullName");
    Card(id, full,
         if Get(u.fields, "slug") != [] then Get(u.fields, "slug") else Slugify(full),
         if Get(u.fields, "avatarUrl") != [] then Some(Get(u.fields, "avatarUrl")) else None)
  }

  function CardOf(e: Stored): Card {
    CardFrom(e.id, EnsureSearchFields(e.doc))
  }

  /** The filter of the fast path and of the fallback: the query occurs in the filled-in
      `fullNameLower`. */
  function HitTest(q: string): Stored -> bool {
    (e: Stored) => Contains(Get(EnsureSearchFields(e.doc).fields, "fullNameLower"), q)
  }

  /** `[f(x) for x in xs if keep(x)]`. */
  function Select<X, Y>(xs: seq<X>, keep: X -> bool, f: X -> Y): seq<Y> {
    if xs == [] then []
    else Select(xs[..|xs| - 1], keep, f) + (if keep(xs[|xs| - 1]) then [f(xs[|xs| - 1])] else [])
  }

  lemma {:induction false} SelectAppend<X, Y>(a: seq<X>, b: seq<X>, keep: X -> bool, f: X -> Y)
    ensures Select(a + b, keep, f) == Select(a, keep, f) + Select(b, keep, f)
    decreases |b|
  {
    if b == [] {
      assert a + b == a;
    } else {
      var init := b[..|b| - 1];
      SelectAppend(a, init, keep, f);
      assert (a + b)[..|a + b| - 1] == a + init;
    }
  }

  lemma SelectSnoc<X, Y>(xs: seq<X>, i: nat, keep: X -> bool, f: X -> Y)
    requires i < |xs|
    ensures Select(xs[..i + 1], keep, f) == Select(xs[..i], keep, f) + (if keep(xs[i]) then [f(xs[i])] else [])
  {
    assert xs[..i + 1][..i] == xs[..i];
  }

  /** Once the first `i + 1` elements yield `limit` results, those are the first `limit`
      results of the whole input. */
  lemma SelectTakeStop<X, Y>(xs: seq<X>, i: nat, keep: X -> bool, f: X -> Y, limit: nat)
    requires i < |xs| && |Select(xs[..i + 1], keep, f)| == limit
    ensures Take(Select(xs, keep, f), limit) == Select(xs[..i + 1], keep, f)
  {
    SelectAppend(xs[..i + 1], xs[i + 1..], keep, f);
    assert xs[..i + 1] + xs[i + 1..] == xs;
  }

  /** Every kept element of the input yields its `f`. */
  lemma SelectHas<X, Y>(xs: seq<X>, keep: X -> bool, f: X -> Y, k: nat)
    requires k < |xs| && keep(xs[k])
    ensures f(xs[k]) in Select(xs, keep, f)
  {
    SelectSnoc(xs, k, keep, f);
    SelectAppend(xs[..k + 1], xs[k + 1..], keep, f);
    assert xs[..k + 1] + xs[k + 1..] == xs;
  }

  /** Every element `Select` yields is `f` of a kept element of the input. */
  lemma {:induction false} SelectFrom<X, Y>(xs: seq<X>, keep: X -> bool, f: X -> Y, y: Y)
    requires y in Select(xs, keep, f)
    ensures exists k :: 0 <= k < |xs| && keep(xs[k]) && y == f(xs[k])
    decreases |xs|
  {
    var init := xs[..|xs| - 1];
    if y in Select(init, keep, f) {
      SelectFrom(init, keep, f, y);
      var k :| 0 <= k < |init| && keep(init[k]) && y == f(init[k]);
      assert xs[k] == init[k];
    }
  }

  /** The cards of the documents that hit, in stream order. */
  function Matches(docs: seq<Stored>, q: string): seq<Card> {
    Select(docs, HitTest(q), CardOf)
  }

  /** Every card `Matches` keeps has the query in its lower-cased full name and is the card of
      a streamed document. */
  lemma MatchesShape(docs: seq<Stored>, q: string)
    ensures forall c :: c in Matches(docs, q) ==> Contains(Lower(c.fullName), q) && c in Cards(docs)
  {
    forall c | c in Matches(docs, q) ensures Contains(Lower(c.fullName), q) && c in Cards(docs) {
      SelectFrom(docs, HitTest(q), CardOf, c);
      var k :| 0 <= k < |docs| && HitTest(q)(docs[k]) && c == CardOf(docs[k]);
      assert Cards(docs)[k] == c;
    }
  }

  /** The cards of `docs`, in order (the card-building loop of the prefix path). */
  function Cards(docs: seq<Stored>): (r: seq<Card>)
    ensures |r| == |docs| && forall i :: 0 <= i < |docs| ==> r[i] == CardOf(docs[i])
  {
    MapSeq(docs, CardOf)
  }

  /** `[f(x) for x in xs]`. */
  function MapSeq<X, Y>(xs: seq<X>, f: X -> Y): (r: seq<Y>)
    ensures |r| == |xs| && forall i :: 0 <= i < |xs| ==> r[i] == f(xs[i])
  {
    seq(|xs|, i requires 0 <= i < |xs| => f(xs[i]))
  }

  lemma MapSnoc<X, Y>(xs: seq<X>, i: nat, f: X -> Y)
    requires i < |xs|
    ensures MapSeq(xs[..i + 1], f) == MapSeq(xs[..i], f) + [f(xs[i])]
  {
    var a, b := MapSeq(xs[..i + 1], f), MapSeq(xs[..i], f) + [f(xs[i])];
    forall k | 0 <= k < |a| ensures a[k] == b[k] {
      if k < i {
        assert xs[..i + 1][k] == xs[..i][k];
      }
    }
  }

  /** One streamed document of the fast path or the fallback: fill in its search fields, test
      the query against `fullNameLower`, and build its card. */
  method ScanOne(d: Stored, q: string) returns (hit: bool, card: Card)
    ensures hit == HitTest(q)(d) && card == CardOf(d)
  {
    var u := EnsureSearchFields(d.doc);
    hit := Contains(Get(u.fields, "fullNameLower"), q);
    card := CardFrom(d.id, u);
  }

  /** The fast-path loop: append the card of each streamed document that `Hits`, and stop once
      `limit` cards are collected. With a `limit` of one or more that is the first `limit`
      matches; below one the loop stops after the first document. */
  method FastPath(docs: seq<Stored>, q: string, limit: int) returns (results: seq<Card>)
    ensures results == if limit >= 1 then Take(Matches(docs, q), limit) else Matches(Take(docs, 1), q)
  {
    results := [];
    var i := 0;
    while i < |docs|
      invariant 0 <= i <= |docs|
      invariant results == Select(docs[..i], HitTest(q), CardOf)
      invariant limit >= 1 ==> |results| < limit
      invariant limit < 1 ==> i == 0
    {
      var hit, card := ScanOne(docs[i], q);
      SelectSnoc(docs, i, HitTest(q), CardOf);
      if hit {
        results := results + [card];
      }
      if |results| >= limit {
        StopEarly(docs, HitTest(q), CardOf, i, limit, results);
        return;
      }
      i := i + 1;
    }
    assert docs[..i] == docs;
  }


  /** Stopping the fast-path loop after `xs[i]` with `results` collected so far: with a
      `limit` of one or more they are the first `limit` selected elements; below one, the
      selection from the first element alone. */
  lemma StopEarly<X, Y>(xs: seq<X>, keep: X -> bool, f: X -> Y, i: nat, limit: int, results: seq<Y>)
    requires i < |xs| && results == Select(xs[..i + 1], keep, f) && |results| >= limit
    requires limit >= 1 ==> |results| <= limit
    requires limit < 1 ==> i == 0
    ensures results == if limit >= 1 then Take(Select(xs, keep, f), limit) else Select(Take(xs, 1), keep, f)
  {
    if limit < 1 {
      assert xs[..i + 1] == Take(xs, 1);
    } else {
      SelectTakeStop(xs, i, keep, f, limit);
    }
  }

  /** The loop of the fallback scan that builds `basket`. */
  method CollectMatches(docs: seq<Stored>, q: string) returns (basket: seq<Card>)
    ensures basket == Matches(docs, q)
  {
    basket := [];
    var i := 0;
    while i < |docs|
      invariant 0 <= i <= |docs|
      invariant basket == Matches(docs[..i], q)
    {
      var hit, card := ScanOne(docs[i], q);
      SelectSnoc(docs, i, HitTest(q), CardOf);
      if hit {
        basket := basket + [card];
      }
      i := i + 1;
    }
    assert docs[..|docs|] == docs;
  }

  /** `array_contains` of `q[:6]` on the stored `nameTokens`. */
  function TokenTest(q: string): Stored -> bool {
    (e: Stored) => Take(q, 6) in e.doc.nameTokens
  }

  /** The array-contains query of the fast path, on the stored `nameTokens`, limited to
      `limit * 2` documents (`limit >= 0`). */
  function FastQuery(all: seq<Stored>, q: string, limit: nat): seq<Stored> {
    Take(Where(all, TokenTest(q)), limit * 2)
  }

  /** `start_at(q)` / `end_at(q + "\uf8ff")` on the stored `fullNameLower`; a document
      without that field is not in the ordered query at all. */
  predicate InPrefixRange(e: Stored, q: string) {
    "fullNameLower" in e.doc.fields
    && LessEq(q, e.doc.fields["fullNameLower"]) && LessEq(e.doc.fields["fullNameLower"], q + ['\U{F8FF}'])
  }

  function RangeTest(q: string): Stored -> bool {
    (e: Stored) => InPrefixRange(e, q)
  }

  /** `order_by("fullNameLower")`; ties stay in document-id order, which the stream starts in. */
  predicate ByLower(a: Stored, b: Stored) {
    LessEq(Get(a.doc.fields, "fullNameLower"), Get(b.doc.fields, "fullNameLower"))
  }

  /** The prefix query: the documents in the range, ordered by `fullNameLower`, at most
      `limit` of them. */
  function PrefixQuery(all: seq<Stored>, q: string, limit: nat): seq<Stored> {
    Take(SortBy(Where(all, RangeTest(q)), ByLower), limit)
  }

  /** A string between `q` and `q + "\uf8ff"` starts with `q`. */
  lemma {:induction false} RangeStartsWith(q: string, x: string)
    requires LessEq(q, x) && LessEq(x, q + ['\U{F8FF}'])
    ensures StartsWith(x, q)
    decreases |q|
  {
    if q != [] {
      assert x != [];
      assert (q + ['\U{F8FF}'])[0] == q[0] && (q + ['\U{F8FF}'])[1..] == q[1..] + ['\U{F8FF}'];
      assert x[0] == q[0];
      RangeStartsWith(q[1..], x[1..]);
      assert x[..|q|] == [x[0]] + x[1..][..|q| - 1];
    }
  }

  /** Every document the prefix query yields has a stored `fullNameLower` that starts with the
      query. */
  lemma PrefixQueryStartsWith(all: seq<Stored>, q: string, limit: nat)
    ensures forall e :: e in PrefixQuery(all, q, limit) ==>
      "fullNameLower" in e.doc.fields && StartsWith(e.doc.fields["fullNameLower"], q)
  {
    var w := Where(all, RangeTest(q));
    SortByMembers(w, ByLower);
    forall e | e in PrefixQuery(all, q, limit)
      ensures "fullNameLower" in e.doc.fields && StartsWith(e.doc.fields["fullNameLower"], q)
    {
      TakeMembers(SortBy(w, ByLower), limit);
      assert e in SortBy(w, ByLower);
      WhereMembers(all, RangeTest(q), e);
      RangeStartsWith(q, e.doc.fields["fullNameLower"]);
    }
  }

  /** Whether a card's lower-cased name starts with the query (the fallback's first group). */
  function StartsTest(q: string): Card -> bool {
    (c: Card) => StartsWith(Lower(c.fullName), q)
  }

  /** The fallback's light ranking: `starts`, then `[r for r in basket if r not in starts]`. */
  function Rank(basket: seq<Card>, q: string): seq<Card> {
    var starts := Where(basket, StartsTest(q));
    starts + Where(basket, NotIn(starts))
  }

  /** `[r for r in basket if r not in starts]`. */
  function NotIn(starts: seq<Card>): Card -> bool {
    (c: Card) => c !in starts
  }

  /** Whether a card's lower-cased name does not start with the query (the second group). */
  function OthersTest(q: string): Card -> bool {
    (c: Card) => !StartsWith(Lower(c.fullName), q)
  }

  /** The ranking is the basket's cards whose name starts with the query, then the others, each
      group in basket order; so it holds exactly the cards of the basket, as many as the basket,
      and every card whose name starts with the query comes before every card whose name does
      not. */
  lemma RankShape(basket: seq<Card>, q: string)
    ensures Rank(basket, q) == Where(basket, StartsTest(q)) + Where(basket, OthersTest(q))
    ensures |Rank(basket, q)| == |basket|
    ensures forall c :: c in Rank(basket, q) <==> c in basket
    ensures var r := Rank(basket, q);
      forall i, j :: 0 <= i < j < |r| && StartsTest(q)(r[j]) ==> StartsTest(q)(r[i])
  {
    var starts := Where(basket, StartsTest(q));
    var subs := Where(basket, NotIn(starts));
    var r := starts + subs;
    assert r == Rank(basket, q);
    forall i | 0 <= i < |basket| ensures NotIn(starts)(basket[i]) == OthersTest(q)(basket[i]) {
      WhereMembers(basket, StartsTest(q), basket[i]);
    }
    WhereAgree(basket, NotIn(starts), OthersTest(q));
    WhereComplement(basket, StartsTest(q), OthersTest(q));
    forall c ensures c in r <==> c in basket {
      WhereMembers(basket, StartsTest(q), c);
      WhereMembers(basket, NotIn(starts), c);
    }
    forall i, j | 0 <= i < j < |r| && StartsTest(q)(r[j]) ensures StartsTest(q)(r[i]) {
      if j >= |starts| {
        var c := r[j];
        assert c == subs[j - |starts|] && c in subs;
        WhereMembers(basket, NotIn(starts), c);
        WhereMembers(basket, StartsTest(q), c);
        assert false;
      } else {
        assert r[i] == starts[i] && r[i] in starts;
        WhereMembers(basket, StartsTest(q), r[i]);
      }
    }
  }

  /** `(query or "").strip().lower()` (a missing query is the empty string). */
  function Normalize(query: string): string {
    Lower(Strip(query))
  }

  /** The fast path's answer for `limit >= 0`: the first `limit` matches among the documents the
      array-contains query yields. */
  function FastResult(all: seq<Stored>, q: string, limit: nat): seq<Card> {
    Take(Matches(FastQuery(all, q, limit), q), limit)
  }

  /** The prefix path's answer: a card for every document of the prefix query. */
  function PrefixResult(all: seq<Stored>, q: string, limit: nat): seq<Card> {
    Cards(PrefixQuery(all, q, limit))
  }

  /** The fallback's answer: the matches among the first 400 documents, ranked, then `[:limit]`. */
  function FallbackResult(all: seq<Stored>, q: string, limit: int): seq<Card> {
    SliceTo(Rank(Matches(Take(all, 400), q), q), limit)
  }

  /** `search_users(query, limit)` over the collection `all` (in document-id order). The fast and
      prefix queries answer only when their index is available and `limit >= 0` (the query
      refuses a negative limit); an empty answer falls through to the next stage. The fallback
      scan answers `[]` when the read fails (`scanOk` false). */
  function SearchResult(query: string, limit: int, all: seq<Stored>, fastIndex: bool, prefixIndex: bool,
                        scanOk: bool): seq<Card>
  {
    var q := Normalize(query);
    if |q| < 2 then []
    else if fastIndex && limit >= 0 && FastResult(all, q, limit) != [] then FastResult(all, q, limit)
    else if prefixIndex && limit >= 0 && PrefixResult(all, q, limit) != [] then PrefixResult(all, q, limit)
    else if scanOk then FallbackResult(all, q, limit)
    else []
  }

  /** A card taken from a document of the collection. */
  predicate FromCollection(all: seq<Stored>, c: Card) {
    exists k :: 0 <= k < |all| && CardOf(all[k]) == c
  }

  /** The card of a document of the collection whose stored `fullNameLower` starts with `q`. */
  predicate StoredPrefixHit(all: seq<Stored>, c: Card, q: string) {
    exists e :: e in all && c == CardOf(e) && "fullNameLower" in e.doc.fields && StartsWith(e.doc.fields["fullNameLower"], q)
  }

  /** The cards of a selection of documents come from the collection. */
  lemma CardsFromCollection(docs: seq<Stored>, all: seq<Stored>)
    requires forall e :: e in docs ==> e in all
    ensures forall c :: c in Cards(docs) ==> FromCollection(all, c)
  {
    forall c | c in Cards(docs) ensures FromCollection(all, c) {
      var i :| 0 <= i < |docs| && Cards(docs)[i] == c;
      assert docs[i] in all;
      var k :| 0 <= k < |all| && all[k] == docs[i];
    }
  }

  lemma TakeMembers<T>(xs: seq<T>, n: nat)
    ensures forall x :: x in Take(xs, n) ==> x in xs
  {
    var r := Take(xs, n);
    forall x | x in r ensures x in xs {
      var i :| 0 <= i < |r| && r[i] == x;
      assert xs[i] == x;
    }
  }

  lemma SliceToMembers<T>(xs: seq<T>, n: int)
    ensures forall x :: x in SliceTo(xs, n) ==> x in xs
  {
    var r := SliceTo(xs, n);
    forall x | x in r ensures x in xs {
      var i :| 0 <= i < |r| && r[i] == x;
      assert xs[i] == x;
    }
  }

  /** Every fast-path card has the query in its lower-cased full name and comes from the
      collection. */
  lemma FastResultShape(all: seq<Stored>, q: string, limit: nat)
    ensures |FastResult(all, q, limit)| <= limit
    ensures forall c :: c in FastResult(all, q, limit) ==> Contains(Lower(c.fullName), q) && FromCollection(all, c)
  {
    var docs := FastQuery(all, q, limit);
    var w := Where(all, TokenTest(q));
    TakeMembers(w, limit * 2);
    TakeMembers(Matches(docs, q), limit);
    MatchesShape(docs, q);
    forall e | e in docs ensures e in all {
      WhereMembers(all, TokenTest(q), e);
    }
    CardsFromCollection(docs, all);
  }

  /** Every prefix-path card is the card of a document of the collection whose stored
      `fullNameLower` starts with the query, and there are at most `limit` of them. */
  lemma PrefixResultShape(all: seq<Stored>, q: string, limit: nat)
    ensures |PrefixResult(all, q, limit)| <= limit
    ensures forall c :: c in PrefixResult(all, q, limit) ==> StoredPrefixHit(all, c, q)
  {
    var docs := PrefixQuery(all, q, limit);
    var w := Where(all, RangeTest(q));
    PrefixQueryStartsWith(all, q, limit);
    SortByMembers(w, ByLower);
    TakeMembers(SortBy(w, ByLower), limit);
    forall c | c in PrefixResult(all, q, limit) ensures StoredPrefixHit(all, c, q) {
      var i :| 0 <= i < |docs| && Cards(docs)[i] == c;
      assert docs[i] in docs;
      WhereMembers(all, RangeTest(q), docs[i]);
    }
  }

  /** Every fallback card has the query in its lower-cased full name and comes from the first
      400 documents; the cards whose name starts with the query come first; at most `limit`
      when `limit >= 0`. */
  lemma FallbackResultShape(all: seq<Stored>, q: string, limit: int)
    ensures limit >= 0 ==> |FallbackResult(all, q, limit)| <= limit
    ensures forall c :: c in FallbackResult(all, q, limit) ==> Contains(Lower(c.fullName), q) && FromCollection(all, c)
    ensures var r := FallbackResult(all, q, limit);
      forall i, j :: 0 <= i < j < |r| && StartsTest(q)(r[j]) ==> StartsTest(q)(r[i])
  {
    var docs := Take(all, 400);
    var basket := Matches(docs, q);
    var ranked := Rank(basket, q);
    SliceToMembers(ranked, limit);
    MatchesShape(docs, q);
    TakeMembers(all, 400);
    CardsFromCollection(docs, all);
    RankShape(basket, q);
    var r := FallbackResult(all, q, limit);
    forall i, j | 0 <= i < j < |r| && StartsTest(q)(r[j]) ensures StartsTest(q)(r[i]) {
      assert r[i] == ranked[i] && r[j] == ranked[j];
    }
  }

  /** The fallback's cards are a prefix of the two groups in scan order, and all of them when
      the matches of the first 400 documents fit in `limit`. */
  lemma FallbackOrderComplete(all: seq<Stored>, q: string, limit: int)
    ensures var basket := Matches(Take(all, 400), q);
      var r := FallbackResult(all, q, limit);
      var ranked := Where(basket, StartsTest(q)) + Where(basket, OthersTest(q));
      |r| <= |ranked| && r == ranked[..|r|]
    ensures 0 <= limit && |Matches(Take(all, 400), q)| <= limit ==>
      forall k :: 0 <= k < |all| && k < 400 && HitTest(q)(all[k]) ==> CardOf(all[k]) in FallbackResult(all, q, limit)
  {
    var docs := Take(all, 400);
    var basket := Matches(docs, q);
    var ranked := Rank(basket, q);
    RankShape(basket, q);
    var r := FallbackResult(all, q, limit);
    assert r == ranked[..|r|];
    if 0 <= limit && |basket| <= limit {
      assert r == ranked;
      forall k | 0 <= k < |all| && k < 400 && HitTest(q)(all[k]) ensures CardOf(all[k]) in r {
        assert docs[k] == all[k];
        SelectHas(docs, HitTest(q), CardOf, k);
      }
    }
  }

  /** `search_users`: a query shorter than two characters after stripping and lower-casing
      gives `[]`; never more than `limit` cards for `limit >= 0`; every card is that of a
      document of the collection, and either has the query in its lower-cased full name (fast
      path and fallback) or was stored with a `fullNameLower` that starts with it (prefix path). */
  lemma SearchResultShape(query: string, limit: int, all: seq<Stored>, fastIndex: bool, prefixIndex: bool,
                          scanOk: bool)
    ensures var r := SearchResult(query, limit, all, fastIndex, prefixIndex, scanOk);
      (|Normalize(query)| < 2 ==> r == [])
      && (limit >= 0 ==> |r| <= limit)
      && forall c :: c in r ==>
        FromCollection(all, c) && (Contains(Lower(c.fullName), Normalize(query)) || StoredPrefixHit(all, c, Normalize(query)))
  {
    var q := Normalize(query);
    if |q| >= 2 {
      if limit >= 0 {
        FastResultShape(all, q, limit);
        PrefixResultShape(all, q, limit);
        forall c | c in PrefixResult(all, q, limit) ensures FromCollection(all, c) {
          var e :| e in all && c == CardOf(e) && "fullNameLower" in e.doc.fields;
          var k :| 0 <= k < |all| && all[k] == e;
        }
      }
      FallbackResultShape(all, q, limit);
    }
  }

  lemma CardsSnoc(docs: seq<Stored>, i: nat)
    requires i < |docs|
    ensures Cards(docs[..i + 1]) == Cards(docs[..i]) + [CardOf(docs[i])]
  {
    MapSnoc(docs, i, CardOf);
  }

  /** The card loop of the prefix path. */
  method BuildCards(docs: seq<Stored>) returns (results: seq<Card>)
    ensures results == Cards(docs)
  {
    results := [];
    var i := 0;
    while i < |docs|
      invariant 0 <= i <= |docs|
      invariant results == Cards(docs[..i])
    {
      CardsSnoc(docs, i);
      results := results + [CardOf(docs[i])];
      i := i + 1;
    }
    assert docs[..|docs|] == docs;
  }

  /** `search_users` as the source runs it: the fast-path loop with its early stop, the card loop
      of the prefix path, and the fallback scan, each answering when it found something. */
  method SearchUsers(query: string, limit: int, all: seq<Stored>, fastIndex: bool, prefixIndex: bool,
                     scanOk: bool) returns (r: seq<Card>)
    ensures r == SearchResult(query, limit, all, fastIndex, prefixIndex, scanOk)
  {
    var q := Normalize(query);
    if |q| < 2 {
      return [];
    }
    if fastIndex && limit >= 0 {
      var results := FastPath(FastQuery(all, q, limit), q, limit);
      if limit == 0 {
        assert FastQuery(all, q, limit) == [];
      }
      assert results == FastResult(all, q, limit);
      if results != [] {
        assert SliceTo(results, limit) == results;
        return SliceTo(results, limit);
      }
    }
    if prefixIndex && limit >= 0 {
      var results := BuildCards(PrefixQuery(all, q, limit));
      assert results == PrefixResult(all, q, limit) && |results| <= limit;
      if results != [] {
        assert SliceTo(results, limit) == results;
        return SliceTo(results, limit);
      }
    }
    if !scanOk {
      return [];
    }
    var basket := CollectMatches(Take(all, 400), q);
    r := SliceTo(Rank(basket, q), limit);
  }
}
