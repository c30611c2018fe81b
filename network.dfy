/** backend/network.py: display slugs, batching of uid lists, the follower-uid merge, occupation
    bucketing, interest derivation, and the token scoring used by the local semantic fallback. */
module Network {
  import opened Wrappers
  import opened Strings

  // ---------------------------------------------------------------------------
  // kebab_name
  // ---------------------------------------------------------------------------

  /** The text `kebab_name` slugs: the stripped full name when it is not blank, otherwise first
      and last name joined by a space and stripped, and `"user"` when that is empty too. */
  function SlugBase(first: Option<string>, last: Option<string>, full: Option<string>): string {
    if full.Some? && Strip(full.value) != [] then Strip(full.value)
    else
      var joined := Strip(first.GetOr("") + " " + last.GetOr(""));
      if joined == [] then "user" else joined
  }

  /** Lower-case, drop everything but `[a-z0-9\s-]`, then `KebabTail`. */
  function Kebabize(base: string): (r: string)
    ensures IsKebab(r)
  {
    var lowered := Lower(base);
    KeepMembers(lowered, IsKebabSource);
    KebabTailShape(Keep(lowered, IsKebabSource));
    KebabTail(Keep(lowered, IsKebabSource))
  }

  /** `s or "user"`. */
  function OrUser(s: string): (r: string)
    requires IsKebab(s)
    ensures IsKebab(r) && r != []
    ensures s != [] ==> r == s
    ensures s == [] ==> r == "user"
  {
    if s == [] then "user" else s
  }

  /** `kebab_name(first, last, full)`: lower-case, drop everything but `[a-z0-9\s-]`, turn
      whitespace runs and dash runs into single dashes, strip dashes, and fall back to `"user"`.
      The result is always a non-empty kebab slug: the cleaned name when anything of it
      survives, `"user"` otherwise. */
  function KebabName(first: Option<string>, last: Option<string>, full: Option<string>): (r: string)
    ensures IsKebab(r) && r != []
    ensures Kebabize(SlugBase(first, last, full)) != [] ==> r == Kebabize(SlugBase(first, last, full))
    ensures Kebabize(SlugBase(first, last, full)) == [] ==> r == "user"
  {
    OrUser(Kebabize(SlugBase(first, last, full)))
  }

  /** When the full name is not blank it alone decides the slug; first and last name are ignored. */
  lemma KebabNameFullWins(f1: Option<string>, l1: Option<string>, f2: Option<string>, l2: Option<string>, full: string)
    requires Strip(full) != []
    ensures KebabName(f1, l1, Some(full)) == KebabName(f2, l2, Some(full))
  {
  }

  /** A full name none of whose characters is a letter, digit, whitespace or dash gives `"user"`. */
  lemma KebabNameNothingSurvives(full: string)
    requires Strip(full) != []
    requires forall i :: 0 <= i < |full| ==> !IsAlnum(full[i]) && !IsSpace(full[i]) && full[i] != '-'
    ensures KebabName(None, None, Some(full)) == "user"
  {
    var t := TrimStart(full, IsSpace);
    var b := TrimEnd(t, IsSpace);
    assert SlugBase(None, None, Some(full)) == b;
    var lowered := Lower(b);
    forall i | 0 <= i < |lowered| ensures !IsKebabSource(lowered[i]) {
      assert b[i] == t[i] == full[|full| - |t| + i];
    }
    KeepNone(lowered, IsKebabSource);
    assert Kebabize(b) == [];
  }

  /** A full name made only of dashes keeps them through the filter and loses them to the
      final strip, so it gives `"user"`. */
  lemma KebabNameOnlyDashes(full: string)
    requires full != [] && forall i :: 0 <= i < |full| ==> full[i] == '-'
    ensures KebabName(None, None, Some(full)) == "user"
  {
    StripNoop(full);
    assert SlugBase(None, None, Some(full)) == full;
    LowerNoop(full);
    KeepAll(full, IsKebabSource);
    var spaced := SquashRuns(full, IsSpace);
    var dashed := SquashRuns(spaced, IsDash);
    assert forall i :: 0 <= i < |dashed| ==> dashed[i] in dashed;
    StripDashesAllDashes(dashed);
    assert Kebabize(full) == [];
  }

  /** A kebab slug passes through `Kebabize` unchanged. */
  lemma KebabizeNoop(s: string)
    requires IsKebab(s)
    ensures Kebabize(s) == s
  {
    LowerNoop(s);
    KeepAll(s, IsKebabSource);
    KebabTailNoop(s);
  }

  /** Slugging a slug changes nothing: `kebab_name` is idempotent on its own output. */
  lemma KebabNameIdempotent(first: Option<string>, last: Option<string>, full: Option<string>)
    ensures var s := KebabName(first, last, full); KebabName(None, None, Some(s)) == s
  {
    var s := KebabName(first, last, full);
    SlugBaseOfSlug(s);
    KebabizeNoop(s);
  }

  lemma SlugBaseOfSlug(s: string)
    requires IsKebab(s) && s != []
    ensures SlugBase(None, None, Some(s)) == s
  {
    StripNoop(s);
  }

  // ---------------------------------------------------------------------------
  // _chunk
  // ---------------------------------------------------------------------------

  /** `_chunk(lst, n)`: consecutive slices of `n` elements, the last one possibly shorter.
      Python's `range` refuses a step of 0, so `n` must be positive; a negative `n` (which
      would make `range` empty and the result `[]`) cannot be passed to a `nat`, and the only
      caller passes 10. */
  function Chunk<T>(lst: seq<T>, n: nat): (r: seq<seq<T>>)
    requires n > 0
    ensures Concat(r) == lst
    ensures forall k :: 0 <= k < |r| ==> 0 < |r[k]| <= n
    ensures forall k :: 0 <= k < |r| - 1 ==> |r[k]| == n
    decreases |lst|
  {
    if lst == [] then []
    else if |lst| <= n then
      assert Concat([lst]) == lst + Concat<T>([]);
      [lst]
    else
      var rest := Chunk(lst[n..], n);
      assert ([lst[..n]] + rest)[1..] == rest;
      assert lst == lst[..n] + lst[n..];
      [lst[..n]] + rest
  }

  // ---------------------------------------------------------------------------
  // _fetch_follower_uids: union of the three follower sources, sorted
  // ---------------------------------------------------------------------------

  /** `sorted(set(prim) | set(subc) | set(rels))`: the union of the follower uids found in the
      user's `followers` array, the `followers` sub-collection and the `relations` collection,
      as a strictly ascending list. */
  method MergeFollowerUids(prim: seq<string>, subc: seq<string>, rels: seq<string>) returns (r: seq<string>)
    ensures StrictlySorted(r)
    ensures forall u :: u in r <==> u in prim || u in subc || u in rels
  {
    var dedup := (set u | u in prim) + (set u | u in subc) + (set u | u in rels);
    r := [];
    var rest := dedup;
    while rest != {}
      invariant rest <= dedup
      invariant StrictlySorted(r)
      invariant forall u :: u in r <==> u in dedup && u !in rest
      decreases rest
    {
      var u :| u in rest;
      r := InsertSorted(r, u);
      rest := rest - {u};
    }
  }

  // ---------------------------------------------------------------------------
  // normalize_occ
  // ---------------------------------------------------------------------------

  const OccDefault := "Other"

  /** One alternative of the occupation regexes: a literal, or `left\s*right`. */
  datatype Pattern = Lit(text: string) | Spaced(left: string, right: string)

  predicate PatternIn(p: Pattern, low: string) {
    match p
    case Lit(t) => Contains(low, t)
    case Spaced(a, b) =>
      exists i, j :: 0 <= i <= j <= |low| && OccursAt(low, a, i) && i + |a| <= j
        && IsBlank(low[i + |a|..j]) && OccursAt(low, b, j)
  }

  /** One `if re.search(...)` line of `normalize_occ`: its alternatives and the category it returns. */
  datatype OccRule = OccRule(alternatives: seq<Pattern>, category: string)

  const OccRules: seq<OccRule> := [
    OccRule([Lit("software"), Lit("swe"), Lit("developer"), Lit("engineer"), Spaced("full", "stack"),
             Lit("backend"), Lit("frontend")], "Software Engineer"),
    OccRule([Lit("data"), Lit("ml"), Lit("ai"), Lit("analytics"), Lit("scientist"), Lit("bi"),
             Lit("machine learning")], "Data / AI"),
    OccRule([Lit("design"), Lit("ux"), Lit("ui"), Lit("product design")], "Design"),
    OccRule([Spaced("product", "manager"), Lit("pm"), Spaced("product", "owner")], "Product"),
    OccRule([Lit("devops"), Lit("infra"), Lit("platform"), Lit("site reliability"), Lit("sre"),
             Lit("cloud")], "DevOps / Infra"),
    OccRule([Lit("security"), Lit("infosec")], "Security"),
    OccRule([Lit("student"), Lit("intern")], "Student / Intern"),
    OccRule([Lit("founder"), Lit("ceo"), Lit("cto"), Lit("coo"), Lit("startup")], "Founder")
  ]

  predicate RuleMatches(rule: OccRule, low: string) {
    exists k :: 0 <= k < |rule.alternatives| && PatternIn(rule.alternatives[k], low)
  }

  /** The index of the first rule, from `from` on, whose regex finds a match in `low`. */
  function FirstMatchingRule(low: string, from: nat): (r: Option<nat>)
    requires from <= |OccRules|
    ensures r.Some? ==> from <= r.value < |OccRules| && RuleMatches(OccRules[r.value], low)
    ensures r.Some? ==> forall k :: from <= k < r.value ==> !RuleMatches(OccRules[k], low)
    ensures r.None? ==> forall k :: from <= k < |OccRules| ==> !RuleMatches(OccRules[k], low)
    decreases |OccRules| - from
  {
    if from == |OccRules| then None
    else if RuleMatches(OccRules[from], low) then Some(from)
    else FirstMatchingRule(low, from + 1)
  }

  /** `t[:1].upper() + t[1:]`. */
  function CapitalizeFirst(t: string): (r: string)
    ensures |r| == |t| && (t != [] ==> r[1..] == t[1..] && r[0] == UpperChar(t[0]))
  {
    if t == [] then [] else [UpperChar(t[0])] + t[1..]
  }

  /** `normalize_occ(s)`: `"Other"` for a missing or blank occupation; otherwise the category of the
      first category whose pattern occurs in the lower-cased text; otherwise the stripped text
      with its first character upper-cased. */
  function NormalizeOcc(s: Option<string>): (r: string)
    ensures r != []
    ensures s.None? || IsBlank(s.value) ==> r == OccDefault
    ensures s.Some? && !IsBlank(s.value) ==>
      var low := Lower(Strip(s.value));
      && ((exists k :: 0 <= k < |OccRules| && RuleMatches(OccRules[k], low)) ==>
            exists k :: 0 <= k < |OccRules| && RuleMatches(OccRules[k], low) && r == OccRules[k].category
              && forall j :: 0 <= j < k ==> !RuleMatches(OccRules[j], low))
      && ((forall k :: 0 <= k < |OccRules| ==> !RuleMatches(OccRules[k], low)) ==>
            r == CapitalizeFirst(Strip(s.value)))
  {
    if s.None? then OccDefault
    else
      var t := Strip(s.value);
      StripEmpty(s.value);
      if t == [] then OccDefault
      else
        var low := Lower(t);
        match FirstMatchingRule(low, 0)
        case Some(k) => OccRules[k].category
        case None => CapitalizeFirst(t)
  }

  // ---------------------------------------------------------------------------
  // title_case and derive_interests
  // ---------------------------------------------------------------------------

  predicate IsCased(c: char) { IsUpper(c) || IsLowerLetter(c) }

  /** `str.title()` on ASCII: a letter right after a letter is lower-cased, any other letter is
      upper-cased; other characters are kept. */
  function TitleFrom(s: string, afterLetter: bool): (r: string)
    ensures |r| == |s|
    ensures forall i :: 0 <= i < |s| ==> (IsCased(s[i]) <==> IsCased(r[i]))
    ensures forall i :: 0 <= i < |s| && !IsCased(s[i]) ==> r[i] == s[i]
  {
    if s == [] then []
    else
      var c := s[0];
      [if !IsCased(c) then c else if afterLetter then LowerChar(c) else UpperChar(c)]
        + TitleFrom(s[1..], IsCased(c))
  }

  /** Each character satisfying `p` replaced by a space. */
  function SpaceOut(s: string, p: char -> bool): (r: string)
    ensures |r| == |s|
    ensures forall i :: 0 <= i < |s| ==> r[i] == if p(s[i]) then ' ' else s[i]
  {
    seq(|s|, i requires 0 <= i < |s| => if p(s[i]) then ' ' else s[i])
  }

  /** `s.replace("  ", " ")`: each non-overlapping pair of spaces, left to right, becomes one. */
  function HalveDoubleSpaces(s: string): (r: string)
    ensures forall c :: c in r ==> c in s
    decreases |s|
  {
    if |s| >= 2 && s[0] == ' ' && s[1] == ' ' then " " + HalveDoubleSpaces(s[2..])
    else if s == [] then []
    else [s[0]] + HalveDoubleSpaces(s[1..])
  }

  predicate IsUnderscoreOrDash(c: char) { c == '_' || c == '-' }

  /** `title_case(s)`: lower-case, `_` and `-` to spaces, strip, halve double spaces, title-case.
      The result has no `_` or `-`, and its letters are title-cased. */
  function TitleCase(s: string): (r: string)
    ensures forall i :: 0 <= i < |r| ==> !IsUnderscoreOrDash(r[i])
  {
    var spaced := SpaceOut(Lower(s), IsUnderscoreOrDash);
    var stripped := Strip(spaced);
    StripMembers(spaced);
    var halved := HalveDoubleSpaces(stripped);
    TitleFromNoSeparators(halved);
    TitleFrom(halved, false)
  }

  lemma TitleFromNoSeparators(s: string)
    requires forall c :: c in s ==> !IsUnderscoreOrDash(c)
    ensures forall i :: 0 <= i < |TitleFrom(s, false)| ==> !IsUnderscoreOrDash(TitleFrom(s, false)[i])
  {
    var r := TitleFrom(s, false);
    forall i | 0 <= i < |r| ensures !IsUnderscoreOrDash(r[i]) {
      assert s[i] in s;
    }
  }

  /** A user document as `derive_interests` reads it. A list field that is missing or not a list
      is the empty sequence; list items are given as their `str(it or "")` text. */
  datatype InterestProfile = InterestProfile(
    interests: seq<string>, skills: seq<string>, tags: seq<string>, topics: seq<string>,
    headline: Option<string>, bio: Option<string>, occupation: Option<string>)

  const Keywords: seq<string> := [
    "react", "next.js", "vue", "angular",
    "node", "express", "django", "flask",
    "python", "typescript", "javascript", "go", "rust", "java", "kotlin",
    "aws", "gcp", "azure", "kubernetes", "docker", "terraform",
    "postgres", "mysql", "mongodb", "redis",
    "ml", "ai", "llm", "pytorch", "tensorflow", "sklearn", "nlp",
    "figma", "ux", "ui",
    "security", "sre", "devops", "platform",
    "product", "pm"
  ]

  const MaxInterests := 40

  /** `push_arr(arr)`: the stripped items that are not empty, in order. */
  function NonBlankStripped(arr: seq<string>): (r: seq<string>)
    ensures |r| <= |arr|
  {
    if arr == [] then []
    else
      var init := NonBlankStripped(arr[..|arr| - 1]);
      var s := Strip(arr[|arr| - 1]);
      if s != [] then init + [s] else init
  }

  /** The keywords, in list order, that occur in `txt`. */
  function KeywordHits(txt: string, kws: seq<string>): seq<string> {
    if kws == [] then []
    else
      var init := KeywordHits(txt, kws[..|kws| - 1]);
      if Contains(txt, kws[|kws| - 1]) then init + [kws[|kws| - 1]] else init
  }

  /** The separators of `re.split(r"[,/|•·\-]+", occupation)`. */
  predicate IsOccSeparator(c: char) {
    c == ',' || c == '/' || c == '|' || c == '\U{2022}' || c == '\U{00B7}' || c == '-'
  }

  /** The longest prefix of `s` without a character satisfying `p`. */
  function SpanNot(s: string, p: char -> bool): (w: string)
    ensures |w| <= |s| && w == s[..|w|]
    ensures |w| < |s| ==> p(s[|w|])
  {
    if s == [] || p(s[0]) then [] else [s[0]] + SpanNot(s[1..], p)
  }

  /** The pieces of `s` between single separator characters. Splitting on separator runs, as the
      regex does, gives the same pieces once empty ones are dropped, which the caller does. */
  function SplitOn(s: string, p: char -> bool): seq<string>
    decreases |s|
  {
    var w := SpanNot(s, p);
    if |w| == |s| then [s] else [w] + SplitOn(s[|w| + 1..], p)
  }

  /** The occupation fallback: up to three non-empty stripped pieces of the occupation. */
  function OccupationBits(occ: string): seq<string> {
    Take(NonBlankStripped(SplitOn(occ, IsOccSeparator)), 3)
  }

  predicate Truthy(s: Option<string>) { s.Some? && s.value != [] }

  /** The `out` list of `derive_interests` before title-casing: the four list fields, then the
      keywords found in headline, bio and occupation, then the occupation fallback when nothing
      else was found. */
  function RawInterests(p: InterestProfile): seq<string> {
    var found := ListedInterests(p) + KeywordHits(InterestText(p), Keywords);
    if found == [] && Truthy(p.occupation) then OccupationBits(p.occupation.value) else found
  }

  /** The stripped, non-empty items of the four list fields, in field order. */
  function ListedInterests(p: InterestProfile): seq<string> {
    NonBlankStripped(p.interests) + NonBlankStripped(p.skills)
      + NonBlankStripped(p.tags) + NonBlankStripped(p.topics)
  }

  /** Headline, bio and occupation joined by spaces and lower-cased. */
  function InterestText(p: InterestProfile): string {
    Lower(p.headline.GetOr("") + " " + p.bio.GetOr("") + " " + p.occupation.GetOr(""))
  }

  function MapTitleCase(xs: seq<string>): (r: seq<string>)
    ensures |r| == |xs| && forall k :: 0 <= k < |xs| ==> r[k] == TitleCase(xs[k])
  {
    seq(|xs|, k requires 0 <= k < |xs| => TitleCase(xs[k]))
  }

  lemma NonBlankStrippedSnoc(arr: seq<string>, x: string)
    ensures NonBlankStripped(arr + [x]) == NonBlankStripped(arr) + if Strip(x) != [] then [Strip(x)] else []
  {
    assert (arr + [x])[..|arr|] == arr;
  }

  /** Appends the stripped non-empty items of `arr` to `out`, like `push_arr`. */
  method PushArr(out: seq<string>, arr: seq<string>) returns (out': seq<string>)
    ensures out' == out + NonBlankStripped(arr)
  {
    out' := out;
    var i := 0;
    while i < |arr|
      invariant 0 <= i <= |arr|
      invariant out' == out + NonBlankStripped(arr[..i])
    {
      var s := Strip(arr[i]);
      ghost var done := NonBlankStripped(arr[..i]);
      assert arr[..i + 1] == arr[..i] + [arr[i]];
      NonBlankStrippedSnoc(arr[..i], arr[i]);
      if s != [] {
        out' := out' + [s];
        assert out' == out + (done + [s]);
      }
      i := i + 1;
    }
    assert arr[..|arr|] == arr;
  }

  /** `derive_interests(p)`: the collected interests, title-cased, de-duplicated keeping first
      occurrences, and capped at 40. */
  method DeriveInterests(p: InterestProfile) returns (r: seq<string>)
    ensures r == Take(Dedup(MapTitleCase(RawInterests(p))), MaxInterests)
  {
    var out := CollectInterests(p);
    r := Take(Dedup(MapTitleCase(out)), MaxInterests);
  }

  /** The `out` list `derive_interests` builds before title-casing. */
  method CollectInterests(p: InterestProfile) returns (out: seq<string>)
    ensures out == RawInterests(p)
  {
    out := PushArr([], p.interests);
    assert out == NonBlankStripped(p.interests);
    out := PushArr(out, p.skills);
    out := PushArr(out, p.tags);
    out := PushArr(out, p.topics);
    ghost var listed := out;
    assert listed == ListedInterests(p);
    var txt := InterestText(p);
    out := PushKeywordHits(out, txt, Keywords);
    if out == [] && Truthy(p.occupation) {
      out := out + OccupationBits(p.occupation.value);
    }
  }

  /** The `for k in KW: if k in txt: out.append(k)` loop, over the keyword list `kws` (the
      caller passes `Keywords`). */
  method PushKeywordHits(out: seq<string>, txt: string, kws: seq<string>) returns (out': seq<string>)
    ensures out' == out + KeywordHits(txt, kws)
  {
    out' := out;
    var k := 0;
    while k < |kws|
      invariant 0 <= k <= |kws|
      invariant out' == out + KeywordHits(txt, kws[..k])
    {
      if Contains(txt, kws[k]) {
        out' := out' + [kws[k]];
      }
      assert kws[..k + 1][..k] == kws[..k];
      k := k + 1;
    }
    assert kws[..|kws|] == kws;
  }

  /** What `derive_interests` promises: at most 40 interests, none twice, each the title-cased
      form of a collected item, listed in the order their first copies were collected. */
  lemma DeriveInterestsShape(p: InterestProfile)
    ensures var r := Take(Dedup(MapTitleCase(RawInterests(p))), MaxInterests);
      && |r| <= MaxInterests
      && NoDup(r)
      && (forall x :: x in r ==> exists k :: 0 <= k < |RawInterests(p)| && x == TitleCase(RawInterests(p)[k]))
      && InFirstSeenOrder(r, MapTitleCase(RawInterests(p)))
  {
    var raw := RawInterests(p);
    var titled := MapTitleCase(raw);
    TakeDedupShape(titled, MaxInterests);
    var r := Take(Dedup(titled), MaxInterests);
    forall x | x in r ensures exists k :: 0 <= k < |raw| && x == TitleCase(raw[k]) {
      var k :| 0 <= k < |titled| && titled[k] == x;
    }
  }

  // ---------------------------------------------------------------------------
  // tokenize, expand_tokens, score_text
  // ---------------------------------------------------------------------------

  /** The characters a search token is made of: `[a-z0-9+.]`. */
  predicate IsTokenChar(c: char) { IsLowerLetter(c) || IsDigit(c) || c == '+' || c == '.' }

  predicate IsTokenCharOrSpace(c: char) { IsTokenChar(c) || IsSpace(c) }

  predicate NotTokenCharOrSpace(c: char) { !IsTokenCharOrSpace(c) }

  /** A search token: a non-empty run of `[a-z0-9+.]`. */
  predicate IsToken(t: string) {
    t != [] && forall i :: 0 <= i < |t| ==> IsTokenChar(t[i])
  }

  /** `tokenize(s)`: lower-case, replace every character outside `[a-z0-9\s+.]` by a space,
      split on whitespace. Every token is a non-empty run of `[a-z0-9+.]`. */
  function Tokenize(s: string): (toks: seq<string>)
    ensures forall k :: 0 <= k < |toks| ==> IsToken(toks[k])
  {
    var cleaned := SpaceOut(Lower(s), NotTokenCharOrSpace);
    WordsOfTokenText(cleaned);
    Words(cleaned)
  }

  lemma WordsOfTokenText(s: string)
    requires forall i :: 0 <= i < |s| ==> IsTokenCharOrSpace(s[i])
    ensures forall k :: 0 <= k < |Words(s)| ==> IsToken(Words(s)[k])
  {
    WordsShape(s);
    forall k | 0 <= k < |Words(s)| ensures IsToken(Words(s)[k]) {
      var w := Words(s)[k];
      forall i | 0 <= i < |w| ensures IsTokenChar(w[i]) {
        WordsChars(s, k, i);
        assert !IsSpace(w[i]);
      }
    }
  }

  /** Tokenizing loses only separators: the tokens, concatenated, are the token characters of
      the lower-cased input, in order. */
  lemma TokenizeKeepsTokenChars(s: string)
    ensures Concat(Tokenize(s)) == Keep(Lower(s), IsTokenChar)
  {
    var lowered := Lower(s);
    var cleaned := SpaceOut(lowered, NotTokenCharOrSpace);
    WordsConcat(cleaned);
    KeepSpaceOut(lowered);
  }

  lemma {:induction false} KeepSpaceOut(s: string)
    ensures Keep(SpaceOut(s, NotTokenCharOrSpace), NotSpace) == Keep(s, IsTokenChar)
    decreases |s|
  {
    if s != [] {
      KeepSpaceOut(s[1..]);
      assert SpaceOut(s, NotTokenCharOrSpace)[1..] == SpaceOut(s[1..], NotTokenCharOrSpace);
    }
  }

  /** The synonym groups `SYN`: a key and the words that stand for it. */
  const Synonyms: seq<(string, seq<string>)> := [
    ("backend", ["server", "api", "microservices", "distributed", "scalable", "rest", "grpc"]),
    ("frontend", ["react", "next", "ui", "ux", "javascript", "typescript"]),
    ("devops", ["kubernetes", "docker", "terraform", "cicd", "sre", "platform", "infrastructure"]),
    ("data", ["ml", "ai", "analytics", "etl", "pipeline", "pytorch", "tensorflow", "sklearn", "nlp"]),
    ("cloud", ["aws", "gcp", "azure"]),
    ("product", ["pm", "roadmap", "discovery", "requirements", "spec"]),
    ("security", ["infosec", "iam", "oauth", "owasp", "threat", "detection"])
  ]

  /** Token `t` triggers synonym group `g`: it is the key or one of the group's words. */
  predicate Triggers(t: string, g: nat)
    requires g < |Synonyms|
  {
    t == Synonyms[g].0 || t in Synonyms[g].1
  }

  predicate InGroup(x: string, g: nat)
    requires g < |Synonyms|
  {
    x == Synonyms[g].0 || x in Synonyms[g].1
  }

  predicate GroupTriggeredBy(tokens: seq<string>, g: nat)
    requires g < |Synonyms|
  {
    exists t :: t in tokens && Triggers(t, g)
  }

  /** What `expand_tokens` returns, as a membership test: the tokens themselves, plus every
      synonym group (key and words) that some token triggers. */
  predicate InExpansion(tokens: seq<string>, x: string) {
    x in tokens || exists g :: 0 <= g < |Synonyms| && GroupTriggeredBy(tokens, g) && InGroup(x, g)
  }

  /** `expand_tokens(tokens)`: a duplicate-free list (its order is that of a Python set, which
      nothing relies on) of exactly the tokens and the synonym groups they trigger. */
  method ExpandTokens(tokens: seq<string>) returns (r: seq<string>)
    ensures NoDup(r)
    ensures forall x :: x in r <==> InExpansion(tokens, x)
  {
    var out: set<string> := set t | t in tokens;
    var i := 0;
    while i < |tokens|
      invariant 0 <= i <= |tokens|
      invariant forall x :: x in out <==>
        x in tokens || exists g :: 0 <= g < |Synonyms| && GroupTriggeredBy(tokens[..i], g) && InGroup(x, g)
    {
      ghost var before := out;
      out := AddTriggeredGroups(out, tokens[i]);
      TriggeredBySnoc(tokens[..i], tokens[i]);
      assert tokens[..i + 1] == tokens[..i] + [tokens[i]];
      i := i + 1;
    }
    assert tokens[..|tokens|] == tokens;
    r := SetToSeq(out);
  }

  /** The groups one token triggers: those of `tokens + [t]` are those of `tokens` and of `t`. */
  lemma TriggeredBySnoc(tokens: seq<string>, t: string)
    ensures forall g :: 0 <= g < |Synonyms| ==>
      (GroupTriggeredBy(tokens + [t], g) <==> GroupTriggeredBy(tokens, g) || Triggers(t, g))
  {
    forall g | 0 <= g < |Synonyms|
      ensures GroupTriggeredBy(tokens + [t], g) <==> GroupTriggeredBy(tokens, g) || Triggers(t, g)
    {
      if GroupTriggeredBy(tokens + [t], g) {
        var u :| u in tokens + [t] && Triggers(u, g);
        assert u in tokens || u == t;
      }
      if GroupTriggeredBy(tokens, g) {
        var u :| u in tokens && Triggers(u, g);
        assert u in tokens + [t];
      }
      if Triggers(t, g) {
        assert t in tokens + [t];
      }
    }
  }

  /** The inner loop of `expand_tokens`: adds the key and words of every group `t` triggers. */
  method AddTriggeredGroups(out: set<string>, t: string) returns (out': set<string>)
    ensures forall x :: x in out' <==>
      x in out || exists h :: 0 <= h < |Synonyms| && Triggers(t, h) && InGroup(x, h)
  {
    out' := out;
    var g := 0;
    while g < |Synonyms|
      invariant 0 <= g <= |Synonyms|
      invariant forall x :: x in out' <==>
        x in out || exists h :: 0 <= h < g && Triggers(t, h) && InGroup(x, h)
    {
      ghost var prev := out';
      if t == Synonyms[g].0 || t in Synonyms[g].1 {
        out' := out' + {Synonyms[g].0} + (set v | v in Synonyms[g].1);
      }
      forall x ensures x in out' <==> x in out || exists h :: 0 <= h < g + 1 && Triggers(t, h) && InGroup(x, h) {
        if x in out' && x !in prev {
          assert Triggers(t, g) && InGroup(x, g);
        }
        if exists h :: 0 <= h < g + 1 && Triggers(t, h) && InGroup(x, h) {
          var h :| 0 <= h < g + 1 && Triggers(t, h) && InGroup(x, h);
          if h < g {
            assert x in prev;
          }
        }
      }
      g := g + 1;
    }
  }

  /** `list(out)`: the elements of a set, each once, in some order. */
  method SetToSeq(s: set<string>) returns (r: seq<string>)
    ensures NoDup(r)
    ensures forall x :: x in r <==> x in s
  {
    r := [];
    var rest := s;
    while rest != {}
      invariant rest <= s
      invariant NoDup(r)
      invariant forall x :: x in r <==> x in s && x !in rest
      decreases rest
    {
      var x :| x in rest;
      r := r + [x];
      rest := rest - {x};
    }
  }

  /** Points for one query token against the expanded target tokens: 2 for an exact token,
      else 1 when it contains or is contained in some token, else 0. */
  ghost function TokenPoints(q: string, targetToks: seq<string>): (p: nat)
    ensures p <= 2
  {
    if InExpansion(targetToks, q) then 2
    else if exists t :: InExpansion(targetToks, t) && (Contains(t, q) || Contains(q, t)) then 1
    else 0
  }

  /** The score of the query tokens against a target's tokens: the sum of their points. */
  ghost function Score(qtoks: seq<string>, targetToks: seq<string>): nat {
    if qtoks == [] then 0
    else Score(qtoks[..|qtoks| - 1], targetToks) + TokenPoints(qtoks[|qtoks| - 1], targetToks)
  }

  /** `score_text(qtoks, target)`, on whole points. */
  method ScoreText(qtoks: seq<string>, target: string) returns (s: nat)
    ensures s == Score(qtoks, Tokenize(target))
  {
    var ttoks := ExpandTokens(Tokenize(target));
    s := 0;
    var i := 0;
    while i < |qtoks|
      invariant 0 <= i <= |qtoks|
      invariant s == Score(qtoks[..i], Tokenize(target))
    {
      var q := qtoks[i];
      if q in ttoks {
        s := s + 2;
      } else if exists t :: t in ttoks && (Contains(q, t) || Contains(t, q)) {
        s := s + 1;
      }
      assert qtoks[..i + 1][..i] == qtoks[..i];
      i := i + 1;
    }
    assert qtoks[..|qtoks|] == qtoks;
  }

  /** Each query token scores 0, 1 or 2, so the score lies between 0 and twice their number, and
      it reaches that maximum exactly when every query token is an expanded target token. */
  lemma {:induction false} ScoreBounds(qtoks: seq<string>, targetToks: seq<string>)
    ensures Score(qtoks, targetToks) <= 2 * |qtoks|
    ensures Score(qtoks, targetToks) == 2 * |qtoks| <==> forall q :: q in qtoks ==> InExpansion(targetToks, q)
    decreases |qtoks|
  {
    if qtoks != [] {
      var init := qtoks[..|qtoks| - 1];
      var last := qtoks[|qtoks| - 1];
      ScoreBounds(init, targetToks);
      assert qtoks == init + [last];
      assert forall q :: q in qtoks <==> q in init || q == last;
    }
  }
}
