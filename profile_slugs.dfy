/** The pure slug helpers of backend/profiles_api.py: `kebab_any`, `kebab_name` and `derive_slug`,
    over a user document whose string fields are given as a map from field name to value. */
module ProfileSlugs {
  import opened Wrappers
  import opened Strings

  /** The string-valued fields of a Firestore user document. A field that is missing, null or
      not a string is absent from the map. */
  type Fields = map<string, string>

  /** `(user.get(key) or "")`. */
  function Get(user: Fields, key: string): string {
    if key in user then user[key] else ""
  }

  /** `re.sub(r"[^a-zA-Z0-9\s-]", "", s).lower()`: what reaches the kebab tail. */
  function KebabSource(s: string): (r: string)
    ensures forall i :: 0 <= i < |r| ==> IsKebabSource(r[i])
  {
    var kept := Keep(s, IsSlugSource);
    KeepMembers(s, IsSlugSource);
    Lower(kept)
  }

  /** `kebab_any(s)`: keep `[a-zA-Z0-9\s-]`, lower-case, whitespace runs and dash runs to single
      dashes, strip dashes. The result is a kebab slug, possibly empty. */
  function KebabAny(s: string): (r: string)
    ensures IsKebab(r)
  {
    var src := KebabSource(s);
    KebabTailShape(src);
    KebabTail(src)
  }

  /** A kebab slug is a fixed point of `KebabSource`. */
  lemma KebabSourceNoop(s: string)
    requires IsKebab(s)
    ensures KebabSource(s) == s
  {
    KeepAll(s, IsSlugSource);
    LowerNoop(s);
  }

  /** `kebab_any` is idempotent: slugging a slug gives it back. */
  lemma KebabAnyIdempotent(s: string)
    ensures KebabAny(KebabAny(s)) == KebabAny(s)
  {
    var r := KebabAny(s);
    KebabSourceNoop(r);
    KebabTailNoop(r);
  }

  /** `" ".join([p for p in [a, b] if p])`. */
  function JoinNonEmpty(a: string, b: string): string {
    if a != [] && b != [] then a + " " + b
    else if a != [] then a
    else b
  }

  /** `kebab_name(first, last)`: the stripped non-empty parts joined by one space, stripped
      again, then `kebab_any`. */
  function KebabName(first: Option<string>, last: Option<string>): (r: string)
    ensures IsKebab(r)
  {
    KebabAny(Strip(JoinNonEmpty(Strip(first.GetOr("")), Strip(last.GetOr("")))))
  }

  /** `kebab_name` with one side missing or blank slugs the other side alone. */
  lemma KebabNameOneSided(x: string, blank: Option<string>)
    requires blank.None? || IsBlank(blank.value)
    ensures KebabName(Some(x), blank) == KebabAny(Strip(x))
    ensures KebabName(blank, Some(x)) == KebabAny(Strip(x))
  {
    StripEmpty(blank.GetOr(""));
    StripIdempotent(x);
  }

  /** `derive_slug(user)`: first and last name take precedence; otherwise the full name, slugged
      directly, or, when that leaves nothing, through its first word and the remaining words;
      `None` when all three names are blank. */
  function DeriveSlug(user: Fields): (r: Option<string>)
    ensures r.None? <==>
      IsBlank(Get(user, "firstName")) && IsBlank(Get(user, "lastName")) && IsBlank(Get(user, "fullName"))
    ensures r.Some? ==> IsKebab(r.value)
    ensures !IsBlank(Get(user, "firstName")) || !IsBlank(Get(user, "lastName")) ==>
      r == Some(KebabName(Some(Strip(Get(user, "firstName"))), Some(Strip(Get(user, "lastName")))))
  {
    var fn := Strip(Get(user, "firstName"));
    var ln := Strip(Get(user, "lastName"));
    var full := Strip(Get(user, "fullName"));
    StripEmpty(Get(user, "firstName"));
    StripEmpty(Get(user, "lastName"));
    StripEmpty(Get(user, "fullName"));
    if fn != [] || ln != [] then Some(KebabName(Some(fn), Some(ln)))
    else if full != [] then
      var s := KebabAny(full);
      if s != [] then Some(s)
      else Some(SplitNameSlug(full))
    else None
  }

  /** The split heuristic of `derive_slug` and `get_user_by_slug`: `kebab_name` of the first word
      and of the remaining words joined by spaces (`None` when there are none). */
  function SplitNameSlug(full: string): (r: string)
    ensures IsKebab(r)
  {
    var parts := Words(full);
    if parts == [] then []
    else
      var rest := Join(" ", parts[1..]);
      KebabName(Some(parts[0]), if rest == [] then None else Some(rest))
  }

  /** When first and last name are blank and the full name slugs to something, that slug is the
      derived one. */
  lemma DeriveSlugFromFullName(user: Fields)
    requires IsBlank(Get(user, "firstName")) && IsBlank(Get(user, "lastName"))
    requires KebabAny(Strip(Get(user, "fullName"))) != []
    ensures DeriveSlug(user) == Some(KebabAny(Strip(Get(user, "fullName"))))
  {
    StripEmpty(Get(user, "firstName"));
    StripEmpty(Get(user, "lastName"));
  }
}
