/** The GitHub helpers of backend/github_integration.py: finding a user's GitHub name on their
    profile document, and normalising, ordering and truncating the repository list that
    GitHub's public API returns. */
module GitHub {
  import opened Wrappers
  import opened Strings
  import opened Sorting

  /** A JSON value of a profile document or of an API reply (numbers, booleans and lists are
      told apart from strings and objects only). */
  datatype Value = Null | Str(s: string) | Obj(fields: map<string, Value>) | Scalar

  /** `m.get(k)`. */
  function Get(m: map<string, Value>, k: string): Value {
    if k in m then m[k] else Null
  }

  /** `(m.get(outer) or {}).get(inner)`, when what is stored under `outer` is an object. */
  function Inner(m: map<string, Value>, outer: string, inner: string): Value {
    var v := Get(m, outer);
    if v.Obj? then Get(v.fields, inner) else Null
  }

  /** `isinstance(u, str) and u.strip()`, giving `u.strip()`. */
  function NonBlank(v: Value): (r: Option<string>)
    ensures r.Some? <==> v.Str? && Strip(v.s) != []
    ensures r.Some? ==> r.value == Strip(v.s) && r.value != []
  {
    if v.Str? && Strip(v.s) != [] then Some(Strip(v.s)) else None
  }

  // ---------------------------------------------------------------------------
  // The user name in a profile link
  // ---------------------------------------------------------------------------

  const Host := "github.com/"

  /** The characters `[^/?#]` excludes. */
  predicate Separator(c: char) { c == '/' || c == '?' || c == '#' }

  /** `[^/?#]+` taken greedily: the longest prefix free of separators. */
  function Segment(s: string): (r: string)
    ensures |r| <= |s| && r == s[..|r|]
    ensures forall i :: 0 <= i < |r| ==> !Separator(r[i])
    ensures |r| < |s| ==> Separator(s[|r|])
  {
    if s == [] || Separator(s[0]) then []
    else
      var r := Segment(s[1..]);
      assert [s[0]] + s[1..][..|r|] == s[..|r| + 1];
      [s[0]] + r
  }

  /** `github\.com/([^/?#]+)` can match at `i`. */
  predicate HostAt(url: string, i: nat) {
    i + |Host| < |url| && url[i..i + |Host|] == Host && !Separator(url[i + |Host|])
  }

  /** The leftmost position at or after `i` where the pattern matches. */
  function FirstHost(url: string, i: nat): (r: Option<nat>)
    ensures r.Some? ==> i <= r.value < |url| && HostAt(url, r.value)
    ensures forall j :: i <= j < |url| && (r.None? || j < r.value) ==> !HostAt(url, j)
    decreases |url| - i
  {
    if i >= |url| then None
    else if HostAt(url, i) then Some(i)
    else FirstHost(url, i + 1)
  }

  /** `re.search(r"github\.com/([^/?#]+)", url).group(1)`. */
  function UrlUser(url: string): (r: Option<string>)
    ensures r.Some? ==> r.value != [] && forall k :: 0 <= k < |r.value| ==> !Separator(r.value[k])
    ensures r.None? <==> forall j :: 0 <= j < |url| ==> !HostAt(url, j)
  {
    var j := FirstHost(url, 0);
    if j.None? then None
    else
      var tail := url[j.value + |Host|..];
      assert !Separator(tail[0]);
      Some(Segment(tail))
  }

  lemma {:induction false} SegmentOf(name: string, suffix: string)
    requires forall k :: 0 <= k < |name| ==> !Separator(name[k])
    requires suffix == [] || Separator(suffix[0])
    ensures Segment(name + suffix) == name
    decreases |name|
  {
    if name != [] {
      assert (name + suffix)[1..] == name[1..] + suffix;
      SegmentOf(name[1..], suffix);
    }
  }

  /** A profile link `https://github.com/<name>`, possibly followed by a path, a query or a
      fragment, gives back `<name>`. */
  lemma UrlUserRoundTrip(name: string, suffix: string)
    requires name != [] && forall k :: 0 <= k < |name| ==> !Separator(name[k])
    requires suffix == [] || Separator(suffix[0])
    ensures UrlUser("https://github.com/" + name + suffix) == Some(name)
  {
    var url := "https://github.com/" + name + suffix;
    forall j | 0 <= j < 8 ensures !HostAt(url, j) {
      assert url[j] != 'g';
      if j + |Host| < |url| {
        assert url[j..j + |Host|][0] == url[j];
      }
    }
    assert url[8..8 + |Host|] == Host;
    assert url[8 + |Host|] == name[0];
    assert HostAt(url, 8);
    assert url[8 + |Host|..] == name + suffix;
    SegmentOf(name, suffix);
  }

  // ---------------------------------------------------------------------------
  // The user name on a profile
  // ---------------------------------------------------------------------------

  /** `_extract_github_username_from_profile`: `github.username`, then `githubUsername`, then
      the name in the `links.github` URL, then `social.github`. */
  function ExtractUsername(doc: Option<map<string, Value>>): (r: Option<string>)
    ensures doc.None? || doc.value == map[] ==> r.None?
    ensures r.Some? ==> r.value != []
  {
    if doc.None? || doc.value == map[] then None
    else
      var d := doc.value;
      var nested := NonBlank(Inner(d, "github", "username"));
      if nested.Some? then nested
      else
        var flat := NonBlank(Get(d, "githubUsername"));
        if flat.Some? then flat
        else
          var link := Inner(d, "links", "github");
          var fromLink := if NonBlank(link).Some? then UrlUser(link.s) else None;
          if fromLink.Some? then fromLink
          else NonBlank(Inner(d, "social", "github"))
  }

  /** The first present entry. */
  function FirstSome<T>(xs: seq<Option<T>>): (r: Option<T>)
    ensures r.Some? <==> exists k :: 0 <= k < |xs| && xs[k].Some?
    ensures r.Some? ==> exists k :: 0 <= k < |xs| && xs[k] == r && forall j :: 0 <= j < k ==> xs[j].None?
  {
    if xs == [] then None
    else if xs[0].Some? then xs[0]
    else
      var r := FirstSome(xs[1..]);
      assert forall k :: 1 <= k < |xs| ==> xs[k] == xs[1..][k - 1];
      r
  }

  /** What each of the four places on a profile offers, in priority order. */
  function Sources(d: map<string, Value>): (r: seq<Option<string>>)
    ensures |r| == 4
  {
    var link := Inner(d, "links", "github");
    [ NonBlank(Inner(d, "github", "username")),
      NonBlank(Get(d, "githubUsername")),
      if link.Str? && Strip(link.s) != [] then UrlUser(link.s) else None,
      NonBlank(Inner(d, "social", "github")) ]
  }

  /** The name is taken from the first place that offers one: a non-blank string there,
      stripped, or for the link the segment after `github.com/`. */
  lemma ExtractIsFirstSource(d: map<string, Value>)
    requires d != map[]
    ensures ExtractUsername(Some(d)) == FirstSome(Sources(d))
    ensures ExtractUsername(Some(d)).None? <==> forall k :: 0 <= k < 4 ==> Sources(d)[k].None?
  {
    var xs := Sources(d);
    assert xs == [xs[0], xs[1], xs[2], xs[3]];
    FirstSomeOfFour(xs[0], xs[1], xs[2], xs[3]);
  }

  lemma FirstSomeOfFour<T>(a: Option<T>, b: Option<T>, c: Option<T>, d: Option<T>)
    ensures FirstSome([a, b, c, d]) == if a.Some? then a else if b.Some? then b else if c.Some? then c else d
  {
    assert [a, b, c, d][1..] == [b, c, d] && [b, c, d][1..] == [c, d] && [c, d][1..] == [d];
    assert [d][1..] == [];
    assert FirstSome([d]) == d;
    assert FirstSome([c, d]) == if c.Some? then c else d;
    assert FirstSome([b, c, d]) == if b.Some? then b else FirstSome([c, d]);
  }

  /** A profile whose only GitHub reference is a profile link gives the link's user name. */
  lemma ExtractFromLink(d: map<string, Value>, name: string)
    requires name != [] && forall k :: 0 <= k < |name| ==> !Separator(name[k])
    requires Get(d, "github").Null? && Get(d, "githubUsername").Null?
    requires "links" in d && d["links"].Obj? && Get(d["links"].fields, "github") == Str("https://github.com/" + name)
    ensures ExtractUsername(Some(d)) == Some(name)
  {
    UrlUserRoundTrip(name, []);
    assert "https://github.com/" + name + [] == "https://github.com/" + name;
    var u := "https://github.com/" + name;
    assert !IsSpace(u[0]);
    StripEmpty(u);
  }

  // ---------------------------------------------------------------------------
  // Repositories
  // ---------------------------------------------------------------------------

  /** A repository as `_gh_get_user_repos` passes it on. */
  datatype Repo = Repo(
    id: Value, name: Value, htmlUrl: Value, description: Value, stargazersCount: Value,
    forksCount: Value, language: Value, updatedAt: Value, isPrivate: Value, archived: Value)

  /** The fields picked out of one repository of the reply. */
  function Normalized(r: map<string, Value>): (n: Repo)
    ensures n.updatedAt == Get(r, "updated_at") && n.name == Get(r, "name") && n.id == Get(r, "id")
  {
    Repo(Get(r, "id"), Get(r, "name"), Get(r, "html_url"), Get(r, "description"),
      Get(r, "stargazers_count"), Get(r, "forks_count"), Get(r, "language"),
      Get(r, "updated_at"), Get(r, "private"), Get(r, "archived"))
  }

  function NormalizedAll(data: seq<map<string, Value>>): (items: seq<Repo>)
    ensures |items| == |data| && forall i :: 0 <= i < |data| ==> items[i] == Normalized(data[i])
  {
    seq(|data|, i requires 0 <= i < |data| => Normalized(data[i]))
  }

  /** The normalising loop. */
  method NormalizeAll(data: seq<map<string, Value>>) returns (items: seq<Repo>)
    ensures items == NormalizedAll(data)
  {
    items := [];
    for i := 0 to |data|
      invariant |items| == i && forall k :: 0 <= k < i ==> items[k] == Normalized(data[k])
    {
      items := items + [Normalized(data[i])];
    }
  }

  /** The sort key `x.get("updated_at") or ""`. */
  function UpdatedKey(r: Repo): string {
    if r.updatedAt.Str? then r.updatedAt.s else ""
  }

  /** `sort(key=UpdatedKey, reverse=True)`, which keeps equal keys in their original order. */
  predicate NewerFirst(a: Repo, b: Repo) { LessEq(UpdatedKey(b), UpdatedKey(a)) }

  lemma NewerFirstOrdering()
    ensures IsOrdering(NewerFirst)
  {
    forall a, b ensures NewerFirst(a, b) || NewerFirst(b, a) {
      LessTotal(UpdatedKey(a), UpdatedKey(b));
    }
    forall a, b, c | NewerFirst(a, b) && NewerFirst(b, c) ensures NewerFirst(a, c) {
      if UpdatedKey(c) != UpdatedKey(b) && UpdatedKey(b) != UpdatedKey(a) {
        LessTransitive(UpdatedKey(c), UpdatedKey(b), UpdatedKey(a));
      }
    }
  }

  /** The repositories of a successful reply: normalised, most recently updated first, at
      most `limit` of them (`items[:limit]`, so a negative `limit` drops from the end). */
  function RepoList(data: seq<map<string, Value>>, limit: int): seq<Repo> {
    SliceTo(SortBy(NormalizedAll(data), NewerFirst), limit)
  }

  /** The list holds normalised repositories of the reply, newest first; when `limit` is not
      below their number, all of them. */
  lemma RepoListShape(data: seq<map<string, Value>>, limit: int)
    ensures var r := RepoList(data, limit);
      (limit >= 0 ==> |r| == if limit < |data| then limit else |data|)
      && (limit >= |data| ==> multiset(r) == multiset(NormalizedAll(data)))
      && (forall x :: x in r ==> exists i :: 0 <= i < |data| && x == Normalized(data[i]))
      && (forall i, j :: 0 <= i < j < |r| ==> LessEq(UpdatedKey(r[j]), UpdatedKey(r[i])))
  {
    var all := NormalizedAll(data);
    var s := SortBy(all, NewerFirst);
    var r := SliceTo(s, limit);
    NewerFirstOrdering();
    SortBySorted(all, NewerFirst);
    SortByMembers(all, NewerFirst);
    forall i, j | 0 <= i < j < |r| ensures NewerFirst(r[i], r[j]) {
      assert r[i] == s[i] && r[j] == s[j];
    }
    forall x | x in r ensures exists i :: 0 <= i < |data| && x == Normalized(data[i]) {
      assert x in s;
    }
  }

  /** Truncation keeps the most recently updated: every repository left out was updated no
      later than every one kept. */
  lemma RepoListKeepsNewest(data: seq<map<string, Value>>, limit: int)
    ensures var r := RepoList(data, limit); var all := NormalizedAll(data);
      multiset(r) <= multiset(all)
      && forall x, y :: x in all && x !in r && y in r ==> LessEq(UpdatedKey(x), UpdatedKey(y))
  {
    var all := NormalizedAll(data);
    var s := SortBy(all, NewerFirst);
    var r := SliceTo(s, limit);
    NewerFirstOrdering();
    SortedSliceSplit(all, NewerFirst, limit);
    var rest := s[|r|..];
    forall x, y | x in all && x !in r && y in r ensures LessEq(UpdatedKey(x), UpdatedKey(y)) {
      assert x in multiset(all);
      assert x in rest;
      assert NewerFirst(y, x);
    }
  }

  /** Cutting a sorted list after its first elements leaves out only elements that sort no
      earlier than any kept one. */
  lemma SortedSliceSplit<T(!new)>(xs: seq<T>, le: (T, T) -> bool, limit: int)
    requires IsOrdering(le)
    ensures var s := SortBy(xs, le); var r := SliceTo(s, limit);
      multiset(r) + multiset(s[|r|..]) == multiset(xs)
      && forall x, y :: x in s[|r|..] && y in r ==> le(y, x)
  {
    var s := SortBy(xs, le);
    var r := SliceTo(s, limit);
    var n := |r|;
    SortBySorted(xs, le);
    assert s == r + s[n..];
    forall x, y | x in s[n..] && y in r ensures le(y, x) {
      var i :| 0 <= i < n && r[i] == y;
      var j :| 0 <= j < |s| - n && s[n..][j] == x;
      assert s[i] == y && s[n + j] == x;
    }
  }

  /** The HTTP reply: its status and its JSON body (`res.json() or []`). */
  datatype Reply = Reply(status: int, body: seq<map<string, Value>>)

  const NetworkErrorPrefix := "Network error contacting GitHub: "

  /** `_gh_get_user_repos`, with the outcome of the HTTP request as the parameter `outcome`:
      a failed request is an error, any status but 200 an empty list. */
  method FetchRepos(limit: int, outcome: Result<Reply, string>)
    returns (items: Option<seq<Repo>>, error: Option<string>)
    ensures outcome.Err? ==> items.None? && error == Some(NetworkErrorPrefix + outcome.error)
    ensures outcome.Ok? && outcome.value.status != 200 ==> items == Some([]) && error.None?
    ensures outcome.Ok? && outcome.value.status == 200 ==>
      items == Some(RepoList(outcome.value.body, limit)) && error.None?
  {
    if outcome.Err? {
      return None, Some(NetworkErrorPrefix + outcome.error);
    }
    var res := outcome.value;
    if res.status == 404 {
      return Some([]), None;
    }
    if res.status != 200 {
      return Some([]), None;
    }
    var normalized := NormalizeAll(res.body);
    var sorted := SortBy(normalized, NewerFirst);
    items, error := Some(SliceTo(sorted, limit)), None;
  }
}
