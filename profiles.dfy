/** The follow graph and the slug-maintaining store operations of backend/profiles_api.py, over an
    in-memory model of the Firestore `users` collection. */
module Profiles {
  import opened Wrappers
  import opened Strings
  import opened ProfileSlugs

  /** A `users/<uid>` document: its string fields, the `following` and `followers` lists (held
      as sets, which is how every operation reads them), the stored `followersCount` (`None`
      when missing) and the legacy `stats.followers` counter (0 when missing). */
  datatype UserDoc = UserDoc(
    fields: Fields,
    following: set<string>,
    followers: set<string>,
    followersCount: Option<int>,
    statsFollowers: int)

  /** The `users` collection, keyed by document id. */
  type Users = map<string, UserDoc>

  /** The errors the profile operations raise. */
  datatype Error =
    | Unauthorized      // no viewer
    | TargetNotFound    // the slug resolves to nobody
    | SelfTarget        // following or unfollowing oneself
    | UserNotFound      // a transaction found a document missing
    | DocumentMissing   // an update of a document that does not exist

  /** The payload returned to the client. */
  datatype FollowReply = FollowReply(isFollowing: bool, followersCount: int)

  /** The state a follow or unfollow transaction leaves, and its reply. */
  datatype TxOutcome = TxOutcome(users: Users, reply: FollowReply)

  // ---------------------------------------------------------------------------
  // Follower counts
  // ---------------------------------------------------------------------------

  /** The follower count the transactions read, as written: the stored count unless it is
      missing or 0, in which case `stats.followers`. */
  function CountAsWritten(u: UserDoc): int {
    if u.followersCount.Some? && u.followersCount.value != 0 then u.followersCount.value
    else u.statsFollowers
  }

  /** The follower count with a stored 0 taken at its word: `stats.followers` is consulted only
      when `followersCount` is missing. */
  function FollowersCount(u: UserDoc): int {
    if u.followersCount.Some? then u.followersCount.value else u.statsFollowers
  }

  /** The two reads differ only on a stored 0. */
  lemma CountReadsAgree(u: UserDoc)
    ensures u.followersCount != Some(0) ==> CountAsWritten(u) == FollowersCount(u)
    ensures u.followersCount == Some(0) ==> FollowersCount(u) == 0 && CountAsWritten(u) == u.statsFollowers
  {
  }

  // ---------------------------------------------------------------------------
  // The follow and unfollow transactions
  // ---------------------------------------------------------------------------

  /** `_tx_follow`, reading the follower count with `read`: both documents must exist; when the
      viewer does not follow the target yet, the viewer's `following` gains the target and the
      target's `followers` gains the viewer, with the count one up. */
  function Follow(users: Users, v: string, t: string, read: UserDoc -> int): (r: Result<TxOutcome, Error>)
    ensures r.Err? <==> v !in users || t !in users
    ensures r.Err? ==> r.error == UserNotFound
    ensures r.Ok? ==> r.value.reply.isFollowing && r.value.users.Keys == users.Keys
    ensures r.Ok? ==> t in r.value.users[v].following
    ensures r.Ok? ==> forall u :: u in users && u != v && u != t ==> r.value.users[u] == users[u]
    ensures r.Ok? && t in users[v].following ==>
      r.value.users == users && r.value.reply.followersCount == read(users[t])
    ensures r.Ok? && t !in users[v].following ==>
      v in r.value.users[t].followers && r.value.reply.followersCount == read(users[t]) + 1
      && r.value.users[t].followersCount == Some(r.value.reply.followersCount)
    ensures r.Ok? && t !in users[v].following && v != t ==>
      && r.value.users[v] == users[v].(following := users[v].following + {t})
      && r.value.users[t] == users[t].(followers := users[t].followers + {v}, followersCount := Some(read(users[t]) + 1))
    ensures r.Ok? && t !in users[v].following && v == t ==>
      r.value.users[v] == users[v].(following := users[v].following + {t}, followers := users[v].followers + {v},
                                    followersCount := Some(read(users[t]) + 1))
  {
    if v !in users || t !in users then Err(UserNotFound)
    else
      var viewer := users[v];
      var target := users[t];
      var count := read(target);
      if t !in viewer.following then
        var users1 := users[v := viewer.(following := viewer.following + {t})];
        var users2 := users1[t := users1[t].(followers := target.followers + {v}, followersCount := Some(count + 1))];
        Ok(TxOutcome(users2, FollowReply(true, count + 1)))
      else
        Ok(TxOutcome(users, FollowReply(true, count)))
  }

  /** `_tx_unfollow`, reading the follower count with `read`: both documents must exist; when the
      viewer follows the target, the target leaves the viewer's `following`, the viewer leaves
      the target's `followers` and the count goes one down, never below 0. */
  function Unfollow(users: Users, v: string, t: string, read: UserDoc -> int): (r: Result<TxOutcome, Error>)
    ensures r.Err? <==> v !in users || t !in users
    ensures r.Err? ==> r.error == UserNotFound
    ensures r.Ok? ==> !r.value.reply.isFollowing && r.value.users.Keys == users.Keys
    ensures r.Ok? ==> forall u :: u in users && u != v && u != t ==> r.value.users[u] == users[u]
    ensures r.Ok? && t !in users[v].following ==>
      r.value.users == users && r.value.reply.followersCount == read(users[t])
    ensures r.Ok? && t in users[v].following ==>
      t !in r.value.users[v].following && v !in r.value.users[t].followers
      && r.value.reply.followersCount == (if read(users[t]) - 1 < 0 then 0 else read(users[t]) - 1)
      && r.value.users[t].followersCount == Some(r.value.reply.followersCount)
    ensures r.Ok? && t in users[v].following && v != t ==>
      && r.value.users[v] == users[v].(following := users[v].following - {t})
      && r.value.users[t] == users[t].(followers := users[t].followers - {v},
                                       followersCount := Some(if read(users[t]) - 1 < 0 then 0 else read(users[t]) - 1))
    ensures r.Ok? && t in users[v].following && v == t ==>
      r.value.users[v] == users[v].(following := users[v].following - {t}, followers := users[v].followers - {v},
                                    followersCount := Some(if read(users[t]) - 1 < 0 then 0 else read(users[t]) - 1))
  {
    if v !in users || t !in users then Err(UserNotFound)
    else
      var viewer := users[v];
      var target := users[t];
      var count := read(target);
      if t in viewer.following then
        var count' := if count - 1 < 0 then 0 else count - 1;
        var users1 := users[v := viewer.(following := viewer.following - {t})];
        var users2 := users1[t := users1[t].(followers := target.followers - {v}, followersCount := Some(count'))];
        Ok(TxOutcome(users2, FollowReply(false, count')))
      else
        Ok(TxOutcome(users, FollowReply(false, count)))
  }

  /** Following and being followed mirror each other between existing users. */
  ghost predicate Mutual(users: Users) {
    forall a, b :: a in users && b in users ==> (b in users[a].following <==> a in users[b].followers)
  }

  /** Every stored follower count equals the size of the followers list. */
  ghost predicate CountsExact(users: Users) {
    forall u :: u in users ==> FollowersCount(users[u]) == |users[u].followers|
  }

  /** The follow graph is consistent: links mirrored, counts exact. */
  ghost predicate Consistent(users: Users) {
    Mutual(users) && CountsExact(users)
  }

  /** Adding the link `v -> t` to a consistent graph, with the target's count one up, keeps it
      consistent. */
  lemma LinkAddedConsistent(users: Users, u': Users, v: string, t: string)
    requires Consistent(users) && v in users && t in users && t !in users[v].following
    requires u'.Keys == users.Keys
    requires forall x | x in u' ::
      && u'[x].following == (if x == v then users[x].following + {t} else users[x].following)
      && u'[x].followers == (if x == t then users[x].followers + {v} else users[x].followers)
      && u'[x].followersCount == (if x == t then Some(FollowersCount(users[t]) + 1) else users[x].followersCount)
      && u'[x].statsFollowers == users[x].statsFollowers
    ensures Consistent(u')
  {
    assert v !in users[t].followers;
    forall a, b | a in u' && b in u' ensures b in u'[a].following <==> a in u'[b].followers {
      assert b in users[a].following <==> a in users[b].followers;
    }
    assert |users[t].followers + {v}| == |users[t].followers| + 1;
  }

  /** Removing the link `v -> t` from a consistent graph, with the target's count one down,
      keeps it consistent. */
  lemma LinkRemovedConsistent(users: Users, u': Users, v: string, t: string)
    requires Consistent(users) && v in users && t in users && t in users[v].following
    requires u'.Keys == users.Keys
    requires forall x | x in u' ::
      && u'[x].following == (if x == v then users[x].following - {t} else users[x].following)
      && u'[x].followers == (if x == t then users[x].followers - {v} else users[x].followers)
      && u'[x].followersCount == (if x == t then Some(FollowersCount(users[t]) - 1) else users[x].followersCount)
      && u'[x].statsFollowers == users[x].statsFollowers
    ensures Consistent(u')
  {
    assert v in users[t].followers;
    forall a, b | a in u' && b in u' ensures b in u'[a].following <==> a in u'[b].followers {
      assert b in users[a].following <==> a in users[b].followers;
    }
    assert |users[t].followers - {v}| == |users[t].followers| - 1;
  }

  /** A follow keeps the graph consistent, and its reply is the target's new follower total. */
  lemma FollowKeepsConsistent(users: Users, v: string, t: string)
    requires Consistent(users) && v in users && t in users
    ensures var r := Follow(users, v, t, FollowersCount);
      r.Ok? && Consistent(r.value.users) && r.value.reply.followersCount == |r.value.users[t].followers|
  {
    var r := Follow(users, v, t, FollowersCount);
    if t !in users[v].following {
      LinkAddedConsistent(users, r.value.users, v, t);
    }
  }

  /** An unfollow keeps the graph consistent, and its reply is the target's new follower total. */
  lemma UnfollowKeepsConsistent(users: Users, v: string, t: string)
    requires Consistent(users) && v in users && t in users
    ensures var r := Unfollow(users, v, t, FollowersCount);
      r.Ok? && Consistent(r.value.users) && r.value.reply.followersCount == |r.value.users[t].followers|
  {
    var r := Unfollow(users, v, t, FollowersCount);
    if t in users[v].following {
      assert v in users[t].followers;
      LinkRemovedConsistent(users, r.value.users, v, t);
    }
  }

  /** Following someone and unfollowing them again restores both documents, except that the
      target's count is now stored explicitly. */
  lemma {:induction false} FollowThenUnfollow(users: Users, v: string, t: string)
    requires v in users && t in users
    requires t !in users[v].following && v !in users[t].followers
    requires FollowersCount(users[t]) >= 0
    ensures var f := Follow(users, v, t, FollowersCount);
      f.Ok? && var u := Unfollow(f.value.users, v, t, FollowersCount);
      u.Ok? && u.value.reply == FollowReply(false, FollowersCount(users[t]))
      && u.value.users == users[t := users[t].(followersCount := Some(FollowersCount(users[t])))]
  {
    var c := FollowersCount(users[t]);
    var f := Follow(users, v, t, FollowersCount);
    var m := f.value.users;
    assert FollowersCount(m[t]) == c + 1;
    var u := Unfollow(m, v, t, FollowersCount);
    var want := users[t := users[t].(followersCount := Some(c))];
    assert u.value.users.Keys == want.Keys;
    forall x | x in want ensures u.value.users[x] == want[x] {
      if x == v {
        assert users[v].following + {t} - {t} == users[v].following;
      }
      if x == t {
        assert users[t].followers + {v} - {v} == users[t].followers;
        if v == t {
          assert users[t].following + {t} - {t} == users[t].following;
        }
      }
    }
  }

  /** Away from a stored 0 the two count reads give the same transactions: the corrected
      follow and unfollow behave exactly as the as-written ones. */
  lemma TxReadsAgree(users: Users, v: string, t: string)
    requires t in users ==> users[t].followersCount != Some(0)
    ensures Follow(users, v, t, FollowersCount) == Follow(users, v, t, CountAsWritten)
    ensures Unfollow(users, v, t, FollowersCount) == Unfollow(users, v, t, CountAsWritten)
  {
    if t in users {
      CountReadsAgree(users[t]);
    }
  }

  /** The as-written count read loses exactness: once the last follower leaves, the stored 0
      falls through to a stale `stats.followers`, although the graph was consistent under
      both reads before. */
  lemma StaleCountAfterLastUnfollow()
    ensures var users := map["v" := UserDoc(map[], {"t"}, {}, None, 0), "t" := UserDoc(map[], {}, {"v"}, None, 1)];
      var r := Unfollow(users, "v", "t", CountAsWritten);
      Consistent(users)
      && (forall u :: u in users ==> CountAsWritten(users[u]) == |users[u].followers|)
      && r.Ok? && r.value.users["t"].followers == {} && CountAsWritten(r.value.users["t"]) == 1
  {
    var users := map["v" := UserDoc(map[], {"t"}, {}, None, 0), "t" := UserDoc(map[], {}, {"v"}, None, 1)];
    assert "v" != "t";
    assert users.Keys == {"v", "t"};
    assert |users["t"].followers| == 1;
    var r := Unfollow(users, "v", "t", CountAsWritten);
    assert r.value.users["t"].followers == {"v"} - {"v"} == {};
  }

  // ---------------------------------------------------------------------------
  // Looking a user up by slug
  // ---------------------------------------------------------------------------

  /** `(slug or "").lower().strip()`. */
  function SlugTarget(slug: string): string {
    Strip(Lower(slug))
  }

  /** The fast path's index query: the stored slug is exactly the target. */
  predicate StoredSlugIs(u: Fields, target: string) {
    "slug" in u && u["slug"] == target
  }

  /** The four tests of the fallback scan: the stored slug, normalised; the slug of first and
      last name; the slug of the full name; and, without first and last name, the split
      heuristic on the full name. */
  predicate SlugMatches(u: Fields, target: string) {
    var s := Strip(Lower(Get(u, "slug")));
    var fn := Strip(Get(u, "firstName"));
    var ln := Strip(Get(u, "lastName"));
    var full := Strip(Get(u, "fullName"));
    (s != [] && s == target)
    || ((fn != [] || ln != []) && KebabName(Some(fn), Some(ln)) == target)
    || (full != [] && KebabAny(full) == target)
    || (full != [] && fn == [] && ln == [] && SplitNameSlug(full) == target)
  }

  /** The index query's test on a document id. */
  function IndexTest(docs: Users, target: string): string -> bool {
    id => id in docs && StoredSlugIs(docs[id].fields, target)
  }

  /** The scan's test on a document id. */
  function ScanTest(docs: Users, target: string): string -> bool {
    id => id in docs && SlugMatches(docs[id].fields, target)
  }

  /** The index of the first of `xs[i..]` that passes `p`. */
  function FirstWhere<X>(xs: seq<X>, p: X -> bool, i: nat): (r: Option<nat>)
    requires i <= |xs|
    ensures r.Some? ==> i <= r.value < |xs| && p(xs[r.value])
    ensures r.Some? ==> forall j :: i <= j < r.value ==> !p(xs[j])
    ensures r.None? ==> forall j :: i <= j < |xs| ==> !p(xs[j])
    decreases |xs| - i
  {
    if i == |xs| then None
    else if p(xs[i]) then Some(i)
    else FirstWhere(xs, p, i + 1)
  }

  /** `id` is the first of `ids` that passes `p`. */
  predicate FirstPassing(ids: seq<string>, p: string -> bool, id: string) {
    exists k :: 0 <= k < |ids| && ids[k] == id && p(ids[k]) && forall j :: 0 <= j < k ==> !p(ids[j])
  }

  /** Some id of `ids` passes `p`. */
  predicate SomePasses(ids: seq<string>, p: string -> bool) {
    exists k :: 0 <= k < |ids| && p(ids[k])
  }

  /** `get_user_by_slug`: nothing for a blank slug; the first document (in id order) storing
      exactly the target when the slug index is available and has one; otherwise the first
      document passing the scan. */
  function LookupBySlug(docs: Users, ids: seq<string>, slug: string, indexReady: bool): (r: Option<string>)
    requires forall id :: id in ids ==> id in docs
    ensures SlugTarget(slug) == [] ==> r.None?
    ensures r.Some? ==> (r.value in ids
      && ((indexReady && StoredSlugIs(docs[r.value].fields, SlugTarget(slug)))
          || SlugMatches(docs[r.value].fields, SlugTarget(slug))))
    ensures r.None? && SlugTarget(slug) != [] ==>
      forall j :: 0 <= j < |ids| ==> !SlugMatches(docs[ids[j]].fields, SlugTarget(slug))
    ensures SlugTarget(slug) != [] && indexReady && SomePasses(ids, IndexTest(docs, SlugTarget(slug))) ==>
      r.Some? && FirstPassing(ids, IndexTest(docs, SlugTarget(slug)), r.value)
    ensures SlugTarget(slug) != [] && !(indexReady && SomePasses(ids, IndexTest(docs, SlugTarget(slug)))) ==>
      (r.Some? <==> SomePasses(ids, ScanTest(docs, SlugTarget(slug))))
      && (r.Some? ==> FirstPassing(ids, ScanTest(docs, SlugTarget(slug)), r.value))
  {
    var target := SlugTarget(slug);
    if target == [] then None
    else
      var fast := if indexReady then FirstWhere(ids, IndexTest(docs, target), 0) else None;
      if fast.Some? then Some(ids[fast.value])
      else
        var scan := FirstWhere(ids, ScanTest(docs, target), 0);
        if scan.Some? then Some(ids[scan.value]) else None
  }

  /** A kebab slug is its own lookup target. */
  lemma KebabSlugTarget(s: string)
    requires IsKebab(s)
    ensures SlugTarget(s) == s
  {
    LowerNoop(s);
    StripNoop(s);
  }

  /** Any slug `derive_slug` produces for a stored document finds a document: deriving and
      resolving agree. */
  lemma DerivedSlugResolves(docs: Users, ids: seq<string>, k: nat, indexReady: bool)
    requires forall id :: id in ids ==> id in docs
    requires k < |ids|
    requires DeriveSlug(docs[ids[k]].fields).Some? && DeriveSlug(docs[ids[k]].fields).value != []
    ensures LookupBySlug(docs, ids, DeriveSlug(docs[ids[k]].fields).value, indexReady).Some?
  {
    var u := docs[ids[k]].fields;
    var s := DeriveSlug(u).value;
    KebabSlugTarget(s);
    StripEmpty(Get(u, "firstName"));
    StripEmpty(Get(u, "lastName"));
    assert SlugMatches(u, s);
  }

  // ---------------------------------------------------------------------------
  // Slug maintenance
  // ---------------------------------------------------------------------------

  /** The slug `ensure_user_slug`, `upsert_user` and `backfill_all_slugs` write into a document:
      none when it already has one, otherwise the derived slug when that is non-empty. */
  function SlugToWrite(u: Fields): (r: Option<string>)
    ensures r.Some? ==> Get(u, "slug") == [] && r.value != [] && IsKebab(r.value)
  {
    if Get(u, "slug") != [] then None
    else
      match DeriveSlug(u)
      case Some(s) => if s != [] then Some(s) else None
      case None => None
  }

  /** Only the name fields feed the derived slug, so writing a slug does not change it. */
  lemma DeriveSlugIgnoresSlugField(u: Fields, x: string)
    ensures DeriveSlug(u["slug" := x]) == DeriveSlug(u)
  {
    var u' := u["slug" := x];
    assert Get(u', "firstName") == Get(u, "firstName");
    assert Get(u', "lastName") == Get(u, "lastName");
    assert Get(u', "fullName") == Get(u, "fullName");
  }

  /** The merged fields `upsert_user` stores: the incoming fields over the existing ones, with
      the derived slug added when the result has none. */
  function Upserted(existing: Fields, data: Fields): (r: Fields)
    ensures forall k :: k in data && k != "slug" ==> k in r && r[k] == data[k]
    ensures forall k :: k in existing && k !in data && k != "slug" ==> k in r && r[k] == existing[k]
    ensures forall k :: k in r ==> k in existing || k in data || k == "slug"
    ensures Get(r, "slug") != [] <==> Get(existing + data, "slug") != [] || SlugToWrite(existing + data).Some?
    ensures Get(existing + data, "slug") != [] ==> Get(r, "slug") == Get(existing + data, "slug")
    ensures SlugToWrite(existing + data).Some? ==> "slug" in r && r["slug"] == SlugToWrite(existing + data).value
  {
    var merged := existing + data;
    match SlugToWrite(merged)
    case Some(s) => merged["slug" := s]
    case None => merged
  }

  /** Merging the same fields twice is merging them once; a slug written in between survives
      the second merge unless the merged fields carry a slug of their own. */
  lemma MergeAgain(m: Fields, d: Fields, s: string)
    ensures (m + d) + d == m + d
    ensures "slug" in d ==> ((m + d)["slug" := s]) + d == m + d
    ensures "slug" !in d ==> ((m + d)["slug" := s]) + d == (m + d)["slug" := s]
  {
  }

  /** Upserting the same data twice stores what upserting it once does. */
  lemma UpsertIdempotent(existing: Fields, data: Fields)
    ensures Upserted(Upserted(existing, data), data) == Upserted(existing, data)
  {
    var merged := existing + data;
    var once := Upserted(existing, data);
    match SlugToWrite(merged)
    case None =>
      MergeAgain(existing, data, []);
    case Some(s) =>
      MergeAgain(existing, data, s);
      if "slug" !in data {
        assert Get(once, "slug") == s;
      }
  }

  /** A document without its id, as a stream or a lookup starts from. */
  function NewDoc(fields: Fields): UserDoc {
    UserDoc(fields, {}, {}, None, 0)
  }

  /** The document with a slug written into it, if there is one. */
  function WithSlug(u: UserDoc, s: Option<string>): UserDoc {
    match s
    case Some(slug) => u.(fields := u.fields["slug" := slug])
    case None => u
  }

  /** The document after backfill: the slug to write added, if any. */
  function Backfilled(u: UserDoc): (r: UserDoc)
    ensures r.following == u.following && r.followers == u.followers
    ensures r.followersCount == u.followersCount && r.statsFollowers == u.statsFollowers
    ensures SlugToWrite(u.fields).None? ==> r == u
    ensures SlugToWrite(u.fields).Some? ==> Get(r.fields, "slug") == SlugToWrite(u.fields).value
  {
    WithSlug(u, SlugToWrite(u.fields))
  }

  /** After backfill no document that names its user is left without a slug, and a second
      backfill changes nothing. */
  lemma BackfillSettles(u: UserDoc)
    ensures SlugToWrite(Backfilled(u).fields).None?
    ensures Backfilled(Backfilled(u)) == Backfilled(u)
  {
  }

  /** The slug backfill writes into each document, by id. */
  function SlugPlan(docs: Users): (plan: map<string, Option<string>>)
    ensures plan.Keys == docs.Keys
  {
    map id | id in docs :: SlugToWrite(docs[id].fields)
  }

  /** How many of `ids` the plan gives a slug. */
  function CountPlanned(plan: map<string, Option<string>>, ids: seq<string>): (n: nat)
    requires forall id :: id in ids ==> id in plan
    ensures n <= |ids|
  {
    if ids == [] then 0
    else CountPlanned(plan, ids[..|ids| - 1]) + (if plan[ids[|ids| - 1]].Some? then 1 else 0)
  }

  /** The batch writes of `backfill_all_slugs`, applied on commit. */
  function Commit(docs: Users, pending: map<string, string>): (r: Users)
    ensures r.Keys == docs.Keys
  {
    map id | id in docs :: if id in pending then WithSlug(docs[id], Some(pending[id])) else docs[id]
  }

  /** Counting one more id of the plan. */
  lemma CountPlannedSnoc(plan: map<string, Option<string>>, ids: seq<string>, i: nat)
    requires i < |ids| && forall id :: id in ids ==> id in plan
    ensures CountPlanned(plan, ids[..i + 1]) == CountPlanned(plan, ids[..i]) + if plan[ids[i]].Some? then 1 else 0
  {
    assert ids[..i + 1][..i] == ids[..i];
  }

  /** The collection midway through `backfill_all_slugs`, with the documents in `done`
      streamed and the slugs in `pending` not yet committed: every streamed document that is not
      pending holds its planned slug, every other document is as it was. */
  function Partial(plan: map<string, Option<string>>, snap: Users, pending: map<string, string>,
                   done: set<string>): (r: Users)
    requires plan.Keys == snap.Keys
    ensures r.Keys == snap.Keys
  {
    map id | id in snap :: if id in done && id !in pending then WithSlug(snap[id], plan[id]) else snap[id]
  }

  /** The queued slugs are planned slugs of streamed documents. */
  ghost predicate Queued(plan: map<string, Option<string>>, pending: map<string, string>, done: set<string>) {
    forall id :: id in pending ==> id in done && id in plan && plan[id] == Some(pending[id])
  }

  /** Streaming one more document queues its planned slug, if it has one; the collection does
      not change. */
  lemma PartialStream(plan: map<string, Option<string>>, snap: Users, pending: map<string, string>,
                      done: set<string>, id: string)
    requires plan.Keys == snap.Keys && Queued(plan, pending, done) && id in snap && id !in done
    ensures id !in pending
    ensures var pending' := if plan[id].Some? then pending[id := plan[id].value] else pending;
      Queued(plan, pending', done + {id})
      && Partial(plan, snap, pending', done + {id}) == Partial(plan, snap, pending, done)
  {
    var pending' := if plan[id].Some? then pending[id := plan[id].value] else pending;
    var before := Partial(plan, snap, pending, done);
    var after := Partial(plan, snap, pending', done + {id});
    forall x | x in snap ensures after[x] == before[x] {
      if x == id && plan[id].None? {
        assert WithSlug(snap[x], plan[x]) == snap[x];
      }
    }
  }

  /** Committing the batch applies every queued slug. */
  lemma PartialCommit(plan: map<string, Option<string>>, snap: Users, pending: map<string, string>,
                      done: set<string>)
    requires plan.Keys == snap.Keys && Queued(plan, pending, done)
    ensures Commit(Partial(plan, snap, pending, done), pending) == Partial(plan, snap, map[], done)
  {
  }

  /** Once every document is streamed and nothing is pending, each holds its backfilled form. */
  lemma PartialDone(snap: Users, done: set<string>)
    requires forall id :: id in snap ==> id in done
    ensures Partial(SlugPlan(snap), snap, map[], done) == map id | id in snap :: Backfilled(snap[id])
  {
  }

  /** The writes of `commits` full batches of `batchSize`, counted batch by batch. */
  function Batched(commits: nat, batchSize: int): int {
    if commits == 0 then 0 else Batched(commits - 1, batchSize) + batchSize
  }

  /** Counting batch by batch is multiplying. */
  lemma {:induction false} BatchedIsProduct(commits: nat, batchSize: int)
    ensures Batched(commits, batchSize) == commits * batchSize
  {
    if commits > 0 {
      BatchedIsProduct(commits - 1, batchSize);
    }
  }

  /** A batch size below one commits every write on its own, as a batch size of one does. */
  function EffectiveBatch(batchSize: int): int {
    if batchSize > 0 then batchSize else 1
  }

  /** The state of a backfill run after streaming `all[..i]`, whose ids make up `done`: the
      collection `d` as committed so far, the queued writes, and the counters. */
  ghost predicate Progress(plan: map<string, Option<string>>, snap: Users, all: seq<string>, i: nat,
                           done: set<string>, d: Users, pending: map<string, string>, ops: int,
                           updated: nat, commits: nat, batchSize: int)
  {
    i <= |all| && plan.Keys == snap.Keys && (forall id :: id in all ==> id in plan)
    && (forall k :: 0 <= k < i ==> all[k] in done)
    && (forall k :: i <= k < |all| ==> all[k] !in done)
    && Queued(plan, pending, done) && d == Partial(plan, snap, pending, done)
    && updated == CountPlanned(plan, all[..i]) && |pending| == ops
    && 0 <= ops < EffectiveBatch(batchSize) && Batched(commits, EffectiveBatch(batchSize)) + ops == updated
  }

  /** The next document to stream is still in its original state and not queued. */
  lemma ProgressNext(plan: map<string, Option<string>>, snap: Users, all: seq<string>, i: nat,
                     done: set<string>, d: Users, pending: map<string, string>, ops: int,
                     updated: nat, commits: nat, batchSize: int)
    requires Progress(plan, snap, all, i, done, d, pending, ops, updated, commits, batchSize) && i < |all|
    ensures all[i] in snap && all[i] !in pending && d[all[i]] == snap[all[i]]
  {
  }

  /** Streaming a document that needs no slug. */
  lemma ProgressSkip(plan: map<string, Option<string>>, snap: Users, all: seq<string>, i: nat,
                     done: set<string>, d: Users, pending: map<string, string>, ops: int,
                     updated: nat, commits: nat, batchSize: int)
    requires Progress(plan, snap, all, i, done, d, pending, ops, updated, commits, batchSize)
    requires i < |all| && NoDup(all) && plan[all[i]].None?
    ensures Progress(plan, snap, all, i + 1, done + {all[i]}, d, pending, ops, updated, commits, batchSize)
  {
    PartialStream(plan, snap, pending, done, all[i]);
    CountPlannedSnoc(plan, all, i);
  }

  /** Streaming a document whose slug joins a batch that is not full yet. */
  lemma ProgressQueue(plan: map<string, Option<string>>, snap: Users, all: seq<string>, i: nat,
                      done: set<string>, d: Users, pending: map<string, string>, ops: int,
                      updated: nat, commits: nat, batchSize: int, slug: string)
    requires Progress(plan, snap, all, i, done, d, pending, ops, updated, commits, batchSize)
    requires i < |all| && NoDup(all) && plan[all[i]] == Some(slug) && ops + 1 < batchSize
    ensures Progress(plan, snap, all, i + 1, done + {all[i]}, d, pending[all[i] := slug],
                     ops + 1, updated + 1, commits, batchSize)
  {
    PartialStream(plan, snap, pending, done, all[i]);
    CountPlannedSnoc(plan, all, i);
  }

  /** Streaming a document whose slug fills the batch, which is then committed. */
  lemma ProgressCommit(plan: map<string, Option<string>>, snap: Users, all: seq<string>, i: nat,
                       done: set<string>, d: Users, pending: map<string, string>, ops: int,
                       updated: nat, commits: nat, batchSize: int, slug: string)
    requires Progress(plan, snap, all, i, done, d, pending, ops, updated, commits, batchSize)
    requires i < |all| && NoDup(all) && plan[all[i]] == Some(slug) && ops + 1 >= batchSize
    ensures Progress(plan, snap, all, i + 1, done + {all[i]}, Commit(d, pending[all[i] := slug]),
                     map[], 0, updated + 1, commits + 1, batchSize)
  {
    var id := all[i];
    var pending' := pending[id := slug];
    PartialStream(plan, snap, pending, done, id);
    CountPlannedSnoc(plan, all, i);
    PartialCommit(plan, snap, pending', done + {id});
  }

  /** The counters once the last partial batch is committed: one commit per write when the batch
      size is below one, otherwise as many commits as it takes to hold every write in batches. */
  lemma BatchCount(ops: int, updated: nat, commits: nat, batchSize: int)
    requires 0 <= ops < EffectiveBatch(batchSize) && Batched(commits, EffectiveBatch(batchSize)) + ops == updated
    ensures var commits' := if ops != 0 then commits + 1 else commits;
      (batchSize <= 0 ==> commits' == updated)
      && (batchSize > 0 ==> commits' * batchSize - batchSize < updated <= commits' * batchSize)
  {
    BatchedIsProduct(commits, EffectiveBatch(batchSize));
    if batchSize > 0 {
      assert (commits + 1) * batchSize == commits * batchSize + batchSize;
    }
  }

  /** After the stream, committing what is left leaves every document in its backfilled form,
      with the counters as promised. */
  lemma ProgressFinish(snap: Users, all: seq<string>, done: set<string>, d: Users,
                       pending: map<string, string>, ops: int, updated: nat, commits: nat, batchSize: int)
    requires Progress(SlugPlan(snap), snap, all, |all|, done, d, pending, ops, updated, commits, batchSize)
    requires forall id :: id in snap ==> id in all
    ensures var d' := if ops != 0 then Commit(d, pending) else d;
      var commits' := if ops != 0 then commits + 1 else commits;
      d' == (map id | id in snap :: Backfilled(snap[id]))
      && updated == CountPlanned(SlugPlan(snap), all)
      && (batchSize <= 0 ==> commits' == updated)
      && (batchSize > 0 ==> commits' * batchSize - batchSize < updated <= commits' * batchSize)
  {
    var plan := SlugPlan(snap);
    PartialCommit(plan, snap, pending, done);
    assert all[..|all|] == all;
    BatchCount(ops, updated, commits, batchSize);
    PartialDone(snap, done);
  }

  /** The body of the `backfill_all_slugs` loop for the streamed document `all[i]`: queue its
      slug when it needs one, and commit the batch once `batchSize` writes are queued. */
  method StageDocument(ghost plan: map<string, Option<string>>, ghost snap: Users, all: seq<string>, i: nat,
                       ghost done: set<string>, d: Users, pending: map<string, string>, ops: int,
                       updated: nat, commits: nat, batchSize: int, s: Option<string>)
    returns (d': Users, pending': map<string, string>, ops': int, updated': nat, commits': nat)
    requires Progress(plan, snap, all, i, done, d, pending, ops, updated, commits, batchSize)
    requires i < |all| && NoDup(all) && s == plan[all[i]]
    ensures Progress(plan, snap, all, i + 1, done + {all[i]}, d', pending', ops', updated', commits', batchSize)
  {
    var id := all[i];
    ProgressNext(plan, snap, all, i, done, d, pending, ops, updated, commits, batchSize);
    d', pending', ops', updated', commits' := d, pending, ops, updated, commits;
    if s.None? {
      ProgressSkip(plan, snap, all, i, done, d, pending, ops, updated, commits, batchSize);
    } else {
      pending' := pending[id := s.value];
      updated', ops' := updated + 1, ops + 1;
      if ops' >= batchSize {
        ProgressCommit(plan, snap, all, i, done, d, pending, ops, updated, commits, batchSize, s.value);
        d' := Commit(d, pending');
        pending', ops' := map[], 0;
        commits' := commits + 1;
      } else {
        ProgressQueue(plan, snap, all, i, done, d, pending, ops, updated, commits, batchSize, s.value);
      }
    }
  }

  /** The stream of `backfill_all_slugs` over the documents `snap`, in the order `all` of their
      ids, committing each batch into the collection `d`. */
  method StreamBackfill(all: seq<string>, snap: Users, batchSize: int) returns (d: Users, updated: nat, commits: nat)
    requires NoDup(all) && forall id :: id in snap <==> id in all
    ensures d == map id | id in snap :: Backfilled(snap[id])
    ensures updated == CountPlanned(SlugPlan(snap), all)
    ensures batchSize <= 0 ==> commits == updated
    ensures batchSize > 0 ==> commits * batchSize - batchSize < updated <= commits * batchSize
  {
    d := snap;
    ghost var plan: map<string, Option<string>>, done: set<string> := SlugPlan(snap), {};
    var pending: map<string, string> := map[];
    var ops := 0;
    updated, commits := 0, 0;
    var i := 0;
    while i < |all|
      invariant Progress(plan, snap, all, i, done, d, pending, ops, updated, commits, batchSize)
    {
      ProgressNext(plan, snap, all, i, done, d, pending, ops, updated, commits, batchSize);
      var s := SlugToWrite(d[all[i]].fields);
      d, pending, ops, updated, commits := StageDocument(plan, snap, all, i, done, d, pending, ops, updated, commits, batchSize, s);
      done := done + {all[i]};
      i := i + 1;
    }
    ProgressFinish(snap, all, done, d, pending, ops, updated, commits, batchSize);
    if ops != 0 {
      d := Commit(d, pending);
      commits := commits + 1;
    }
  }

  /** The `users` collection as an object: documents by id, and the ids in the order a
      collection stream yields them (ascending). */
  class UserStore {
    var docs: Users
    var ids: seq<string>

    ghost predicate Valid()
      reads this
    {
      StrictlySorted(ids) && forall id :: id in docs <==> id in ids
    }

    constructor ()
      ensures Valid() && docs == map[] && ids == []
    {
      docs := map[];
      ids := [];
    }

    /** `_tx_follow`, with the follower count read as `FollowersCount`. */
    method TxFollow(v: string, t: string) returns (r: Result<FollowReply, Error>)
      requires Valid()
      modifies this
      ensures Valid() && ids == old(ids)
      ensures var spec := Follow(old(docs), v, t, FollowersCount);
        if spec.Ok? then r == Ok(spec.value.reply) && docs == spec.value.users
        else r == Err(spec.error) && docs == old(docs)
      ensures (t in old(docs) ==> old(docs)[t].followersCount != Some(0)) ==>
        var src := Follow(old(docs), v, t, CountAsWritten);
        if src.Ok? then r == Ok(src.value.reply) && docs == src.value.users
        else r == Err(src.error) && docs == old(docs)
      ensures Consistent(old(docs)) ==> Consistent(docs)
    {
      if t in docs ==> docs[t].followersCount != Some(0) {
        TxReadsAgree(docs, v, t);
      }
      if v !in docs || t !in docs {
        return Err(UserNotFound);
      }
      ghost var before := docs;
      var viewer := docs[v];
      var target := docs[t];
      var count := FollowersCount(target);
      if t !in viewer.following {
        count := count + 1;
        docs := docs[v := viewer.(following := viewer.following + {t})];
        docs := docs[t := docs[t].(followers := target.followers + {v}, followersCount := Some(count))];
      }
      r := Ok(FollowReply(true, count));
      assert docs == Follow(before, v, t, FollowersCount).value.users;
      assert docs.Keys == before.Keys;
      if Consistent(before) {
        FollowKeepsConsistent(before, v, t);
      }
    }

    /** `_tx_unfollow`, with the follower count read as `FollowersCount`. */
    method TxUnfollow(v: string, t: string) returns (r: Result<FollowReply, Error>)
      requires Valid()
      modifies this
      ensures Valid() && ids == old(ids)
      ensures var spec := Unfollow(old(docs), v, t, FollowersCount);
        if spec.Ok? then r == Ok(spec.value.reply) && docs == spec.value.users
        else r == Err(spec.error) && docs == old(docs)
      ensures (t in old(docs) ==> old(docs)[t].followersCount != Some(0)) ==>
        var src := Unfollow(old(docs), v, t, CountAsWritten);
        if src.Ok? then r == Ok(src.value.reply) && docs == src.value.users
        else r == Err(src.error) && docs == old(docs)
      ensures Consistent(old(docs)) ==> Consistent(docs)
    {
      if t in docs ==> docs[t].followersCount != Some(0) {
        TxReadsAgree(docs, v, t);
      }
      if v !in docs || t !in docs {
        return Err(UserNotFound);
      }
      ghost var before := docs;
      var viewer := docs[v];
      var target := docs[t];
      var count := FollowersCount(target);
      if t in viewer.following {
        count := if count - 1 < 0 then 0 else count - 1;
        docs := docs[v := viewer.(following := viewer.following - {t})];
        docs := docs[t := docs[t].(followers := target.followers - {v}, followersCount := Some(count))];
      }
      r := Ok(FollowReply(false, count));
      assert docs == Unfollow(before, v, t, FollowersCount).value.users;
      assert docs.Keys == before.Keys;
      if Consistent(before) {
        UnfollowKeepsConsistent(before, v, t);
      }
    }

    /** `get_user_by_slug`: the fast index query when available, then the scan in id order,
        stopping at the first document that passes. */
    method GetUserBySlug(slug: string, indexReady: bool) returns (r: Option<string>)
      requires Valid()
      ensures r == LookupBySlug(docs, ids, slug, indexReady)
    {
      var target := Strip(Lower(slug));
      if target == [] {
        return None;
      }
      if indexReady {
        var fast := FirstWhere(ids, IndexTest(docs, target), 0);
        if fast.Some? {
          return Some(ids[fast.value]);
        }
      }
      var scan := ScanBySlug(target);
      if scan.Some? {
        return Some(ids[scan.value]);
      }
      return None;
    }

    /** The fallback scan of `get_user_by_slug`: the position of the first document, in id
        order, that passes one of the four tests. */
    method ScanBySlug(target: string) returns (r: Option<nat>)
      requires Valid()
      ensures r == FirstWhere(ids, ScanTest(docs, target), 0)
    {
      var i := 0;
      while i < |ids|
        invariant 0 <= i <= |ids|
        invariant FirstWhere(ids, ScanTest(docs, target), i) == FirstWhere(ids, ScanTest(docs, target), 0)
      {
        var hit := SlugMatches(docs[ids[i]].fields, target);
        assert hit == ScanTest(docs, target)(ids[i]);
        if hit {
          return Some(i);
        }
        i := i + 1;
      }
      return None;
    }

    /** The guards shared by `follow_user` and `unfollow_user`, in their order: a viewer, a
        target the slug resolves to, and a target other than the viewer. */
    method ResolveTarget(viewer: string, slug: string, indexReady: bool) returns (r: Result<string, Error>)
      requires Valid()
      ensures viewer == [] ==> r == Err(Unauthorized)
      ensures viewer != [] ==>
        var found := LookupBySlug(docs, ids, slug, indexReady);
        r == (if found.None? then Err(TargetNotFound)
              else if found.value == viewer then Err(SelfTarget)
              else Ok(found.value))
    {
      if viewer == [] {
        return Err(Unauthorized);
      }
      var found := GetUserBySlug(slug, indexReady);
      if found.None? {
        return Err(TargetNotFound);
      }
      if found.value == viewer {
        return Err(SelfTarget);
      }
      return Ok(found.value);
    }

    /** `follow_user`: the guards, then the follow transaction. */
    method FollowUser(viewer: string, slug: string, indexReady: bool) returns (r: Result<FollowReply, Error>)
      requires Valid()
      modifies this
      ensures Valid() && ids == old(ids)
      ensures Consistent(old(docs)) ==> Consistent(docs)
      ensures var target := (if viewer == [] then Err(Unauthorized) else
                var found := LookupBySlug(old(docs), old(ids), slug, indexReady);
                if found.None? then Err(TargetNotFound) else if found.value == viewer then Err(SelfTarget)
                else Ok(found.value));
        if target.Err? then r == Err(target.error) && docs == old(docs)
        else
          var spec := Follow(old(docs), viewer, target.value, FollowersCount);
          if spec.Ok? then r == Ok(spec.value.reply) && docs == spec.value.users
          else r == Err(spec.error) && docs == old(docs)
    {
      var target := ResolveTarget(viewer, slug, indexReady);
      if target.Err? {
        return Err(target.error);
      }
      r := TxFollow(viewer, target.value);
    }

    /** `unfollow_user`: the guards, then the unfollow transaction. */
    method UnfollowUser(viewer: string, slug: string, indexReady: bool) returns (r: Result<FollowReply, Error>)
      requires Valid()
      modifies this
      ensures Valid() && ids == old(ids)
      ensures Consistent(old(docs)) ==> Consistent(docs)
      ensures var target := (if viewer == [] then Err(Unauthorized) else
                var found := LookupBySlug(old(docs), old(ids), slug, indexReady);
                if found.None? then Err(TargetNotFound) else if found.value == viewer then Err(SelfTarget)
                else Ok(found.value));
        if target.Err? then r == Err(target.error) && docs == old(docs)
        else
          var spec := Unfollow(old(docs), viewer, target.value, FollowersCount);
          if spec.Ok? then r == Ok(spec.value.reply) && docs == spec.value.users
          else r == Err(spec.error) && docs == old(docs)
    {
      var target := ResolveTarget(viewer, slug, indexReady);
      if target.Err? {
        return Err(target.error);
      }
      r := TxUnfollow(viewer, target.value);
    }

    /** `ensure_user_slug`: a user dict without a slug gets the derived one, written to its
        document; the update fails when the document does not exist. */
    method EnsureUserSlug(uid: string, user: Fields) returns (r: Result<Fields, Error>)
      requires Valid()
      modifies this
      ensures Valid() && ids == old(ids)
      ensures SlugToWrite(user).None? ==> r == Ok(user) && docs == old(docs)
      ensures SlugToWrite(user).Some? && uid !in old(docs) ==> r == Err(DocumentMissing) && docs == old(docs)
      ensures SlugToWrite(user).Some? && uid in old(docs) ==>
        var s := SlugToWrite(user).value;
        r == Ok(user["slug" := s])
        && docs == old(docs)[uid := old(docs)[uid].(fields := old(docs)[uid].fields["slug" := s])]
      ensures r.Ok? ==> (Get(r.value, "slug") != [] <==> Get(user, "slug") != [] || SlugToWrite(user).Some?)
    {
      var s := SlugToWrite(user);
      if s.None? {
        return Ok(user);
      }
      if uid !in docs {
        return Err(DocumentMissing);
      }
      docs := docs[uid := docs[uid].(fields := docs[uid].fields["slug" := s.value])];
      return Ok(user["slug" := s.value]);
    }

    /** `upsert_user`: the incoming fields merged over the stored ones, a slug derived when
        the merge has none, the document created when it did not exist; the merged fields are
        returned with the id. */
    method UpsertUser(uid: string, data: Fields) returns (merged: Fields)
      requires Valid()
      modifies this
      ensures Valid()
      ensures ids == if uid in old(docs) then old(ids) else InsertSorted(old(ids), uid)
      ensures var stored := Upserted(if uid in old(docs) then old(docs)[uid].fields else map[], data);
        docs == old(docs)[uid := if uid in old(docs) then old(docs)[uid].(fields := stored) else NewDoc(stored)]
        && merged == stored["id" := uid]
    {
      var existing := if uid in docs then docs[uid].fields else map[];
      var stored := Upserted(existing, data);
      if uid in docs {
        docs := docs[uid := docs[uid].(fields := stored)];
      } else {
        docs := docs[uid := NewDoc(stored)];
        ids := InsertSorted(ids, uid);
      }
      merged := stored["id" := uid];
    }

    /** `backfill_all_slugs`: every document without a slug gets the derived one, the writes
        grouped into batches committed whenever `batchSize` of them are pending, and once more
        at the end for the rest. Returns the number of documents updated and of commits. */
    method BackfillAllSlugs(batchSize: int) returns (updated: nat, commits: nat)
      requires Valid()
      modifies this
      ensures Valid() && ids == old(ids)
      ensures docs == map id | id in old(docs) :: Backfilled(old(docs)[id])
      ensures updated == CountPlanned(SlugPlan(old(docs)), ids)
      ensures batchSize <= 0 ==> commits == updated
      ensures batchSize > 0 ==> commits * batchSize - batchSize < updated <= commits * batchSize
    {
      StrictlySortedNoDup(ids);
      var d;
      d, updated, commits := StreamBackfill(ids, docs, batchSize);
      docs := d;
    }
  }
}
