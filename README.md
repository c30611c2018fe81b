# Networking-app backend: a Dafny model

This project models the Python backend of a professional-networking app. The backend runs on
Flask with Cloud Firestore as its store. The model covers these parts:

- **Network helpers** (`backend/network.py`):
  - display slugs (`kebab_name`);
  - merging follower uids from three schemas;
  - list chunking;
  - occupation normalisation;
  - title-casing;
  - interest derivation;
  - tokenisation, synonym expansion and text scoring.
- **Profiles** (`backend/profiles_api.py`):
  - slug helpers (`kebab_any`, `kebab_name`, `derive_slug`);
  - the follow/unfollow transactions and their guards;
  - slug lookup (index query, then a scan);
  - `ensure_user_slug`, `upsert_user` and the batched `backfill_all_slugs`.
- **Search** (`backend/search.py`):
  - `_slugify`, `_name_tokens` and `ensure_user_search_fields`;
  - the three stages of `search_users`: an array-contains query, a prefix query, and a ranked in-memory fallback scan.
- **Messenger** (`backend/messager.py`):
  - conversation ids, text cleaning and timestamp serialisation;
  - `send_message`, `get_thread`, `list_partners` and `seed_demo`, over an in-memory conversation store.
- **Assistant** (`backend/ai.py`):
  - the assistant's conversation id;
  - the per-user rate limiter;
  - reading the last messages and normalising their timestamps;
  - building the reply prompt.
- **Automation** (`backend/automation.py`):
  - bearer-token extraction;
  - e-mail screening;
  - the rule-based reply analysis (`_infer_intent`), including its word-boundary regex search;
  - the pure parts of creating a Google Meet event.
- **GitHub** (`backend/github_integration.py`):
  - finding a user's GitHub name on their profile;
  - normalising, ordering and truncating the repository list.

The Firestore store becomes maps and sequences:

- A stream is a sequence in ascending document-id order.
- A query that needs a missing index becomes a boolean parameter saying whether it succeeded.
- Server timestamps, auto-generated ids, random ids and the current time are parameters.
- Token verification and the answers of the GitHub and Calendar APIs are parameters too.

Shared modules:

- `Wrappers`: `Option` and `Result`.
- `Strings`: Python's `str.strip`, ASCII `lower`, the regex pieces of the slug helpers, string order, order-preserving de-duplication and slicing.
- `Sorting`: a stable insertion sort standing in for `list.sort`.

Where the source mutates state, the model keeps that form:

- The user and conversation collections are classes (`Profiles.UserStore`, `Messager.MessageStore`). Their methods update the fields in place.
- The rate limiter is a class (`Assistant.RateLimiter`).
- The source's loops are methods with loop invariants. Each is proved equal to a specification function, and the properties are proved about that function.

## Model

| member | source | states |
|---|---|---|
| Network.KebabName | backend/network.py:55-61 | the slug is never empty and is always kebab: only `a-z`, `0-9` and `-`, no `--`, no dash at either end; it is the cleaned name when anything of it survives cleaning, and `"user"` otherwise |
| Network.KebabNameOnlyDashes | backend/network.py:55-61 | a full name made only of dashes survives the filter but is stripped to nothing, so it gives `"user"` |
| Network.OrUser | backend/network.py:61 | an empty slug becomes `"user"`; a non-empty one is kept |
| Network.KebabNameFullWins | backend/network.py:56 | a non-blank full name alone decides the slug; first and last name are then ignored |
| Network.KebabNameNothingSurvives | backend/network.py:56-61 | a full name with no letter, digit, space or dash gives `"user"` |
| Network.KebabNameIdempotent | backend/network.py:55-61 | slugging a slug as the full name gives it back |
| Network.KebabizeNoop | backend/network.py:57-60 | the cleaning steps leave a kebab slug unchanged |
| Network.SlugBaseOfSlug | backend/network.py:56 | a non-empty slug used as full name is the text that gets slugged |
| Network.Kebabize | backend/network.py:57-60 | lower-casing, the character filter and the dash rules always give a kebab string |
| Network.Chunk | backend/network.py:128-129 | the chunks concatenate back to the list; every chunk has between 1 and `n` elements; all but the last have exactly `n` |
| Network.MergeFollowerUids | backend/network.py:121-126 | the merged follower list is strictly ascending and holds exactly the uids of the three sources |
| Network.FirstMatchingRule | backend/network.py:186-193 | returns the first category rule whose pattern matches, and no earlier rule matches; with no result, no rule matches |
| Network.NormalizeOcc | backend/network.py:179-194 | missing or blank gives `"Other"`; otherwise the category of the first matching rule; otherwise the stripped text with its first letter upper-cased; never empty |
| Network.CapitalizeFirst | backend/network.py:194 | same length; only the first character is upper-cased |
| Network.TitleFrom | backend/network.py:203 | ASCII `str.title()` keeps the length, keeps which characters are letters, and keeps every non-letter |
| Network.SpaceOut | backend/network.py:199-200 | each `_` and `-` becomes a space, and nothing else changes |
| Network.HalveDoubleSpaces | backend/network.py:202 | `replace("  ", " ")` introduces no new characters |
| Network.TitleCase | backend/network.py:196-204 | a title-cased interest contains no `_` and no `-` |
| Network.TitleFromNoSeparators | backend/network.py:203 | title-casing adds no `_` or `-` |
| Network.NonBlankStripped | backend/network.py:220-225 | `push_arr` never adds more items than it is given |
| Network.NonBlankStrippedSnoc | backend/network.py:222-225 | one more item adds its stripped form exactly when it is not blank |
| Network.PushArr | backend/network.py:220-225 | the loop appends the stripped non-blank items in order |
| Network.PushKeywordHits | backend/network.py:231-233 | the loop appends the keywords found in the text, in keyword order (the caller passes the `KW` list) |
| Network.CollectInterests | backend/network.py:219-236 | the collected list is the four list fields, then the keyword hits, then the occupation fallback when nothing else was found |
| Network.MapTitleCase | backend/network.py:237 | title-cases each collected item in place, keeping the order |
| Network.DeriveInterests | backend/network.py:218-237 | the result is the collected items, title-cased, de-duplicated in first-seen order, capped at 40 |
| Network.DeriveInterestsShape | backend/network.py:237 | at most 40 interests, none twice, each a title-cased collected item, in the order first collected |
| Network.SpanNot | backend/network.py:235 | the longest prefix without a separator |
| Network.Tokenize | backend/network.py:239-240 | every token is a non-empty run of `[a-z0-9+.]` |
| Network.WordsOfTokenText | backend/network.py:240 | splitting text made of token characters and spaces gives only tokens |
| Network.TokenizeKeepsTokenChars | backend/network.py:239-240 | tokenising loses only separators: the tokens concatenated are the input's token characters, in order |
| Network.KeepSpaceOut | backend/network.py:240 | turning non-token characters into spaces and then dropping spaces keeps exactly the token characters |
| Network.ExpandTokens | backend/network.py:252-259 | no duplicates, and exactly the tokens plus every synonym group that some token triggers |
| Network.TriggeredBySnoc | backend/network.py:254-256 | the groups triggered by one more token are the old ones plus those of the new token |
| Network.AddTriggeredGroups | backend/network.py:255-258 | the inner loop adds the key and the words of each group the token triggers, and nothing else |
| Network.SetToSeq | backend/network.py:259 | `list(out)` holds each element of the set exactly once |
| Network.TokenPoints | backend/network.py:265-268 | one query token scores at most 2 |
| Network.ScoreText | backend/network.py:261-269 | the loop sums 2 per exact token hit and 1 per substring hit |
| Network.ScoreBounds | backend/network.py:261-269 | the score is at most twice the number of query tokens, and reaches it iff every query token is an expanded target token |
| ProfileSlugs.KebabAny | backend/profiles_api.py:144-148 | the result is a kebab string, possibly empty |
| ProfileSlugs.KebabSource | backend/profiles_api.py:145 | the filter and lower-casing leave only `a-z`, `0-9`, whitespace and `-` |
| ProfileSlugs.KebabSourceNoop | backend/profiles_api.py:145 | a kebab string passes the filter unchanged |
| ProfileSlugs.KebabAnyIdempotent | backend/profiles_api.py:144-148 | slugging a slug gives it back |
| ProfileSlugs.KebabName | backend/profiles_api.py:150-152 | the result is a kebab string |
| ProfileSlugs.KebabNameOneSided | backend/profiles_api.py:151 | with one side missing or blank, the slug is that of the other side alone |
| ProfileSlugs.DeriveSlug | backend/profiles_api.py:154-172 | `None` iff all three names are blank; first and last name win when either is present; the result is always kebab |
| ProfileSlugs.SplitNameSlug | backend/profiles_api.py:166-170 | the split-name heuristic gives a kebab string |
| ProfileSlugs.DeriveSlugFromFullName | backend/profiles_api.py:162-165 | without first and last name, a full name that slugs to something gives that slug |
| Profiles.CountReadsAgree | backend/profiles_api.py:52 | the as-written count read and the corrected one differ only on a stored 0 |
| Profiles.LinkAddedConsistent | backend/profiles_api.py:54-64 | adding one follow link, with the target's count one up, keeps the graph mirrored and the counts exact |
| Profiles.LinkRemovedConsistent | backend/profiles_api.py:86-96 | removing one follow link, with the target's count one down, keeps the graph mirrored and the counts exact |
| Profiles.Follow | backend/profiles_api.py:38-67 | an error iff a user is missing; the viewer's document changes only by the target joining `following`, and the target's only by the viewer joining `followers` and the count being stored one up (both at once when they are the same user); an existing follow changes nothing; other users untouched |
| Profiles.Unfollow | backend/profiles_api.py:70-98 | an error iff a user is missing; the viewer's document changes only by losing the target from `following`, and the target's only by losing the viewer from `followers` and the count being stored one down, not below 0; without a follow nothing changes; other users untouched |
| Profiles.FollowKeepsConsistent | backend/profiles_api.py:50-64 | a follow keeps the graph mirrored and every count equal to the followers' number, and replies with that number |
| Profiles.UnfollowKeepsConsistent | backend/profiles_api.py:82-96 | an unfollow keeps the graph mirrored and the counts exact, and replies with the new number |
| Profiles.FollowThenUnfollow | backend/profiles_api.py:38-98 | following then unfollowing restores both documents, except that the count is now stored explicitly |
| Profiles.TxReadsAgree | backend/profiles_api.py:52 | unless the target stores a count of 0, the follow and unfollow transactions give the same result under the as-written and the corrected count read |
| Profiles.StaleCountAfterLastUnfollow | backend/profiles_api.py:84-90 | as written, the last unfollow stores 0, and the next read falls back to a stale `stats.followers` |
| Profiles.FirstWhere | backend/profiles_api.py:274-299 | the index of the first document that passes, with none before it; with no result, none passes |
| Profiles.LookupBySlug | backend/profiles_api.py:253-301 | a blank slug finds nothing; when the index is available and some document stores the slug, the result is the first such document in id order; otherwise a document is found iff one passes the four scan tests, and it is the first in id order that does |
| Profiles.KebabSlugTarget | backend/profiles_api.py:260 | normalising a kebab slug for lookup changes nothing |
| Profiles.DerivedSlugResolves | backend/profiles_api.py:154-172 | any slug derived for a stored document finds a document |
| Profiles.SlugToWrite | backend/profiles_api.py:209-214 | a slug is written only into a document without one, and it is a non-empty kebab string |
| Profiles.DeriveSlugIgnoresSlugField | backend/profiles_api.py:154-172 | writing the slug does not change the derived slug |
| Profiles.Upserted | backend/profiles_api.py:223-228 | incoming fields win, other stored fields are kept, nothing else appears, and a slug is present iff one was merged in or could be derived; a merged-in slug is kept as is, and otherwise the slug is the derived one |
| Profiles.MergeAgain | backend/profiles_api.py:223 | merging the same fields twice is merging once |
| Profiles.UpsertIdempotent | backend/profiles_api.py:217-232 | upserting the same data twice stores what upserting once does |
| Profiles.Backfilled | backend/profiles_api.py:314-317 | backfill only adds the slug to write, if any, and leaves the follow data alone |
| Profiles.BackfillSettles | backend/profiles_api.py:314-317 | after a backfill no document needs a slug, and a second backfill changes nothing |
| Profiles.SlugPlan | backend/profiles_api.py:312-317 | there is one planned write per document |
| Profiles.CountPlanned | backend/profiles_api.py:318 | the number of planned writes is at most the number of documents |
| Profiles.Commit | backend/profiles_api.py:321 | a commit touches no other document ids |
| Profiles.CountPlannedSnoc | backend/profiles_api.py:318 | one more document adds one to the count iff it gets a slug |
| Profiles.Partial | backend/profiles_api.py:312-323 | the mid-run collection has the same document ids |
| Profiles.PartialStream | backend/profiles_api.py:314-319 | streaming a document queues its planned slug and leaves the collection as it was |
| Profiles.PartialCommit | backend/profiles_api.py:320-323 | committing a batch applies every queued slug |
| Profiles.PartialDone | backend/profiles_api.py:325-326 | once all documents are streamed and nothing is pending, each is in its backfilled form |
| Profiles.BatchedIsProduct | backend/profiles_api.py:320-323 | counting full batches one by one is multiplying |
| Profiles.ProgressNext | backend/profiles_api.py:312 | the next streamed document is untouched and not queued |
| Profiles.ProgressSkip | backend/profiles_api.py:314-316 | a document that needs no slug keeps the loop invariant |
| Profiles.ProgressQueue | backend/profiles_api.py:317-319 | queueing into a batch that is not full keeps the invariant |
| Profiles.ProgressCommit | backend/profiles_api.py:320-323 | filling and committing a batch keeps the invariant |
| Profiles.BatchCount | backend/profiles_api.py:320-326 | the commits number `updated` for a batch size below 1, and otherwise the fewest full-or-partial batches that hold all writes |
| Profiles.ProgressFinish | backend/profiles_api.py:325-328 | the final commit leaves every document backfilled, with the promised counters |
| Profiles.StageDocument | backend/profiles_api.py:313-323 | one loop body keeps the backfill invariant |
| Profiles.StreamBackfill | backend/profiles_api.py:308-326 | the loop backfills every document, counts the written slugs and commits the promised number of batches |
| Profiles.UserStore.constructor | backend/profiles_api.py:19 | a store starts empty |
| Profiles.UserStore.TxFollow | backend/profiles_api.py:38-67 | the store becomes the follow transaction's result under the corrected count read, or is unchanged on error; that is also the source's result unless the target stores a count of 0; consistency is kept |
| Profiles.UserStore.TxUnfollow | backend/profiles_api.py:70-98 | the same for unfollow: the corrected read, agreement with the source unless the target stores 0, and consistency kept |
| Profiles.UserStore.GetUserBySlug | backend/profiles_api.py:253-301 | the index query then the scan with early return compute `LookupBySlug` |
| Profiles.UserStore.ScanBySlug | backend/profiles_api.py:274-299 | the scan loop returns the position of the first document in id order that passes one of the four tests, or nothing |
| Profiles.UserStore.ResolveTarget | backend/profiles_api.py:101-108 | the guards in order: unauthorized, target not found, self-target |
| Profiles.UserStore.FollowUser | backend/profiles_api.py:100-110 | the guards, then the follow transaction under the corrected count read; nothing is written on a guard failure; consistency is kept |
| Profiles.UserStore.UnfollowUser | backend/profiles_api.py:112-122 | the guards, then the unfollow transaction under the corrected count read; nothing is written on a guard failure; consistency is kept |
| Profiles.UserStore.EnsureUserSlug | backend/profiles_api.py:204-215 | a user without a slug gets the derived one written to its document; a missing document fails the update; the returned dict has a slug iff it had one or one was derived |
| Profiles.UserStore.UpsertUser | backend/profiles_api.py:217-232 | the document becomes the merge (created if missing) and the merge is returned with its id |
| Profiles.UserStore.BackfillAllSlugs | backend/profiles_api.py:303-328 | every document is backfilled; the count of updated documents and the commits are as promised |
| Search.Slugify | backend/search.py:27-31 | the slug holds only `a-z`, `0-9` and `-`, with no `--` |
| Search.SlugifySource | backend/search.py:28 | after stripping and lower-casing only slug characters are left |
| Search.SlugifyIdempotent | backend/search.py:27-31 | slugging a slug gives it back |
| Search.SlugifyFixes | backend/search.py:27-31 | a string of `a-z`, `0-9` and `-` without dash runs passes every step of `_slugify` unchanged |
| Search.Blank | backend/search.py:38 | blanking keeps the length, keeps each ASCII letter, digit, whitespace character and `-`, and turns every other character into a space |
| Search.Expansion | backend/search.py:42-44 | each word comes first, followed by its prefixes |
| Search.ExpansionMembers | backend/search.py:42-44 | a token is in a word's expansion iff it is the word or a prefix of length 2 to `min(len, 6)` |
| Search.CandidatesMembers | backend/search.py:41-44 | the candidate list holds exactly the expansions of the words |
| Search.NameTokensShape | backend/search.py:33-52 | exactly the words and their prefixes of length 2 to 6, each once, in first-produced order |
| Search.NameWordsAreTokens | backend/search.py:39-42 | every word of the name is a token |
| Search.NameTokens | backend/search.py:38-52 | the two loops with the `seen` set compute the specified tokens |
| Search.ExpandWords | backend/search.py:41-44 | the first loop produces the candidate list |
| Search.EnsureSearchFields | backend/search.py:54-64 | `fullName` is filled in; `fullNameLower` is its lower-case form; tokens and slug are computed only when falsy; every other field is kept |
| Search.EnsureSearchFieldsIdempotent | backend/search.py:54-64 | filling in the search fields twice is filling them in once |
| Search.RefillSettles | backend/search.py:54-64 | refilling a filled-in document whose full name settles changes nothing |
| Search.FullNameSettles | backend/search.py:59-60 | the filled-in full name is what a second pass computes |
| Search.SelectAppend | backend/search.py:110-118 | filtering and mapping distributes over concatenation |
| Search.SelectFrom | backend/search.py:152-160 | every yielded card is that of a kept document |
| Search.MatchesShape | backend/search.py:152-160 | every kept card has the query in its lower-cased name and comes from a streamed document |
| Search.Cards | backend/search.py:135-142 | one card per document |
| Search.ScanOne | backend/search.py:111-118 | one streamed document gives the hit test and the card |
| Search.FastPath | backend/search.py:110-120 | the loop with its early `break` gives the first `limit` matches (for `limit` of 1 or more) |
| Search.StopEarly | backend/search.py:119-120 | breaking once `limit` cards are collected already yields the specified answer |
| Search.CollectMatches | backend/search.py:152-160 | the fallback loop builds the matching cards in stream order |
| Search.RangeStartsWith | backend/search.py:131-132 | a string between `q` and `q + ""` starts with `q` |
| Search.PrefixQueryStartsWith | backend/search.py:129-134 | every document of the prefix query stores a `fullNameLower` that starts with the query |
| Search.RankShape | backend/search.py:161-164 | the ranking is the basket's prefix matches, then the other cards, each group in basket order; so it keeps exactly the basket's cards, as many, and puts every prefix match before every other card |
| Search.CardsFromCollection | backend/search.py:135-142 | cards of selected documents come from the collection |
| Search.TakeMembers | backend/search.py:122 | `[:limit]` yields only listed cards |
| Search.SliceToMembers | backend/search.py:165 | `[:limit]` with any limit yields only listed cards |
| Search.FastResultShape | backend/search.py:107-125 | at most `limit` fast-path cards, each with the query in its lower-cased name, each from the collection |
| Search.PrefixResultShape | backend/search.py:127-146 | at most `limit` prefix-path cards, each of a document whose stored lower-case name starts with the query |
| Search.FallbackResultShape | backend/search.py:148-167 | fallback cards hold the query, come from the collection, have prefix matches first, and number at most `limit` |
| Search.FallbackOrderComplete | backend/search.py:148-165 | the fallback answer is a prefix of the prefix matches then the other matches, each in scan order; when the matches among the first 400 documents fit in `limit`, every one of them is returned |
| Search.SearchResultShape | backend/search.py:92-167 | a query shorter than 2 gives `[]`; at most `limit` cards; each card is from the collection and matches the query |
| Search.CardsSnoc | backend/search.py:135-142 | one more document adds its card at the end |
| Search.BuildCards | backend/search.py:135-142 | the card loop builds one card per document |
| Search.SearchUsers | backend/search.py:92-167 | the three stages with their loops compute `SearchResult` |
| Messager.ConvIdFor | backend/messager.py:18-21 | the id is the two stripped uids joined by `__`, in one of the two orders |
| Messager.ConvIdSorted | backend/messager.py:18-21 | the smaller stripped uid comes first |
| Messager.ConvIdSymmetric | backend/messager.py:18-21 | both parties get the same conversation id |
| Messager.FirstUnderscore | backend/messager.py:21 | in `x + "__" + y` with `x` free of `_`, the first `_` sits right after `x` |
| Messager.SplitAtSeparator | backend/messager.py:21 | the joined id determines both of its parts when neither contains `_` |
| Messager.ConvIdDeterminesPair | backend/messager.py:18-21 | for uids without `_`, equal conversation ids mean the same pair of participants |
| Messager.CleanText | backend/messager.py:26-30 | the cleaned text is a prefix of the stripped text, with length `min(len, max_len)` for a non-negative limit and Python's negative-slice length otherwise |
| Messager.CleanTextBlank | backend/messager.py:26-30 | with a positive limit, the text is empty iff the input is blank, and it never starts with whitespace |
| Messager.MillisOf | backend/messager.py:40 | the timestamp's exact milliseconds, truncated toward zero as `int()` does, within one second of the microseconds; the float rounding of `timestamp() * 1000` is left out |
| Messager.MillisMonotone | backend/messager.py:40 | later timestamps never give fewer milliseconds |
| Messager.SerializeTs | backend/messager.py:35-41 | both fields are `None` exactly without a timestamp; otherwise the ISO string and its milliseconds |
| Messager.Views | backend/messager.py:99-110 | one reply entry per document |
| Messager.Stream | backend/messager.py:99-113 | the stream has one entry per stored id |
| Messager.StreamMembers | backend/messager.py:99-113 | the stream holds exactly the stored messages |
| Messager.KeyLeOrdering | backend/messager.py:127 | the fallback key `(createdAtMs or 0, id)` is a total preorder |
| Messager.TakeMembers | backend/messager.py:113 | `limit(n)` yields only streamed documents |
| Messager.ViewsMembers | backend/messager.py:114-126 | the reply entries are the views of the fetched documents |
| Messager.OrderedFetchStored | backend/messager.py:108-110 | the ordered query returns at most `limit` stored messages, each with a timestamp |
| Messager.OrderedFetchAscending | backend/messager.py:108-110 | the ordered query's messages have ascending milliseconds |
| Messager.OrderedFetchComplete | backend/messager.py:108-110 | with at most `limit` messages, the ordered query misses no timestamped message |
| Messager.OrderedThreadShape | backend/messager.py:99-111 | at most `limit` stored, timestamped messages, ascending in time; complete when the conversation is no longer than `limit` |
| Messager.FallbackThreadShape | backend/messager.py:112-128 | at most `limit` stored messages sorted by `(createdAtMs or 0, id)`; complete when the conversation is no longer than `limit` |
| Messager.CollectViews | backend/messager.py:114-126 | the loop builds one reply entry per document, in order |
| Messager.ThreadResult | backend/messager.py:80-130 | unauthorized iff no uid; missing-other iff no other uid; a negative limit is rejected; on success, the conversation id is that of the pair |
| Messager.SendCheck | backend/messager.py:57-64 | the errors come in the source's order; on success the uids differ and the text is the cleaned text, 1 to 5000 characters |
| Messager.Joined | backend/messager.py:32-33 | the participants become `[a, b]` and stored messages are kept |
| Messager.Posted | backend/messager.py:66-75 | writing a message keeps the conversation well-formed and stores exactly that message under its id |
| Messager.PostedStream | backend/messager.py:66-75 | after a post the stream holds the new message and all earlier ones, and nothing else |
| Messager.Lookup | backend/messager.py:66-70 | a present conversation is returned as stored |
| Messager.FlatMembers | backend/messager.py:146-151 | the flattened participants are exactly those of the conversations |
| Messager.PartnersShape | backend/messager.py:133-153 | no duplicates, never `uid`, every other participant, in first-met order |
| Messager.PartnersStep | backend/messager.py:148-151 | one inner-loop step appends a new partner exactly when it is unseen and not `uid` |
| Messager.Gather | backend/messager.py:146-151 | the loop over the conversations, with the inner loop in `GatherFrom`, computes `PartnersOf` |
| Messager.GatherFrom | backend/messager.py:148-151 | the inner loop over one conversation's participants extends the partner list as `PartnersOf` does over those participants |
| Messager.StoreStream | backend/messager.py:143 | the store is streamed in ascending id order |
| Messager.PartnersResult | backend/messager.py:133-153 | unauthorized iff no uid; a negative maximum is rejected; otherwise the partners over the matching conversations |
| Messager.PartnersShareConversation | backend/messager.py:133-153 | every partner differs from the stripped uid and shares a stored conversation with it |
| Messager.SeedCheck | backend/messager.py:163-170 | the errors come in the source's order; on success, the two stripped uids |
| Messager.DemoMessages | backend/messager.py:175-179 | the three demo messages alternate sender and receiver between the pair |
| Messager.PostAll | backend/messager.py:181-184 | the batch keeps the conversation well-formed |
| Messager.PutAllStores | backend/messager.py:181-184 | with distinct ids, a batch of writes maps each id to its message and keeps every other message |
| Messager.PostAllStores | backend/messager.py:181-184 | with distinct ids, each message is stored under its id and every other message is untouched |
| Messager.CommitBatch | backend/messager.py:181-184 | the batch loop computes `PostAll` |
| Messager.SeededConversation | backend/messager.py:172-184 | the seeded conversation has participants `[a, b]` and holds the three demo messages next to the earlier ones |
| Messager.MessageStore.constructor | backend/messager.py:11 | a store starts empty |
| Messager.MessageStore.Put | backend/messager.py:70 | writing a conversation keeps the store well-formed |
| Messager.MessageStore.SendMessage | backend/messager.py:47-77 | fails iff validation fails, without writing; otherwise the message is written to the pair's conversation and its ids are returned |
| Messager.MessageStore.GetThread | backend/messager.py:80-130 | computes `ThreadResult` on the store |
| Messager.MessageStore.ListPartners | backend/messager.py:133-153 | computes `PartnersResult` with the nested loops |
| Messager.MessageStore.SeedDemo | backend/messager.py:156-186 | fails iff validation fails, without writing; otherwise the three messages are committed to the pair's conversation and the count 3 is returned |
| Assistant.ConvIdFor | backend/ai.py:70-71 | the two uids joined by `__`, in one of the two orders |
| Assistant.ConvIdSymmetric | backend/ai.py:70-71 | both parties get the same id |
| Assistant.ConvIdAgrees | backend/ai.py:70-71 | on stripped uids the assistant reads the conversation the messenger writes |
| Assistant.Admit | backend/ai.py:73-78 | refused iff less than 800 ms have passed since the user's last accepted call; otherwise only that user's time moves to now |
| Assistant.AdmitSpacing | backend/ai.py:76-78 | after an accepted call the user is refused for 800 ms, while others are judged as before |
| Assistant.RateLimiter.constructor | backend/ai.py:73-78 | the limiter starts with no recorded calls |
| Assistant.RateLimiter.RateLimit | backend/ai.py:73-78 | accepts iff `Admit` does, and then records the call; otherwise nothing changes |
| Assistant.ToEpochMs | backend/ai.py:95-105 | a timestamp gives its exact truncated milliseconds (no float rounding); a number at least 1e12 is kept; a smaller one is multiplied by 1000; anything else gives 0 |
| Assistant.SecondsAndMillisAgree | backend/ai.py:102-104 | an instant after September 2001 converts the same from seconds or from milliseconds |
| Assistant.StampAgreesWithThread | backend/ai.py:99 | a timestamp converts to the milliseconds the messenger serialises |
| Assistant.Msgs | backend/ai.py:120-130 | one `Msg` per document |
| Assistant.Reverse | backend/ai.py:138 | `reversed` has the same length and mirrors the indices |
| Assistant.TakeSorted | backend/ai.py:109 | a limit keeps a sorted list sorted |
| Assistant.ReverseMembers | backend/ai.py:138 | reversing keeps the members |
| Assistant.OrderedDocsShape | backend/ai.py:108-110 | at most `limit` timestamped documents of the conversation, newest first; complete when it holds no more than `limit` |
| Assistant.FallbackDocsShape | backend/ai.py:111-118 | the first `limit` documents, newest first by the fallback key |
| Assistant.FetchLastMessages | backend/ai.py:83-132 | the loop turns the query result (or the sorted fallback) into the message list |
| Assistant.HistoryLinesShape | backend/ai.py:140-144 | one line per message with non-blank text, oldest first |
| Assistant.LineRole | backend/ai.py:141 | a line starts with `ME: ` iff the message is from the user, otherwise with `THEM: ` |
| Assistant.JoinStartsWith | backend/ai.py:145 | a non-empty history starts with its first line |
| Assistant.NoPriorMessagesIff | backend/ai.py:145 | the history is the placeholder iff no message has non-blank text |
| Assistant.BuildPrompt | backend/ai.py:137-160 | the loop over the reversed messages renders the history inside the fixed instructions |
| Automation.BearerToken | backend/automation.py:37-41 | a token iff the header starts with `Bearer `; it is the stripped rest of the header |
| Automation.BearerRoundTrip | backend/automation.py:37-41 | a stripped token put into a header is read back unchanged |
| Automation.RequireUser | backend/automation.py:43-54 | a missing or empty token fails as missing; otherwise the verifier's claims, or its error as an invalid token |
| Automation.AfterLastAt | backend/automation.py:68 | `split("@")[-1]` is the suffix after the last `@` and contains no `@` |
| Automation.SafeEmail | backend/automation.py:62-69 | an address iff the stripped input has an `@` with a `.` after the last one; the address is the stripped input |
| Automation.SafeEmailIdempotent | backend/automation.py:62-69 | an accepted address passes again unchanged |
| Automation.AttendeesShape | backend/automation.py:160-164 | the attendees are the accepted addresses, in input order |
| Automation.CollectAttendees | backend/automation.py:160-164 | the attendee loop computes the specified list |
| Automation.FirstAlt | backend/automation.py:75-77 | a match at a position iff some alternative matches there with word boundaries on both sides; the match length is one of those alternatives |
| Automation.SearchIffSomeMatch | backend/automation.py:84-89 | `re.search` succeeds iff the pattern matches at some position |
| Automation.SearchWitness | backend/automation.py:84-89 | a successful search has a matching position at or after its start |
| Automation.SearchReaches | backend/automation.py:84-89 | a search started at or before a matching position succeeds |
| Automation.SearchIffFindAll | backend/automation.py:92-93 | `re.search` succeeds iff `re.findall` finds at least one match |
| Automation.InferIntent | backend/automation.py:79-95 | blank text gives neutral/unknown; then no > later > yes precedence; otherwise unknown, with sentiment from comparing the good and bad counts |
| Automation.NotInterestedIsRefusal | backend/automation.py:76-85 | "Not interested" reads as a refusal, even though it contains a positive word |
| Automation.MeetingMinutes | backend/automation.py:153 | at least 15 minutes; a missing or zero duration means 30 |
| Automation.MeetingEnd | backend/automation.py:153 | the end is that many minutes after the start, so never less than 15 minutes |
| Automation.FirstVideo | backend/automation.py:179-182 | the index of the first `video` entry point, with none before it |
| Automation.MeetUrlShape | backend/automation.py:176-185 | when the first video entry's uri is a non-empty string the link is that uri; when it is not, or there is no video entry, the link is `hangoutLink`; later video entries are never used |
| Automation.MeetUrl | backend/automation.py:176-185 | the loop with `break` and the fallback compute `MeetUrlOf` |
| Automation.CreateMeetEvent | backend/automation.py:139-197 | no service gives the placeholder link; the request holds the summary, the clamped end and the screened attendees; an API failure gives `ok` false; otherwise the chosen link, the event id, and the organizer's e-mail or `"primary"` |
| GitHub.NonBlank | backend/github_integration.py:43-44 | a value iff the field is a non-blank string; the value is the stripped string |
| GitHub.Segment | backend/github_integration.py:57 | `[^/?#]+` greedily: the longest prefix without `/`, `?` or `#` |
| GitHub.FirstHost | backend/github_integration.py:57 | the leftmost position where the URL pattern matches |
| GitHub.UrlUser | backend/github_integration.py:57-59 | a name iff `github.com/` is followed by a non-separator somewhere; the name is non-empty and has no `/`, `?` or `#` |
| GitHub.SegmentOf | backend/github_integration.py:57 | a separator-free name followed by a separator or the end is read back exactly |
| GitHub.UrlUserRoundTrip | backend/github_integration.py:57-59 | `https://github.com/<name>`, optionally with a path, query or fragment, gives back `<name>` |
| GitHub.ExtractUsername | backend/github_integration.py:31-68 | an empty or missing document gives `None`; a found name is never empty |
| GitHub.FirstSome | backend/github_integration.py:39-66 | the first present entry, with all earlier ones absent |
| GitHub.Sources | backend/github_integration.py:39-66 | there are four places a name can come from |
| GitHub.ExtractIsFirstSource | backend/github_integration.py:36-68 | the name comes from the first place that offers one, in the order `github.username`, `githubUsername`, `links.github`, `social.github`; `None` iff none does |
| GitHub.ExtractFromLink | backend/github_integration.py:51-59 | a profile whose only GitHub reference is a profile link gives the link's name |
| GitHub.Normalized | backend/github_integration.py:96-107 | each normalised repository takes its fields from the matching keys |
| GitHub.NormalizedAll | backend/github_integration.py:95-107 | one normalised entry per repository, in order |
| GitHub.NormalizeAll | backend/github_integration.py:94-107 | the normalising loop computes the specified list |
| GitHub.NewerFirstOrdering | backend/github_integration.py:109 | ordering by `updated_at or ""` descending is a total preorder |
| GitHub.RepoListShape | backend/github_integration.py:92-110 | `min(limit, n)` repositories of the reply, newest first; all of them when `limit` is at least their number |
| GitHub.RepoListKeepsNewest | backend/github_integration.py:109-110 | the kept repositories are drawn from the reply, and every repository left out was updated no later than any kept one |
| GitHub.SortedSliceSplit | backend/github_integration.py:109-110 | cutting a sorted list leaves out only elements that sort no earlier than the kept ones |
| GitHub.FetchRepos | backend/github_integration.py:70-110 | a failed request is a network error; any status but 200 gives an empty list; 200 gives the normalised, sorted, truncated list |

## Left out

- Firestore itself:
  - network access, transactions and their retries;
  - Firestore's cross-type value ordering;
  - documents whose fields are not strings.
  
  Collections are maps, streams are sequences in ascending document-id order, and a query that needs a missing index is a boolean parameter.
- Letter case is ASCII only. Python's Unicode `lower`, `upper` and `title`, and `\w` in regexes on non-ASCII letters, are not modelled. `str.strip`/`isspace` use Python's full whitespace set.
- Server timestamps, auto-generated document ids, `uuid` values and the current time are parameters. The placeholder Meet link is therefore a parameter too.
- The Gemini SDK calls, the GitHub HTTP request and the Google Calendar API calls are not modelled. Their outcomes are parameters (`Automation.CreateMeetEvent`, `GitHub.FetchRepos`). Firebase token verification is the `verify` parameter of `Automation.RequireUser`.
- Floating point:
  - `_local_match` in network.py weights scores with `log2`, so it is not modelled.
  - `score_text` is modelled on whole points.
  - `Assistant.ToEpochMs` takes whole numbers. A float `createdAt`, and a boolean read as a number, are not modelled.
  - The rate limiter works in integer milliseconds.
- Messager.MillisOf: computes the milliseconds exactly from whole microseconds. The source computes `int(ts.timestamp() * 1000)` in floating point, which can come out one millisecond low (1 001 000 µs after the epoch gives 1000, not 1001). That rounding is not modelled. So `Messager.SerializeTs`'s `createdAtMs` and the timestamp branch of `Assistant.ToEpochMs` may differ from the source by that millisecond. So may the fallback orderings built on them: `get_thread`'s and `_fetch_last_messages`'s order by `createdAtMs`, and two messages the source ties may be ordered differently.
- Messager.SerializeTs: its `createdAtMs` is `Messager.MillisOf` of the timestamp, without the float rounding.
- Assistant.ToEpochMs: its timestamp branch is `Messager.MillisOf`, without the float rounding.
- `Assistant.LastMessages`: the limit is a natural number, because the only caller passes `MAX_MSGS`. The ordered paths of the messenger and the assistant order only timestamp values of `createdAt`.
- `Automation.CreateMeetEvent`:
  - The start time is an integer number of seconds; ISO parsing is not modelled.
  - The `raw`, `note` and `error` fields of the reply are not modelled.
  - The conference request id is not modelled.
  - An organizer entry whose value is not an object is not modelled.
- `Automation.InferIntent`: the `re.I` flag is implied by lower-casing the text first. Unicode case folding (for example of the Kelvin sign) is not modelled.
- `GitHub.UpdatedKey`: an `updated_at` that is neither a string nor missing sorts as `""`. Python would raise a `TypeError` when comparing it with a string.
- `Messager.MessageStore.SeedDemo`: the three auto ids are parameters, and the model does not require them to be distinct. `Messager.SeededConversation` assumes they are.
- TxFollow: reads the target's follower count with the corrected read (`Profiles.FollowersCount`), not with `followersCount or stats.followers` as profiles_api.py:52 does. Its contract also gives the source's result whenever the target does not store a count of 0 (`Profiles.TxReadsAgree`). With a stored 0 the source falls back to `stats.followers`; see "## Findings".
- TxUnfollow: the same for profiles_api.py:84: the corrected read, and the source's result whenever the target does not store a count of 0.
- FollowUser: runs `TxFollow`, so it too uses the corrected count read, and it promises the source's result only through `TxFollow` and `Profiles.TxReadsAgree`.
- UnfollowUser: runs `TxUnfollow`, with the same corrected count read.
- Following and followers lists are sets: the source round-trips them through `set()`, so their order is not modelled.
- `Profiles.UserStore.BackfillAllSlugs`: intermediate commits happen inside a loop over values. The store's field is assigned once at the end, since no concurrent reader is modelled.
- `backfill_search_fields` in search.py is a development helper that writes what `ensure_user_search_fields` computes. It is not modelled.
- `_profile_by_slug` and the Flask routes of github_integration.py are not modelled. backend/config.py and backend/face_store.py are not part of this model.
- The `_conv_id_for` of automation.py (lines 59-60) is the same expression as that of ai.py. `Assistant.ConvIdFor` models both.

## Findings

| source | as written | input that shows it | evidently intended | confidence | as-written member | corrected member |
|---|---|---|---|---|---|---|
| backend/profiles_api.py:84-90 | the count is read as `followersCount or stats.followers`, so a stored 0 counts as missing | a target with `followersCount` 1, `stats.followers` 1 and one follower, who then unfollows: 0 is stored, and the next read gives 1 | a stored count, 0 included, is the count; `stats.followers` applies only when `followersCount` is missing | not executed | Profiles.StaleCountAfterLastUnfollow | Profiles.UnfollowKeepsConsistent |
