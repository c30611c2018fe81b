/** The two-party messenger of backend/messager.py over an in-memory model of the Firestore
    `conversations` collection and the `messages` sub-collection of each conversation. */
module Messager {
  import opened Wrappers
  import opened Strings
  import opened Sorting

  /** A Firestore timestamp: microseconds since the epoch, and its ISO-8601 rendering. */
  datatype Timestamp = Timestamp(micros: int, iso: string)

  /** A `messages/<id>` document; a field missing from a (legacy) document is `None`. */
  datatype Message = Message(
    from: Option<string>,
    to: Option<string>,
    text: Option<string>,
    createdAt: Option<Timestamp>)

  /** A message document together with its id, as a query streams it. */
  datatype Entry = Entry(id: string, msg: Message)

  /** A `conversations/<id>` document: its `participants` list and its messages, whose ids are
      also kept in ascending order (the order in which Firestore streams documents). */
  datatype Conversation = Conversation(participants: seq<string>, msgIds: seq<string>, msgs: map<string, Message>)

  ghost predicate ConvValid(c: Conversation) {
    StrictlySorted(c.msgIds) && forall id :: id in c.msgs <==> id in c.msgIds
  }

  /** The errors the messenger returns (`{"ok": False, "error": ...}`), and a query Firestore
      refuses. */
  datatype Error =
    | Unauthorized    // "unauthorized"
    | MissingTo       // "missing 'to' uid"
    | MessageToSelf   // "cannot message yourself"
    | EmptyMessage    // "empty message"
    | MissingOther    // "missing 'other_uid'"
    | NeedTwoUids     // "need two different uids 'a' and 'b'"
    | QueryRejected   // a negative query limit: the query raises

  // ---------------------------------------------------------------------------
  // Helpers
  // ---------------------------------------------------------------------------

  /** `_conv_id_for`: the two stripped ids, smaller first, joined by `__`. */
  function ConvIdFor(a: string, b: string): (r: string)
    ensures r == Strip(a) + "__" + Strip(b) || r == Strip(b) + "__" + Strip(a)
  {
    var x := Strip(a);
    var y := Strip(b);
    if LessEq(x, y) then x + "__" + y else y + "__" + x
  }

  /** The smaller stripped id comes first, whichever argument it was. */
  lemma ConvIdSorted(a: string, b: string)
    ensures LessEq(Strip(a), Strip(b)) ==> ConvIdFor(a, b) == Strip(a) + "__" + Strip(b)
    ensures LessEq(Strip(b), Strip(a)) ==> ConvIdFor(a, b) == Strip(b) + "__" + Strip(a)
  {
    var x := Strip(a);
    var y := Strip(b);
    if Less(x, y) {
      LessAsymmetric(x, y);
    } else if x != y {
      LessTotal(x, y);
    }
  }

  /** Both parties address the same conversation. */
  lemma ConvIdSymmetric(a: string, b: string)
    ensures ConvIdFor(a, b) == ConvIdFor(b, a)
  {
    ConvIdSorted(a, b);
    ConvIdSorted(b, a);
    LessTotal(Strip(a), Strip(b));
  }

  /** Splitting `x + "__" + y` at its first underscore recovers `x` when `x` has none. */
  lemma FirstUnderscore(x: string, y: string)
    requires '_' !in x
    ensures (x + "__" + y)[|x|] == '_'
    ensures forall k :: 0 <= k < |x| ==> (x + "__" + y)[k] != '_'
  {
    forall k | 0 <= k < |x| ensures (x + "__" + y)[k] != '_' {
      assert (x + "__" + y)[k] == x[k];
    }
  }

  lemma SplitAtSeparator(x: string, y: string, x2: string, y2: string)
    requires '_' !in x && '_' !in x2
    requires x + "__" + y == x2 + "__" + y2
    ensures x == x2 && y == y2
  {
    var s := x + "__" + y;
    FirstUnderscore(x, y);
    FirstUnderscore(x2, y2);
    assert |x| == |x2|;
    assert x == s[..|x|] && x2 == s[..|x2|];
    assert y == s[|x| + 2..] && y2 == s[|x2| + 2..];
  }

  /** For ids without underscores (Firebase uids are alphanumeric), the conversation id
      determines the unordered pair of participants. */
  lemma ConvIdDeterminesPair(a: string, b: string, c: string, d: string)
    requires '_' !in Strip(a) && '_' !in Strip(b) && '_' !in Strip(c) && '_' !in Strip(d)
    requires ConvIdFor(a, b) == ConvIdFor(c, d)
    ensures {Strip(a), Strip(b)} == {Strip(c), Strip(d)}
  {
    var r := ConvIdFor(a, b);
    if r == Strip(a) + "__" + Strip(b) {
      if r == Strip(c) + "__" + Strip(d) {
        SplitAtSeparator(Strip(a), Strip(b), Strip(c), Strip(d));
      } else {
        SplitAtSeparator(Strip(a), Strip(b), Strip(d), Strip(c));
      }
    } else {
      if r == Strip(c) + "__" + Strip(d) {
        SplitAtSeparator(Strip(b), Strip(a), Strip(c), Strip(d));
      } else {
        SplitAtSeparator(Strip(b), Strip(a), Strip(d), Strip(c));
      }
    }
  }

  /** The default `max_len` of `_clean_text`. */
  const MaxTextLen := 5000

  /** `_clean_text`: the stripped text (`None` read as empty), cut to `maxLen` characters with
      Python's `s[:maxLen]` when longer. */
  function CleanText(s: Option<string>, maxLen: int): (r: string)
    ensures |r| <= |Strip(s.GetOr(""))| && r == Strip(s.GetOr(""))[..|r|]
    ensures maxLen >= 0 ==>
      |r| == if |Strip(s.GetOr(""))| <= maxLen then |Strip(s.GetOr(""))| else maxLen
    ensures maxLen < 0 ==>
      |r| == if |Strip(s.GetOr(""))| + maxLen > 0 then |Strip(s.GetOr(""))| + maxLen else 0
  {
    var t := Strip(s.GetOr(""));
    if |t| > maxLen then SliceTo(t, maxLen) else t
  }

  /** With a positive limit the cleaned text is empty exactly when the text is blank, and it
      never starts with whitespace. */
  lemma CleanTextBlank(s: Option<string>, maxLen: int)
    requires maxLen > 0
    ensures CleanText(s, maxLen) == [] <==> Strip(s.GetOr("")) == []
    ensures CleanText(s, maxLen) != [] ==> !IsSpace(CleanText(s, maxLen)[0])
  {
    var t := Strip(s.GetOr(""));
    var r := CleanText(s, maxLen);
    StripEnds(s.GetOr(""));
    if r != [] {
      assert r[0] == t[0];
    }
  }

  /** Milliseconds since the epoch of a timestamp held in whole microseconds, truncated toward
      zero as Python's `int()` does; computed exactly, without the floating-point rounding of
      `timestamp() * 1000`. */
  function MillisOf(us: int): (ms: int)
    ensures us >= 0 ==> 0 <= ms * 1000 <= us < ms * 1000 + 1000
    ensures us < 0 ==> ms * 1000 - 1000 < us <= ms * 1000 <= 0
  {
    if us >= 0 then us / 1000 else -((-us) / 1000)
  }

  lemma MillisMonotone(a: int, b: int)
    requires a <= b
    ensures MillisOf(a) <= MillisOf(b)
  {
  }

  /** The `createdAt` / `createdAtMs` pair a message is serialised with. */
  datatype Serialized = Serialized(createdAt: Option<string>, createdAtMs: Option<int>)

  /** `_serialize_ts`: both fields `None` without a timestamp, otherwise the ISO rendering and
      the whole milliseconds since the epoch. */
  function SerializeTs(ts: Option<Timestamp>): (r: Serialized)
    ensures r.createdAt.None? <==> ts.None?
    ensures r.createdAtMs.None? <==> ts.None?
    ensures ts.Some? ==> r.createdAt == Some(ts.value.iso)
    ensures ts.Some? ==> var us, ms := ts.value.micros, r.createdAtMs.value;
      (0 <= ms * 1000 <= us || us <= ms * 1000 <= 0) && -1000 < us - ms * 1000 < 1000
  {
    match ts
    case None => Serialized(None, None)
    case Some(t) => Serialized(Some(t.iso), Some(MillisOf(t.micros)))
  }

  // ---------------------------------------------------------------------------
  // Reading a thread
  // ---------------------------------------------------------------------------

  /** One message as `get_thread` returns it; a missing `text` reads as "". */
  datatype MessageView = MessageView(id: string, from: Option<string>, to: Option<string>, text: string, ser: Serialized)

  function ViewOf(e: Entry): MessageView {
    MessageView(e.id, e.msg.from, e.msg.to, e.msg.text.GetOr(""), SerializeTs(e.msg.createdAt))
  }

  function Views(es: seq<Entry>): (vs: seq<MessageView>)
    ensures |vs| == |es|
  {
    seq(|es|, i requires 0 <= i < |es| => ViewOf(es[i]))
  }

  /** A conversation's messages in ascending id order. */
  function Stream(c: Conversation): (r: seq<Entry>)
    requires forall id :: id in c.msgIds ==> id in c.msgs
    ensures |r| == |c.msgIds|
  {
    seq(|c.msgIds|, i requires 0 <= i < |c.msgIds| => Entry(c.msgIds[i], c.msgs[c.msgIds[i]]))
  }

  /** The stream holds exactly the stored messages. */
  lemma StreamMembers(c: Conversation, e: Entry)
    requires ConvValid(c)
    ensures e in Stream(c) <==> e.id in c.msgs && e.msg == c.msgs[e.id]
  {
    var s := Stream(c);
    if e.id in c.msgs {
      var k :| 0 <= k < |c.msgIds| && c.msgIds[k] == e.id;
      assert s[k] == Entry(e.id, c.msgs[e.id]);
    }
  }

  /** A conversation that has not been written yet reads as empty. */
  const NoConversation := Conversation([], [], map[])

  predicate Stamped(e: Entry) { e.msg.createdAt.Some? }

  function MicrosOf(e: Entry): int {
    if e.msg.createdAt.Some? then e.msg.createdAt.value.micros else 0
  }

  /** The server-side order `order_by("createdAt")`; ties keep the id order of the stream. */
  function ByCreatedAt(): (Entry, Entry) -> bool {
    (a: Entry, b: Entry) => MicrosOf(a) <= MicrosOf(b)
  }

  /** `order_by("createdAt", ASCENDING).limit(limit)`: documents without `createdAt` are not in
      the ordered query. */
  function OrderedFetch(c: Conversation, limit: nat): seq<Entry>
    requires forall id :: id in c.msgIds ==> id in c.msgs
  {
    Take(SortBy(Where(Stream(c), Stamped), ByCreatedAt()), limit)
  }

  /** The fallback sort key `(createdAtMs or 0, id)`. */
  function MsKey(v: MessageView): int { v.ser.createdAtMs.GetOr(0) }

  predicate KeyLe(a: MessageView, b: MessageView) {
    MsKey(a) < MsKey(b) || (MsKey(a) == MsKey(b) && LessEq(a.id, b.id))
  }

  lemma KeyLeOrdering()
    ensures IsOrdering(KeyLe)
  {
    forall a: MessageView, b: MessageView ensures KeyLe(a, b) || KeyLe(b, a) {
      LessTotal(a.id, b.id);
    }
    forall a: MessageView, b: MessageView, c: MessageView | KeyLe(a, b) && KeyLe(b, c)
      ensures KeyLe(a, c)
    {
      if Less(a.id, b.id) && Less(b.id, c.id) {
        LessTransitive(a.id, b.id, c.id);
      }
    }
  }

  /** The messages of a thread, limit already validated: the ordered query, or when it fails,
      the first `limit` messages sorted locally by `(createdAtMs or 0, id)`. */
  function ThreadOf(c: Conversation, limit: nat, orderedOk: bool): seq<MessageView>
    requires forall id :: id in c.msgIds ==> id in c.msgs
  {
    if orderedOk then Views(OrderedFetch(c, limit))
    else SortBy(Views(Take(Stream(c), limit)), KeyLe)
  }

  lemma TakeMembers<T>(xs: seq<T>, n: nat, x: T)
    requires x in Take(xs, n)
    ensures x in xs
  {
    var r := Take(xs, n);
    var k :| 0 <= k < |r| && r[k] == x;
    assert xs[k] == x;
  }

  lemma ViewsMembers(es: seq<Entry>, i: nat)
    requires i < |es|
    ensures Views(es)[i] == ViewOf(es[i])
  {
  }

  /** The ordered thread: at most `limit` messages, each a stored message with a timestamp, in
      ascending `createdAtMs`; when the conversation holds at most `limit` messages, every
      timestamped one is there. */
  lemma OrderedThreadShape(c: Conversation, limit: nat)
    requires ConvValid(c)
    ensures var r := ThreadOf(c, limit, true);
      |r| <= limit
      && (forall i :: 0 <= i < |r| ==>
            r[i].id in c.msgs && c.msgs[r[i].id].createdAt.Some?
            && r[i] == ViewOf(Entry(r[i].id, c.msgs[r[i].id])) && r[i].ser.createdAtMs.Some?)
      && (forall i, j :: 0 <= i < j < |r| ==> MsKey(r[i]) <= MsKey(r[j]))
      && (|c.msgIds| <= limit ==>
            forall id :: id in c.msgs && c.msgs[id].createdAt.Some? ==> exists i :: 0 <= i < |r| && r[i].id == id)
  {
    var f := OrderedFetch(c, limit);
    var r := ThreadOf(c, limit, true);
    OrderedFetchStored(c, limit);
    OrderedFetchAscending(c, limit);
    if |c.msgIds| <= limit {
      OrderedFetchComplete(c, limit);
      forall id | id in c.msgs && c.msgs[id].createdAt.Some? ensures exists i :: 0 <= i < |r| && r[i].id == id {
        var i :| 0 <= i < |f| && f[i].id == id;
        assert r[i].id == id;
      }
    }
  }

  /** Every entry of the ordered query is a stored, timestamped message. */
  lemma OrderedFetchStored(c: Conversation, limit: nat)
    requires ConvValid(c)
    ensures var f := OrderedFetch(c, limit);
      |f| <= limit
      && forall i :: 0 <= i < |f| ==>
           f[i].id in c.msgs && c.msgs[f[i].id] == f[i].msg && f[i].msg.createdAt.Some?
  {
    var w := Where(Stream(c), Stamped);
    var sorted := SortBy(w, ByCreatedAt());
    var f := OrderedFetch(c, limit);
    SortByMembers(w, ByCreatedAt());
    forall i | 0 <= i < |f|
      ensures f[i].id in c.msgs && c.msgs[f[i].id] == f[i].msg && f[i].msg.createdAt.Some?
    {
      assert f[i] in f;
      TakeMembers(sorted, limit, f[i]);
      WhereMembers(Stream(c), Stamped, f[i]);
      StreamMembers(c, f[i]);
    }
  }

  /** The ordered query yields ascending timestamps, and so ascending milliseconds. */
  lemma OrderedFetchAscending(c: Conversation, limit: nat)
    requires ConvValid(c)
    ensures var r := Views(OrderedFetch(c, limit));
      forall i, j :: 0 <= i < j < |r| ==> MsKey(r[i]) <= MsKey(r[j])
  {
    var w := Where(Stream(c), Stamped);
    var sorted := SortBy(w, ByCreatedAt());
    var f := OrderedFetch(c, limit);
    var r := Views(f);
    assert IsOrdering(ByCreatedAt());
    SortBySorted(w, ByCreatedAt());
    SortByMembers(w, ByCreatedAt());
    forall i, j | 0 <= i < j < |r| ensures MsKey(r[i]) <= MsKey(r[j]) {
      assert f[i] == sorted[i] && f[j] == sorted[j];
      assert f[i] in f && f[j] in f;
      TakeMembers(sorted, limit, f[i]);
      TakeMembers(sorted, limit, f[j]);
      WhereMembers(Stream(c), Stamped, f[i]);
      WhereMembers(Stream(c), Stamped, f[j]);
      MillisMonotone(MicrosOf(f[i]), MicrosOf(f[j]));
    }
  }

  /** With at most `limit` messages, the ordered query misses no timestamped message. */
  lemma OrderedFetchComplete(c: Conversation, limit: nat)
    requires ConvValid(c) && |c.msgIds| <= limit
    ensures var f := OrderedFetch(c, limit);
      forall id :: id in c.msgs && c.msgs[id].createdAt.Some? ==> exists i :: 0 <= i < |f| && f[i].id == id
  {
    var w := Where(Stream(c), Stamped);
    var sorted := SortBy(w, ByCreatedAt());
    var f := OrderedFetch(c, limit);
    SortByMembers(w, ByCreatedAt());
    WhereShorter(Stream(c), Stamped);
    assert f == sorted;
    forall id | id in c.msgs && c.msgs[id].createdAt.Some?
      ensures exists i :: 0 <= i < |f| && f[i].id == id
    {
      var e := Entry(id, c.msgs[id]);
      StreamMembers(c, e);
      WhereMembers(Stream(c), Stamped, e);
      var i :| 0 <= i < |f| && f[i] == e;
    }
  }

  /** The fallback thread: at most `limit` stored messages, sorted by `(createdAtMs or 0, id)`;
      when the conversation holds at most `limit` messages, all of them. */
  lemma FallbackThreadShape(c: Conversation, limit: nat)
    requires ConvValid(c)
    ensures var r := ThreadOf(c, limit, false);
      |r| <= limit
      && (forall i :: 0 <= i < |r| ==> r[i].id in c.msgs && r[i] == ViewOf(Entry(r[i].id, c.msgs[r[i].id])))
      && SortedBy(r, KeyLe)
      && (|c.msgIds| <= limit ==> forall id :: id in c.msgs ==> exists i :: 0 <= i < |r| && r[i].id == id)
  {
    var f := Take(Stream(c), limit);
    var vs := Views(f);
    var r := ThreadOf(c, limit, false);
    assert r == SortBy(vs, KeyLe);
    SortByMembers(vs, KeyLe);
    forall i | 0 <= i < |r|
      ensures r[i].id in c.msgs && r[i] == ViewOf(Entry(r[i].id, c.msgs[r[i].id]))
    {
      assert r[i] in vs;
      var k :| 0 <= k < |vs| && vs[k] == r[i];
      assert f[k] in f;
      TakeMembers(Stream(c), limit, f[k]);
      StreamMembers(c, f[k]);
    }
    KeyLeOrdering();
    SortBySorted(vs, KeyLe);
    if |c.msgIds| <= limit {
      forall id | id in c.msgs ensures exists i :: 0 <= i < |r| && r[i].id == id {
        var e := Entry(id, c.msgs[id]);
        StreamMembers(c, e);
        var k :| 0 <= k < |f| && f[k] == e;
        assert vs[k] in r;
        var i :| 0 <= i < |r| && r[i] == vs[k];
      }
    }
  }

  /** The loop of `get_thread` that turns each streamed document into its reply entry. */
  method CollectViews(snap: seq<Entry>) returns (messages: seq<MessageView>)
    ensures messages == Views(snap)
  {
    messages := [];
    var i := 0;
    while i < |snap|
      invariant 0 <= i <= |snap|
      invariant messages == Views(snap[..i])
    {
      messages := messages + [ViewOf(snap[i])];
      i := i + 1;
    }
    assert snap[..|snap|] == snap;
  }

  /** The reply of `get_thread`. */
  datatype ThreadReply = ThreadReply(conversationId: string, messages: seq<MessageView>)

  /** `get_thread` on the stored conversations (`orderedOk` false when the ordered query
      raises); a negative limit makes the fallback query raise as well. */
  function ThreadResult(convs: map<string, Conversation>, uid: string, other: string, limit: int, orderedOk: bool)
    : (r: Result<ThreadReply, Error>)
    requires forall id :: id in convs ==> ConvValid(convs[id])
    ensures r == Err(Unauthorized) <==> Strip(uid) == []
    ensures r == Err(MissingOther) <==> Strip(uid) != [] && Strip(other) == []
    ensures r == Err(QueryRejected) <==> Strip(uid) != [] && Strip(other) != [] && limit < 0
    ensures r.Ok? ==> r.value.conversationId == ConvIdFor(uid, other)
  {
    var u := Strip(uid);
    var o := Strip(other);
    if u == [] then Err(Unauthorized)
    else if o == [] then Err(MissingOther)
    else if limit < 0 then Err(QueryRejected)
    else
      var cid := ConvIdFor(u, o);
      StripIdempotent(uid);
      StripIdempotent(other);
      var c := if cid in convs then convs[cid] else NoConversation;
      assert ConvValid(c);
      Ok(ThreadReply(cid, ThreadOf(c, limit, orderedOk)))
  }

  // ---------------------------------------------------------------------------
  // Sending
  // ---------------------------------------------------------------------------

  /** A validated message: stripped sender and recipient, cleaned text. */
  datatype Outgoing = Outgoing(from: string, to: string, text: string)

  /** The validation of `send_message`, in the order the source checks. */
  function SendCheck(uid: string, to: string, text: Option<string>): (r: Result<Outgoing, Error>)
    ensures r == Err(Unauthorized) <==> Strip(uid) == []
    ensures r == Err(MissingTo) <==> Strip(uid) != [] && Strip(to) == []
    ensures r == Err(MessageToSelf) <==> Strip(uid) != [] && Strip(to) != [] && Strip(uid) == Strip(to)
    ensures r == Err(EmptyMessage) <==>
      Strip(uid) != [] && Strip(to) != [] && Strip(uid) != Strip(to) && Strip(text.GetOr("")) == []
    ensures r.Ok? ==> r.value.from == Strip(uid) && r.value.to == Strip(to) && r.value.from != r.value.to
    ensures r.Ok? ==> r.value.text == CleanText(text, MaxTextLen) && 0 < |r.value.text| <= MaxTextLen
  {
    var u := Strip(uid);
    var t := Strip(to);
    var body := CleanText(text, MaxTextLen);
    CleanTextBlank(text, MaxTextLen);
    if u == [] then Err(Unauthorized)
    else if t == [] then Err(MissingTo)
    else if u == t then Err(MessageToSelf)
    else if body == [] then Err(EmptyMessage)
    else Ok(Outgoing(u, t, body))
  }

  /** `_ensure_participants`: a merge that sets `participants` to `[a, b]` and keeps the
      messages (creating the conversation when missing). */
  function Joined(c: Option<Conversation>, a: string, b: string): (r: Conversation)
    ensures r.participants == [a, b]
    ensures c.Some? ==> r.msgIds == c.value.msgIds && r.msgs == c.value.msgs
    ensures c.None? ==> r.msgIds == [] && r.msgs == map[]
  {
    match c
    case None => Conversation([a, b], [], map[])
    case Some(old_) => old_.(participants := [a, b])
  }

  /** Writes message `m` under id `id` (replacing a document of the same id). */
  function Posted(c: Conversation, id: string, m: Message): (r: Conversation)
    requires ConvValid(c)
    ensures ConvValid(r) && r.participants == c.participants
    ensures r.msgs == c.msgs[id := m]
  {
    c.(msgIds := Strings.InsertSorted(c.msgIds, id), msgs := c.msgs[id := m])
  }

  /** After a post, the thread stream holds the new message and every other message it held. */
  lemma PostedStream(c: Conversation, id: string, m: Message)
    requires ConvValid(c)
    ensures Entry(id, m) in Stream(Posted(c, id, m))
    ensures forall e :: e in Stream(c) && e.id != id ==> e in Stream(Posted(c, id, m))
    ensures forall e :: e in Stream(Posted(c, id, m)) ==> e == Entry(id, m) || e in Stream(c)
  {
    var p := Posted(c, id, m);
    StreamMembers(p, Entry(id, m));
    forall e | e in Stream(c) && e.id != id ensures e in Stream(p) {
      StreamMembers(c, e);
      StreamMembers(p, e);
    }
    forall e | e in Stream(p) ensures e == Entry(id, m) || e in Stream(c) {
      StreamMembers(p, e);
      StreamMembers(c, e);
    }
  }

  function Lookup(convs: map<string, Conversation>, id: string): (r: Option<Conversation>)
    ensures r.Some? <==> id in convs
    ensures r.Some? ==> r.value == convs[id]
  {
    if id in convs then Some(convs[id]) else None
  }

  /** The reply of a successful `send_message`. */
  datatype Sent = Sent(conversationId: string, messageId: string)

  /** The conversation a validated message goes to, after `send_message` wrote it with id
      `msgId` and server time `now`. */
  function Delivered(convs: map<string, Conversation>, o: Outgoing, msgId: string, now: Timestamp): Conversation
    requires forall id :: id in convs ==> ConvValid(convs[id])
  {
    var cid := ConvIdFor(o.from, o.to);
    var prior := Lookup(convs, cid);
    assert prior.Some? ==> ConvValid(convs[cid]);
    var joined := Joined(prior, o.from, o.to);
    Posted(joined, msgId, Message(Some(o.from), Some(o.to), Some(o.text), Some(now)))
  }

  // ---------------------------------------------------------------------------
  // Partners
  // ---------------------------------------------------------------------------

  /** The participants lists of `cs`, one after another. */
  function Flat(cs: seq<Conversation>): seq<string> {
    if cs == [] then [] else Flat(cs[..|cs| - 1]) + cs[|cs| - 1].participants
  }

  lemma {:induction false} FlatMembers(cs: seq<Conversation>, p: string)
    ensures p in Flat(cs) <==> exists k :: 0 <= k < |cs| && p in cs[k].participants
    decreases |cs|
  {
    if cs != [] {
      var n := |cs| - 1;
      var init := cs[..n];
      FlatMembers(init, p);
      assert Flat(cs) == Flat(init) + cs[n].participants;
      if p in Flat(init) {
        var k :| 0 <= k < |init| && p in init[k].participants;
        assert cs[k] == init[k];
      } else if p !in cs[n].participants {
        forall k | 0 <= k < |cs| ensures p !in cs[k].participants {
          if k < n {
            assert cs[k] == init[k];
          }
        }
      }
    }
  }

  lemma FlatSnoc(cs: seq<Conversation>, i: nat)
    requires i < |cs|
    ensures Flat(cs[..i + 1]) == Flat(cs[..i]) + cs[i].participants
  {
    assert cs[..i + 1][..i] == cs[..i];
  }

  function NotUid(uid: string): string -> bool {
    (p: string) => p != uid
  }

  /** The partners of `uid` in the conversations `cs`: every other participant, once, in the
      order first met. */
  function PartnersOf(cs: seq<Conversation>, uid: string): seq<string> {
    Dedup(Where(Flat(cs), NotUid(uid)))
  }

  /** The partners list has no duplicates, never holds `uid`, holds every other participant of
      the conversations, and lists them in the order they are first met. */
  lemma PartnersShape(cs: seq<Conversation>, uid: string)
    ensures var r := PartnersOf(cs, uid);
      NoDup(r) && uid !in r
      && (forall p :: p in r <==> p != uid && exists k :: 0 <= k < |cs| && p in cs[k].participants)
      && InFirstSeenOrder(r, Where(Flat(cs), NotUid(uid)))
  {
    var w := Where(Flat(cs), NotUid(uid));
    DedupElements(w);
    DedupFirstSeenOrder(w);
    forall p ensures p in PartnersOf(cs, uid) <==> p != uid && exists k :: 0 <= k < |cs| && p in cs[k].participants {
      WhereMembers(Flat(cs), NotUid(uid), p);
      FlatMembers(cs, p);
    }
  }

  /** One step of the inner loop of `list_partners`. */
  lemma PartnersStep(seen: seq<string>, p: string, uid: string)
    ensures Dedup(Where(seen + [p], NotUid(uid))) ==
      var d := Dedup(Where(seen, NotUid(uid)));
      if p != uid && p !in d then d + [p] else d
  {
    var w := Where(seen, NotUid(uid));
    WhereAppend(seen, [p], NotUid(uid));
    assert Where([p], NotUid(uid)) == (if p != uid then [p] else []) + Where([p][1..], NotUid(uid));
    if p != uid {
      assert (w + [p])[..|w + [p]| - 1] == w;
    } else {
      assert w + [] == w;
    }
  }

  /** The nested loop of `list_partners`: every participant other than `uid`, appended when
      not yet listed. */
  method Gather(cs: seq<Conversation>, uid: string) returns (partners: seq<string>)
    ensures partners == PartnersOf(cs, uid)
  {
    partners := [];
    var i := 0;
    while i < |cs|
      invariant 0 <= i <= |cs|
      invariant partners == Dedup(Where(Flat(cs[..i]), NotUid(uid)))
    {
      partners := GatherFrom(cs[i].participants, uid, Flat(cs[..i]), partners);
      FlatSnoc(cs, i);
      i := i + 1;
    }
    assert cs[..|cs|] == cs;
  }

  /** The inner loop of `list_partners` over one conversation's participants, after the
      participants `seen` of the earlier conversations. */
  method GatherFrom(parts: seq<string>, uid: string, ghost seen: seq<string>, partners: seq<string>)
    returns (partners': seq<string>)
    requires partners == Dedup(Where(seen, NotUid(uid)))
    ensures partners' == Dedup(Where(seen + parts, NotUid(uid)))
  {
    partners' := partners;
    var j := 0;
    assert seen + parts[..0] == seen;
    while j < |parts|
      invariant 0 <= j <= |parts|
      invariant partners' == Dedup(Where(seen + parts[..j], NotUid(uid)))
    {
      var p := parts[j];
      PartnersStep(seen + parts[..j], p, uid);
      if p != uid && p !in partners' {
        partners' := partners' + [p];
      }
      assert seen + parts[..j + 1] == (seen + parts[..j]) + [p];
      j := j + 1;
    }
    assert parts[..|parts|] == parts;
  }

  /** A conversation `uid` takes part in (`array_contains` on `participants`). */
  function HasParticipant(uid: string): Conversation -> bool {
    (c: Conversation) => uid in c.participants
  }

  /** The stored conversations in ascending id order. */
  function StoreStream(ids: seq<string>, convs: map<string, Conversation>): (r: seq<Conversation>)
    requires forall id :: id in ids ==> id in convs
    ensures |r| == |ids|
  {
    seq(|ids|, i requires 0 <= i < |ids| => convs[ids[i]])
  }

  /** `list_partners`: the partners over the first `maxConversations` conversations that hold
      the stripped `uid`. */
  function PartnersResult(ids: seq<string>, convs: map<string, Conversation>, uid: string, maxConversations: int)
    : (r: Result<seq<string>, Error>)
    requires forall id :: id in ids ==> id in convs
    ensures r == Err(Unauthorized) <==> Strip(uid) == []
    ensures r == Err(QueryRejected) <==> Strip(uid) != [] && maxConversations < 0
  {
    var u := Strip(uid);
    if u == [] then Err(Unauthorized)
    else if maxConversations < 0 then Err(QueryRejected)
    else Ok(PartnersOf(Take(Where(StoreStream(ids, convs), HasParticipant(u)), maxConversations), u))
  }

  /** Every partner shares a stored conversation with `uid`. */
  lemma PartnersShareConversation(ids: seq<string>, convs: map<string, Conversation>, uid: string, maxConversations: int, p: string)
    requires forall id :: id in ids ==> id in convs
    requires PartnersResult(ids, convs, uid, maxConversations).Ok?
    requires p in PartnersResult(ids, convs, uid, maxConversations).value
    ensures p != Strip(uid)
    ensures exists id :: id in convs && Strip(uid) in convs[id].participants && p in convs[id].participants
  {
    var u := Strip(uid);
    var all := StoreStream(ids, convs);
    var cs := Take(Where(all, HasParticipant(u)), maxConversations);
    PartnersShape(cs, u);
    var k :| 0 <= k < |cs| && p in cs[k].participants;
    assert cs[k] in cs;
    TakeMembers(Where(all, HasParticipant(u)), maxConversations, cs[k]);
    WhereMembers(all, HasParticipant(u), cs[k]);
    var i :| 0 <= i < |all| && all[i] == cs[k];
    assert convs[ids[i]] == cs[k];
  }

  // ---------------------------------------------------------------------------
  // Seeding
  // ---------------------------------------------------------------------------

  /** The validation of `seed_demo`: stripped requester, `a` and `b`. */
  function SeedCheck(requester: string, a: string, b: string): (r: Result<(string, string), Error>)
    ensures r == Err(Unauthorized) <==> Strip(requester) == []
    ensures r == Err(NeedTwoUids) <==> Strip(requester) != [] && (Strip(a) == [] || Strip(b) == [] || Strip(a) == Strip(b))
    ensures r.Ok? ==> r.value == (Strip(a), Strip(b)) && r.value.0 != [] && r.value.1 != [] && r.value.0 != r.value.1
  {
    var req := Strip(requester);
    var x := Strip(a);
    var y := Strip(b);
    if req == [] then Err(Unauthorized)
    else if x == [] || y == [] || x == y then Err(NeedTwoUids)
    else Ok((x, y))
  }

  /** The three demo messages, all stamped with the batch's commit time `now`. */
  function DemoMessages(a: string, b: string, now: Timestamp): (r: seq<Message>)
    ensures |r| == 3
  {
    [ Message(Some(a), Some(b), Some("Hey there!"), Some(now)),
      Message(Some(b), Some(a), Some("Yo! All good?"), Some(now)),
      Message(Some(a), Some(b),
              Some("Building the messenger \U{F8FF}\U{FC}\U{EB}\U{AE}\U{201A}\U{C4}\U{E7}\U{F8FF}\U{FC}\U{ED}\U{AA}"),
              Some(now)) ]
  }

  /** Writes the messages `ms` under the ids `ids`, one after the other. */
  function PostAll(c: Conversation, ids: seq<string>, ms: seq<Message>): (r: Conversation)
    requires ConvValid(c) && |ids| == |ms|
    ensures ConvValid(r) && r.participants == c.participants
  {
    if ids == [] then c
    else Posted(PostAll(c, ids[..|ids| - 1], ms[..|ms| - 1]), ids[|ids| - 1], ms[|ms| - 1])
  }

  /** The messages a batch of writes leaves: each id in turn mapped to its message. */
  function PutAll(msgs: map<string, Message>, ids: seq<string>, ms: seq<Message>): map<string, Message>
    requires |ids| == |ms|
  {
    if ids == [] then msgs
    else PutAll(msgs, ids[..|ids| - 1], ms[..|ms| - 1])[ids[|ids| - 1] := ms[|ms| - 1]]
  }

  lemma {:induction false} PostAllMsgs(c: Conversation, ids: seq<string>, ms: seq<Message>)
    requires ConvValid(c) && |ids| == |ms|
    ensures PostAll(c, ids, ms).msgs == PutAll(c.msgs, ids, ms)
    decreases |ids|
  {
    if ids != [] {
      PostAllMsgs(c, ids[..|ids| - 1], ms[..|ms| - 1]);
    }
  }

  lemma {:induction false} PutAllStores(msgs: map<string, Message>, ids: seq<string>, ms: seq<Message>)
    requires |ids| == |ms| && NoDup(ids)
    ensures forall k :: 0 <= k < |ids| ==> ids[k] in PutAll(msgs, ids, ms) && PutAll(msgs, ids, ms)[ids[k]] == ms[k]
    ensures forall id :: id in msgs && id !in ids ==> id in PutAll(msgs, ids, ms) && PutAll(msgs, ids, ms)[id] == msgs[id]
    ensures forall id :: id in PutAll(msgs, ids, ms) ==> id in msgs || id in ids
    decreases |ids|
  {
    if ids != [] {
      var n := |ids| - 1;
      var p := PutAll(msgs, ids[..n], ms[..n]);
      var r := PutAll(msgs, ids, ms);
      assert r == p[ids[n] := ms[n]];
      PutAllStores(msgs, ids[..n], ms[..n]);
      forall k | 0 <= k < |ids| ensures ids[k] in r && r[ids[k]] == ms[k] {
        if k < n {
          assert ids[..n][k] == ids[k] && ms[..n][k] == ms[k];
        }
      }
      forall id | id in msgs && id !in ids ensures id in r && r[id] == msgs[id] {
        assert id !in ids[..n];
      }
      forall id | id in r ensures id in msgs || id in ids {
        if id != ids[n] {
          assert id in p;
          assert id in ids[..n] ==> id in ids;
        }
      }
    }
  }

  /** With distinct ids, every written message is stored under its id and every other message
      is untouched. */
  lemma PostAllStores(c: Conversation, ids: seq<string>, ms: seq<Message>)
    requires ConvValid(c) && |ids| == |ms| && NoDup(ids)
    ensures forall k :: 0 <= k < |ids| ==> ids[k] in PostAll(c, ids, ms).msgs && PostAll(c, ids, ms).msgs[ids[k]] == ms[k]
    ensures forall id :: id in c.msgs && id !in ids ==> id in PostAll(c, ids, ms).msgs && PostAll(c, ids, ms).msgs[id] == c.msgs[id]
    ensures forall id :: id in PostAll(c, ids, ms).msgs ==> id in c.msgs || id in ids
  {
    PostAllMsgs(c, ids, ms);
    PutAllStores(c.msgs, ids, ms);
  }


  /** The batch of `seed_demo`: each message set under its id, in order. */
  method CommitBatch(c: Conversation, ids: seq<string>, ms: seq<Message>) returns (r: Conversation)
    requires ConvValid(c) && |ids| == |ms|
    ensures r == PostAll(c, ids, ms)
  {
    r := c;
    var k := 0;
    while k < |ms|
      invariant 0 <= k <= |ms|
      invariant ConvValid(r) && r == PostAll(c, ids[..k], ms[..k])
    {
      assert ids[..k + 1][..k] == ids[..k] && ms[..k + 1][..k] == ms[..k];
      r := Posted(r, ids[k], ms[k]);
      k := k + 1;
    }
    assert ids[..k] == ids && ms[..k] == ms;
  }

  /** With distinct ids, the seeded conversation has participants `[a, b]` and holds the three
      demo messages under their ids, next to the messages it held before. */
  lemma SeededConversation(prior: Option<Conversation>, a: string, b: string, ids: seq<string>, now: Timestamp)
    requires prior.Some? ==> ConvValid(prior.value)
    requires |ids| == 3 && NoDup(ids)
    ensures var c := PostAll(Joined(prior, a, b), ids, DemoMessages(a, b, now));
      c.participants == [a, b]
      && (forall k :: 0 <= k < 3 ==> ids[k] in c.msgs && c.msgs[ids[k]] == DemoMessages(a, b, now)[k])
      && (prior.Some? ==> forall id :: id in prior.value.msgs && id !in ids ==> id in c.msgs)
  {
    PostAllStores(Joined(prior, a, b), ids, DemoMessages(a, b, now));
  }

  /** The reply of a successful `seed_demo`. */
  datatype Seeded = Seeded(conversationId: string, seeded: nat)

  // ---------------------------------------------------------------------------
  // The store
  // ---------------------------------------------------------------------------

  /** The `conversations` collection, with its ids kept in ascending order. */
  class MessageStore {
    var convs: map<string, Conversation>
    var convIds: seq<string>

    ghost predicate Valid()
      reads this
    {
      StrictlySorted(convIds)
      && (forall id :: id in convs <==> id in convIds)
      && forall id :: id in convs ==> ConvValid(convs[id])
    }

    constructor ()
      ensures Valid() && convs == map[] && convIds == []
    {
      convs := map[];
      convIds := [];
    }

    /** Writes conversation `cid` (a Firestore `set`). */
    method Put(cid: string, c: Conversation)
      requires Valid() && ConvValid(c)
      modifies this
      ensures Valid()
      ensures convs == old(convs)[cid := c] && convIds == Strings.InsertSorted(old(convIds), cid)
    {
      convs := convs[cid := c];
      convIds := Strings.InsertSorted(convIds, cid);
    }

    /** `send_message`, with the auto-generated message id `msgId` and the server time `now`
        as parameters: nothing is written when validation fails. */
    method SendMessage(uid: string, to: string, text: Option<string>, msgId: string, now: Timestamp)
      returns (r: Result<Sent, Error>)
      requires Valid()
      modifies this
      ensures Valid()
      ensures r.Err? <==> SendCheck(uid, to, text).Err?
      ensures r.Err? ==> r.error == SendCheck(uid, to, text).error && convs == old(convs) && convIds == old(convIds)
      ensures r.Ok? ==>
        var o := SendCheck(uid, to, text).value;
        var cid := ConvIdFor(o.from, o.to);
        r.value == Sent(cid, msgId)
        && convs == old(convs)[cid := Delivered(old(convs), o, msgId, now)]
        && convIds == Strings.InsertSorted(old(convIds), cid)
    {
      var check := SendCheck(uid, to, text);
      if check.Err? {
        return Err(check.error);
      }
      var o := check.value;
      var cid := ConvIdFor(o.from, o.to);
      var joined := Joined(Lookup(convs, cid), o.from, o.to);
      var c := Posted(joined, msgId, Message(Some(o.from), Some(o.to), Some(o.text), Some(now)));
      Put(cid, c);
      r := Ok(Sent(cid, msgId));
    }

    /** `get_thread`, with `orderedOk` false when the ordered query raises. */
    method GetThread(uid: string, other: string, limit: int, orderedOk: bool) returns (r: Result<ThreadReply, Error>)
      requires Valid()
      ensures r == ThreadResult(convs, uid, other, limit, orderedOk)
    {
      var u := Strip(uid);
      var o := Strip(other);
      if u == [] {
        return Err(Unauthorized);
      }
      if o == [] {
        return Err(MissingOther);
      }
      if limit < 0 {
        return Err(QueryRejected);
      }
      var cid := ConvIdFor(u, o);
      var c := if cid in convs then convs[cid] else NoConversation;
      var messages;
      if orderedOk {
        messages := CollectViews(OrderedFetch(c, limit));
      } else {
        var tmp := CollectViews(Take(Stream(c), limit));
        messages := SortBy(tmp, KeyLe);
      }
      r := Ok(ThreadReply(cid, messages));
    }

    /** `list_partners`: the nested loop over the matching conversations and their
        participants. */
    method ListPartners(uid: string, maxConversations: int) returns (r: Result<seq<string>, Error>)
      requires Valid()
      ensures r == PartnersResult(convIds, convs, uid, maxConversations)
    {
      var u := Strip(uid);
      if u == [] {
        return Err(Unauthorized);
      }
      if maxConversations < 0 {
        return Err(QueryRejected);
      }
      var cs := Take(Where(StoreStream(convIds, convs), HasParticipant(u)), maxConversations);
      var partners := Gather(cs, u);
      r := Ok(partners);
    }

    /** `seed_demo`, with the three auto-generated ids and the batch's commit time as
        parameters: three messages are written in one batch. */
    method SeedDemo(requester: string, a: string, b: string, ids: seq<string>, now: Timestamp)
      returns (r: Result<Seeded, Error>)
      requires Valid() && |ids| == 3
      modifies this
      ensures Valid()
      ensures r.Err? <==> SeedCheck(requester, a, b).Err?
      ensures r.Err? ==> r.error == SeedCheck(requester, a, b).error && convs == old(convs) && convIds == old(convIds)
      ensures r.Ok? ==>
        var (x, y) := SeedCheck(requester, a, b).value;
        var cid := ConvIdFor(x, y);
        r.value == Seeded(cid, 3)
        && convs == old(convs)[cid := PostAll(Joined(Lookup(old(convs), cid), x, y), ids, DemoMessages(x, y, now))]
        && convIds == Strings.InsertSorted(old(convIds), cid)
    {
      var check := SeedCheck(requester, a, b);
      if check.Err? {
        return Err(check.error);
      }
      var (x, y) := check.value;
      var cid := ConvIdFor(x, y);
      var c := Joined(Lookup(convs, cid), x, y);
      var msgs := DemoMessages(x, y, now);
      c := CommitBatch(c, ids, msgs);
      Put(cid, c);
      r := Ok(Seeded(cid, |msgs|));
    }
  }
}
