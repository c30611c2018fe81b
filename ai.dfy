/** The reply-suggestion helpers of backend/ai.py: the per-user rate limiter, the newest-first
    fetch of a conversation's last messages and the prompt that renders them. The Gemini call
    itself is not part of this model. */
module Assistant {
  import opened Wrappers
  import opened Strings
  import opened Sorting
  import Messager

  // ---------------------------------------------------------------------------
  // Conversation id
  // ---------------------------------------------------------------------------

  /** `_conv_id_for`: the two ids as given (not stripped), sorted, joined by `__`. */
  function ConvIdFor(a: string, b: string): (r: string)
    ensures r == a + "__" + b || r == b + "__" + a
  {
    if LessEq(a, b) then a + "__" + b else b + "__" + a
  }

  lemma ConvIdSymmetric(a: string, b: string)
    ensures ConvIdFor(a, b) == ConvIdFor(b, a)
  {
    LessTotal(a, b);
    if Less(a, b) {
      LessAsymmetric(a, b);
    }
  }

  /** On ids without surrounding whitespace the assistant reads the conversation the messenger
      writes. */
  lemma ConvIdAgrees(a: string, b: string)
    requires Strip(a) == a && Strip(b) == b
    ensures ConvIdFor(a, b) == Messager.ConvIdFor(a, b)
  {
    Messager.ConvIdSorted(a, b);
    LessTotal(a, b);
    if Less(a, b) {
      LessAsymmetric(a, b);
    }
  }

  // ---------------------------------------------------------------------------
  // Rate limit
  // ---------------------------------------------------------------------------

  /** `MIN_SECONDS_BETWEEN_CALLS`, in milliseconds. */
  const MinMillisBetweenCalls := 800

  /** The last accepted call of `uid`, 0 when there was none. */
  function LastCall(last: map<string, int>, uid: string): int {
    if uid in last then last[uid] else 0
  }

  /** `_rate_limit` at time `now` (milliseconds): `None` when the call is refused, otherwise
      the map with `uid`'s last call moved to `now`. */
  function Admit(last: map<string, int>, uid: string, now: int): (r: Option<map<string, int>>)
    ensures r.None? <==> now - LastCall(last, uid) < MinMillisBetweenCalls
    ensures r.Some? ==> r.value.Keys == last.Keys + {uid} && LastCall(r.value, uid) == now
    ensures r.Some? ==> forall u :: u != uid ==> LastCall(r.value, u) == LastCall(last, u)
  {
    if now - LastCall(last, uid) < MinMillisBetweenCalls then None else Some(last[uid := now])
  }

  /** After an accepted call, the same user is refused for the next 800 ms, while other users
      are judged as before. */
  lemma AdmitSpacing(last: map<string, int>, uid: string, t1: int, u: string, t2: int)
    requires Admit(last, uid, t1).Some?
    ensures u == uid && t2 - t1 < MinMillisBetweenCalls ==> Admit(Admit(last, uid, t1).value, u, t2).None?
    ensures u != uid ==> (Admit(Admit(last, uid, t1).value, u, t2).None? <==> Admit(last, u, t2).None?)
  {
  }

  /** The module-level `_last_call_at` dictionary and the function that consults it. */
  class RateLimiter {
    var lastCallAt: map<string, int>

    constructor ()
      ensures lastCallAt == map[]
    {
      lastCallAt := map[];
    }

    /** `_rate_limit(uid)` at time `now`: `false` where the source raises. */
    method RateLimit(uid: string, now: int) returns (accepted: bool)
      modifies this
      ensures accepted <==> Admit(old(lastCallAt), uid, now).Some?
      ensures accepted ==> lastCallAt == Admit(old(lastCallAt), uid, now).value
      ensures !accepted ==> lastCallAt == old(lastCallAt)
    {
      var last := if uid in lastCallAt then lastCallAt[uid] else 0;
      if now - last < MinMillisBetweenCalls {
        return false;
      }
      lastCallAt := lastCallAt[uid := now];
      accepted := true;
    }
  }

  // ---------------------------------------------------------------------------
  // Timestamps
  // ---------------------------------------------------------------------------

  /** A `createdAt` value: a Firestore timestamp, an integer, or anything else (missing,
      a string, ...). */
  datatype CreatedAt = Stamp(t: Messager.Timestamp) | Number(n: int) | Other

  /** Numbers from here on are taken to be milliseconds already. */
  const MillisThreshold := 1_000_000_000_000

  /** `_to_epoch_ms`. */
  function ToEpochMs(v: CreatedAt): (ms: int)
    ensures v.Number? && v.n >= MillisThreshold ==> ms == v.n
    ensures v.Number? && v.n < MillisThreshold ==> ms == v.n * 1000
    ensures v.Other? ==> ms == 0
  {
    match v
    case Stamp(t) => Messager.MillisOf(t.micros)
    case Number(n) => if n >= MillisThreshold then n else n * 1000
    case Other => 0
  }

  /** An instant after September 2001 gives the same milliseconds whether it is stored in
      seconds or in milliseconds. */
  lemma SecondsAndMillisAgree(s: int)
    requires 1_000_000_000 <= s < MillisThreshold
    ensures ToEpochMs(Number(s)) == ToEpochMs(Number(s * 1000)) == s * 1000
  {
  }

  /** A timestamp gives the `createdAtMs` the messenger serialises it with. */
  lemma StampAgreesWithThread(t: Messager.Timestamp)
    ensures ToEpochMs(Stamp(t)) == Messager.SerializeTs(Some(t)).createdAtMs.value
  {
  }

  // ---------------------------------------------------------------------------
  // Fetching the last messages
  // ---------------------------------------------------------------------------

  /** A `messages/<id>` document as `_fetch_last_messages` reads it. */
  datatype MsgDoc = MsgDoc(
    id: string,
    from: Option<string>,
    to: Option<string>,
    text: Option<string>,
    createdAt: CreatedAt,
    createdAtMs: Option<int>)

  /** `Msg`; a missing `from`, `to` or `text` reads as "". */
  datatype Msg = Msg(id: string, fromUid: string, toUid: string, text: string, createdAt: CreatedAt)

  function MsgOf(d: MsgDoc): Msg {
    Msg(d.id, d.from.GetOr(""), d.to.GetOr(""), d.text.GetOr(""), d.createdAt)
  }

  function Msgs(ds: seq<MsgDoc>): (ms: seq<Msg>)
    ensures |ms| == |ds|
  {
    seq(|ds|, i requires 0 <= i < |ds| => MsgOf(ds[i]))
  }

  /** `xs` back to front (`reversed`). */
  function Reverse<T>(xs: seq<T>): (r: seq<T>)
    ensures |r| == |xs|
  {
    seq(|xs|, i requires 0 <= i < |xs| => xs[|xs| - 1 - i])
  }

  predicate IsStamped(d: MsgDoc) { d.createdAt.Stamp? }

  function Micros(d: MsgDoc): int {
    if d.createdAt.Stamp? then d.createdAt.t.micros else 0
  }

  /** `order_by("createdAt", DESCENDING)`; equal times follow the descending id order. */
  predicate LaterOrSame(a: MsgDoc, b: MsgDoc) { Micros(a) >= Micros(b) }

  /** The fallback sort key: `_to_epoch_ms(createdAt) or int(createdAtMs or 0)`. */
  function SortKey(d: MsgDoc): int {
    var ms := ToEpochMs(d.createdAt);
    if ms != 0 then ms else d.createdAtMs.GetOr(0)
  }

  /** `sort(key=SortKey, reverse=True)`, which keeps equal keys in their original order. */
  predicate NewerOrSame(a: MsgDoc, b: MsgDoc) { SortKey(a) >= SortKey(b) }

  /** The ordered query over a conversation's documents (`stream`, ascending ids): the
      timestamped documents, newest first, at most `limit` of them. */
  function OrderedDocs(stream: seq<MsgDoc>, limit: nat): seq<MsgDoc> {
    Take(SortBy(Where(Reverse(stream), IsStamped), LaterOrSame), limit)
  }

  /** The fallback: the first `limit` documents, sorted newest first by `SortKey`. */
  function FallbackDocs(stream: seq<MsgDoc>, limit: nat): seq<MsgDoc> {
    SortBy(Take(stream, limit), NewerOrSame)
  }

  /** `_fetch_last_messages` (`orderedOk` false when the ordered query raises). */
  function LastMessages(stream: seq<MsgDoc>, limit: nat, orderedOk: bool): seq<Msg> {
    Msgs(if orderedOk then OrderedDocs(stream, limit) else FallbackDocs(stream, limit))
  }

  lemma TakeSorted<T>(xs: seq<T>, n: nat, le: (T, T) -> bool)
    requires SortedBy(xs, le)
    ensures SortedBy(Take(xs, n), le)
  {
    var r := Take(xs, n);
    forall i, j | 0 <= i < j < |r| ensures le(r[i], r[j]) {
      assert r[i] == xs[i] && r[j] == xs[j];
    }
  }

  lemma ReverseMembers<T>(xs: seq<T>, x: T)
    ensures x in Reverse(xs) <==> x in xs
  {
    var r := Reverse(xs);
    if x in xs {
      var k :| 0 <= k < |xs| && xs[k] == x;
      assert r[|xs| - 1 - k] == x;
    }
  }

  /** The ordered path: at most `limit` documents of the conversation, all timestamped, newest
      first; when the conversation holds at most `limit` documents, every timestamped one. */
  lemma OrderedDocsShape(stream: seq<MsgDoc>, limit: nat)
    ensures var r := OrderedDocs(stream, limit);
      |r| <= limit
      && (forall d :: d in r ==> d in stream && IsStamped(d))
      && (forall i, j :: 0 <= i < j < |r| ==> Micros(r[i]) >= Micros(r[j]))
      && (|stream| <= limit ==> forall d :: d in stream && IsStamped(d) ==> d in r)
  {
    var w := Where(Reverse(stream), IsStamped);
    var s := SortBy(w, LaterOrSame);
    var r := OrderedDocs(stream, limit);
    SortByMembers(w, LaterOrSame);
    forall d ensures d in s <==> d in Reverse(stream) && IsStamped(d) {
      WhereMembers(Reverse(stream), IsStamped, d);
    }
    forall d | d in r ensures d in stream && IsStamped(d) {
      Messager.TakeMembers(s, limit, d);
      ReverseMembers(stream, d);
    }
    assert IsOrdering(LaterOrSame);
    SortBySorted(w, LaterOrSame);
    TakeSorted(s, limit, LaterOrSame);
    if |stream| <= limit {
      WhereShorter(Reverse(stream), IsStamped);
      forall d | d in stream && IsStamped(d) ensures d in r {
        ReverseMembers(stream, d);
      }
    }
  }

  /** The fallback path: the first `limit` documents, newest first by `SortKey`. */
  lemma FallbackDocsShape(stream: seq<MsgDoc>, limit: nat)
    ensures var r := FallbackDocs(stream, limit);
      |r| <= limit && multiset(r) == multiset(Take(stream, limit))
      && forall i, j :: 0 <= i < j < |r| ==> SortKey(r[i]) >= SortKey(r[j])
  {
    assert IsOrdering(NewerOrSame);
    SortBySorted(Take(stream, limit), NewerOrSame);
  }

  /** `_fetch_last_messages` on the conversation's documents: the query result (or the sorted
      fallback), each turned into a `Msg` by the loop. */
  method FetchLastMessages(stream: seq<MsgDoc>, limit: nat, orderedOk: bool) returns (msgs: seq<Msg>)
    ensures msgs == LastMessages(stream, limit, orderedOk)
  {
    var docs: seq<MsgDoc>;
    if orderedOk {
      docs := OrderedDocs(stream, limit);
    } else {
      docs := Take(stream, limit);
      docs := SortBy(docs, NewerOrSame);
    }
    msgs := [];
    var i := 0;
    while i < |docs|
      invariant 0 <= i <= |docs|
      invariant msgs == Msgs(docs[..i])
    {
      msgs := msgs + [MsgOf(docs[i])];
      i := i + 1;
    }
    assert docs[..|docs|] == docs;
  }

  // ---------------------------------------------------------------------------
  // The prompt
  // ---------------------------------------------------------------------------

  /** A message that contributes a line: its stripped text is not empty. */
  predicate Speaks(m: Msg) { Strip(m.text) != [] }

  function Role(m: Msg, me: string): string {
    if m.fromUid == me then "ME" else "THEM"
  }

  /** `f"{role}: {t}"`. */
  function Line(m: Msg, me: string): string {
    Role(m, me) + ": " + Strip(m.text)
  }

  /** The lines the loop of `_build_prompt` appends over the oldest-first `ordered`. */
  function HistoryLines(ordered: seq<Msg>, me: string): seq<string> {
    if ordered == [] then []
    else
      var init := HistoryLines(ordered[..|ordered| - 1], me);
      var m := ordered[|ordered| - 1];
      if Speaks(m) then init + [Line(m, me)] else init
  }

  const NoPriorMessages := "(No prior messages)"

  /** The history block: the lines joined by newlines, or the placeholder when there are none. */
  function History(messages: seq<Msg>, me: string): string {
    var lines := HistoryLines(Reverse(messages), me);
    if lines == [] then NoPriorMessages else Join("\n", lines)
  }

  const PromptHead :=
    "You are assisting a user in a chat. Read the last few messages and craft the NEXT single reply the user (ME) should send.\n"
    + "\n"
    + "Goals:\n"
    + "- Mirror the existing tone but keep it professional, clear, and friendly.\n"
    + "- Be concise (1\U{2013}3 sentences). No greetings unless context calls for it.\n"
    + "- If there's a question to answer, answer directly. If next step is needed, propose one.\n"
    + "- Avoid emojis unless prior tone clearly uses them.\n"
    + "- Output only the reply text, with no quotes or role tags.\n"
    + "\n"
    + "Conversation (oldest \U{2192} newest):\n"

  const PromptTail := "\n\nReturn ONLY the reply text for ME to send next.\n"

  function Prompt(history: string): string {
    PromptHead + history + PromptTail
  }

  /** The lines are, in order, one per speaking message of `ordered`. */
  lemma {:induction false} HistoryLinesShape(ordered: seq<Msg>, me: string)
    ensures var lines := HistoryLines(ordered, me);
      var spoken := Where(ordered, Speaks);
      |lines| == |spoken| && forall i :: 0 <= i < |lines| ==> lines[i] == Line(spoken[i], me)
    decreases |ordered|
  {
    if ordered != [] {
      var init := ordered[..|ordered| - 1];
      var m := ordered[|ordered| - 1];
      HistoryLinesShape(init, me);
      assert ordered == init + [m];
      WhereAppend(init, [m], Speaks);
      assert Where([m], Speaks) == (if Speaks(m) then [m] else []) + Where([m][1..], Speaks);
    }
  }

  /** A line is labelled `ME` exactly when the message is from `me`. */
  lemma LineRole(m: Msg, me: string)
    ensures StartsWith(Line(m, me), "ME: ") <==> m.fromUid == me
    ensures StartsWith(Line(m, me), "THEM: ") <==> m.fromUid != me
  {
    var l := Line(m, me);
    assert l[0] == (if m.fromUid == me then 'M' else 'T');
    if m.fromUid == me {
      assert l[..4] == "ME: ";
    } else {
      assert l[..6] == "THEM: ";
    }
  }

  lemma JoinStartsWith(sep: string, parts: seq<string>)
    requires parts != []
    ensures |parts[0]| <= |Join(sep, parts)| && Join(sep, parts)[..|parts[0]|] == parts[0]
  {
  }

  /** The placeholder appears exactly when no message has a non-blank text. */
  lemma NoPriorMessagesIff(messages: seq<Msg>, me: string)
    ensures History(messages, me) == NoPriorMessages <==> forall m :: m in messages ==> !Speaks(m)
  {
    var ordered := Reverse(messages);
    var lines := HistoryLines(ordered, me);
    var spoken := Where(ordered, Speaks);
    HistoryLinesShape(ordered, me);
    forall m ensures m in spoken <==> m in messages && Speaks(m) {
      WhereMembers(ordered, Speaks, m);
      ReverseMembers(messages, m);
    }
    if lines != [] {
      var h := Join("\n", lines);
      JoinStartsWith("\n", lines);
      assert lines[0] == Line(spoken[0], me);
      assert h[0] == lines[0][0];
      assert lines[0][0] == 'M' || lines[0][0] == 'T';
      assert spoken[0] in spoken;
    }
  }

  /** `_build_prompt`: the history rendered oldest first by a loop over the reversed messages,
      placed inside the fixed instructions. */
  method BuildPrompt(messages: seq<Msg>, me: string) returns (prompt: string)
    ensures prompt == Prompt(History(messages, me))
  {
    var ordered := Reverse(messages);
    var lines: seq<string> := [];
    var i := 0;
    while i < |ordered|
      invariant 0 <= i <= |ordered|
      invariant lines == HistoryLines(ordered[..i], me)
    {
      var m := ordered[i];
      assert ordered[..i + 1][..i] == ordered[..i];
      var t := Strip(m.text);
      if t != [] {
        lines := lines + [Role(m, me) + ": " + t];
      }
      i := i + 1;
    }
    assert ordered[..|ordered|] == ordered;
    var history := if lines != [] then Join("\n", lines) else NoPriorMessages;
    prompt := PromptHead + history + PromptTail;
  }
}
