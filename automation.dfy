/** The outreach-automation helpers of backend/automation.py: bearer-token extraction, e-mail
    screening, the rule-based reply analysis and the pure parts of scheduling a Google Meet
    event (its length, its attendees, and the choice of the meeting link). */
module Automation {
  import opened Wrappers
  import opened Strings

  // ---------------------------------------------------------------------------
  // Authorization header
  // ---------------------------------------------------------------------------

  const BearerPrefix := "Bearer "

  /** `_bearer_token`: the stripped remainder of a header that starts with `"Bearer "`. */
  function BearerToken(hdr: string): (r: Option<string>)
    ensures r.Some? <==> StartsWith(hdr, BearerPrefix)
    ensures r.Some? ==> r.value == Strip(hdr[|BearerPrefix|..])
  {
    if StartsWith(hdr, BearerPrefix) then Some(Strip(hdr[|BearerPrefix|..])) else None
  }

  /** A stripped token survives being put into a header and read back. */
  lemma BearerRoundTrip(token: string)
    requires Strip(token) == token
    ensures BearerToken(BearerPrefix + token) == Some(token)
  {
    assert (BearerPrefix + token)[|BearerPrefix|..] == token;
  }

  datatype AuthError = MissingToken | InvalidToken(reason: string)

  /** `_require_user`, with the token verification as the parameter `verify`. */
  function RequireUser<C>(hdr: string, verify: string -> Result<C, string>): (r: Result<C, AuthError>)
    ensures r == Err(MissingToken) <==> BearerToken(hdr).None? || BearerToken(hdr).value == []
    ensures r.Ok? ==> BearerToken(hdr).Some? && verify(BearerToken(hdr).value) == Ok(r.value)
    ensures r.Err? && r.error.InvalidToken? ==> verify(BearerToken(hdr).value) == Err(r.error.reason)
  {
    var token := BearerToken(hdr);
    if token.None? || token.value == [] then Err(MissingToken)
    else
      match verify(token.value)
      case Ok(claims) => Ok(claims)
      case Err(e) => Err(InvalidToken(e))
  }

  // ---------------------------------------------------------------------------
  // E-mail screening
  // ---------------------------------------------------------------------------

  /** `s.split("@")[-1]`: what follows the last `@` (all of `s` when there is none). */
  function AfterLastAt(s: string): (r: string)
    ensures |r| <= |s| && r == s[|s| - |r|..] && '@' !in r
    ensures |r| < |s| ==> s[|s| - |r| - 1] == '@'
  {
    if s == [] then []
    else if s[|s| - 1] == '@' then []
    else
      var r := AfterLastAt(s[..|s| - 1]);
      assert s[..|s| - 1][|s| - 1 - |r|..] + [s[|s| - 1]] == s[|s| - 1 - |r|..];
      r + [s[|s| - 1]]
  }

  /** `_safe_email`: the stripped address when it has an `@` and a dot after its last `@`. */
  function SafeEmail(s: Option<string>): (r: Option<string>)
    ensures r.Some? <==>
      s.Some? && s.value != [] && '@' in Strip(s.value) && '.' in AfterLastAt(Strip(s.value))
    ensures r.Some? ==> r.value == Strip(s.value)
  {
    if s.None? || s.value == [] then None
    else
      var t := Strip(s.value);
      if '@' in t && '.' in AfterLastAt(t) then Some(t) else None
  }

  /** An accepted address is accepted again, unchanged. */
  lemma SafeEmailIdempotent(s: Option<string>)
    requires SafeEmail(s).Some?
    ensures SafeEmail(SafeEmail(s)) == SafeEmail(s)
  {
    StripIdempotent(s.value);
  }

  /** The present values of `f` over `xs`, in order. */
  function Kept<X, Y>(xs: seq<X>, f: X -> Option<Y>): seq<Y> {
    if xs == [] then []
    else
      var init := Kept(xs[..|xs| - 1], f);
      var y := f(xs[|xs| - 1]);
      if y.Some? then init + [y.value] else init
  }

  /** Whether `f` has a value at an element. */
  function Present<X, Y>(f: X -> Option<Y>): X -> bool {
    x => f(x).Some?
  }

  /** `Kept` has one value per element where `f` has one, and it is that value. */
  lemma {:induction false} KeptShape<X, Y>(xs: seq<X>, f: X -> Option<Y>)
    ensures var r := Kept(xs, f);
      var ok := Where(xs, Present(f));
      |r| == |ok| && forall i :: 0 <= i < |r| ==> f(ok[i]) == Some(r[i])
    decreases |xs|
  {
    if xs != [] {
      var init := xs[..|xs| - 1];
      var e := xs[|xs| - 1];
      KeptShape(init, f);
      assert xs == init + [e];
      WhereAppend(init, [e], Present(f));
      assert [e][1..] == [];
      var r0, ok0 := Kept(init, f), Where(init, Present(f));
      var r, ok := Kept(xs, f), Where(xs, Present(f));
      if f(e).Some? {
        assert Where([e], Present(f)) == [e];
        assert ok == ok0 + [e];
        assert r == r0 + [f(e).value];
        forall i | 0 <= i < |r| ensures f(ok[i]) == Some(r[i]) {
          if i < |r0| {
            assert ok[i] == ok0[i] && r[i] == r0[i];
          }
        }
      } else {
        assert Where([e], Present(f)) == [];
        assert ok == ok0 && r == r0;
      }
    }
  }

  /** The attendees the loop of `_create_google_meet_event` collects, in input order. */
  function Attendees(emails: seq<Option<string>>): seq<string> {
    Kept(emails, SafeEmail)
  }

  predicate Passes(e: Option<string>) { SafeEmail(e).Some? }

  /** The attendees are, in order, the screened forms of the inputs that pass `_safe_email`. */
  lemma AttendeesShape(emails: seq<Option<string>>)
    ensures var r := Attendees(emails);
      var ok := Where(emails, Passes);
      |r| == |ok| && forall i :: 0 <= i < |r| ==> SafeEmail(ok[i]) == Some(r[i])
  {
    KeptShape(emails, SafeEmail);
    WhereAgree(emails, Present(SafeEmail), Passes);
  }

  /** The loop that screens `attendees_emails`. */
  method CollectAttendees(emails: seq<Option<string>>) returns (attendees: seq<string>)
    ensures attendees == Attendees(emails)
  {
    attendees := [];
    var i := 0;
    while i < |emails|
      invariant 0 <= i <= |emails|
      invariant attendees == Attendees(emails[..i])
    {
      assert emails[..i + 1][..i] == emails[..i];
      var safe := SafeEmail(emails[i]);
      if safe.Some? {
        attendees := attendees + [safe.value];
      }
      i := i + 1;
    }
    assert emails[..|emails|] == emails;
  }

  // ---------------------------------------------------------------------------
  // Reply analysis
  // ---------------------------------------------------------------------------

  /** `\w` on ASCII text. */
  predicate IsWordChar(c: char) { IsAlnum(c) || c == '_' }

  predicate WordAt(t: string, i: int) {
    0 <= i < |t| && IsWordChar(t[i])
  }

  /** `\b` between positions `p - 1` and `p`. */
  predicate Boundary(t: string, p: int) {
    WordAt(t, p - 1) != WordAt(t, p)
  }

  /** `\bw\b` matches at position `p`. */
  predicate PhraseAt(t: string, w: string, p: nat)
    requires p <= |t|
  {
    Boundary(t, p) && p + |w| <= |t| && t[p..p + |w|] == w && Boundary(t, p + |w|)
  }

  /** The length of the match of `\b(w1|w2|...)\b` at `p`: the first alternative, in order,
      that matches there. */
  function FirstAlt(t: string, ws: seq<string>, p: nat): (r: Option<nat>)
    requires p <= |t|
    ensures r.Some? <==> exists k :: 0 <= k < |ws| && PhraseAt(t, ws[k], p)
    ensures r.Some? ==> exists k :: 0 <= k < |ws| && PhraseAt(t, ws[k], p) && r.value == |ws[k]|
  {
    if ws == [] then None
    else if PhraseAt(t, ws[0], p) then Some(|ws[0]|)
    else
      var r := FirstAlt(t, ws[1..], p);
      assert forall k :: 1 <= k < |ws| ==> ws[k] == ws[1..][k - 1];
      r
  }

  /** `re.search` from position `p`. */
  predicate SearchFrom(t: string, ws: seq<string>, p: nat)
    requires p <= |t|
    decreases |t| - p
  {
    FirstAlt(t, ws, p).Some? || (p < |t| && SearchFrom(t, ws, p + 1))
  }

  /** `len(re.findall(...))` from position `p`: after a match the scan resumes at its end (one
      further on after an empty match). */
  function FindAll(t: string, ws: seq<string>, p: nat): nat
    requires p <= |t|
    decreases |t| - p
  {
    var m := FirstAlt(t, ws, p);
    if m.Some? then
      if p == |t| then 1
      else if m.value == 0 then 1 + FindAll(t, ws, p + 1)
      else
        1 + FindAll(t, ws, p + m.value)
    else if p < |t| then FindAll(t, ws, p + 1)
    else 0
  }

  /** A search succeeds exactly when some position matches. */
  lemma SearchIffSomeMatch(t: string, ws: seq<string>, p: nat)
    requires p <= |t|
    ensures SearchFrom(t, ws, p) <==> exists q :: p <= q <= |t| && FirstAlt(t, ws, q).Some?
  {
    if SearchFrom(t, ws, p) {
      var q := SearchWitness(t, ws, p);
    }
    forall q | p <= q <= |t| && FirstAlt(t, ws, q).Some? ensures SearchFrom(t, ws, p) {
      SearchReaches(t, ws, p, q);
    }
  }

  /** A successful search has a matching position at or after its start. */
  lemma {:induction false} SearchWitness(t: string, ws: seq<string>, p: nat) returns (q: nat)
    requires p <= |t| && SearchFrom(t, ws, p)
    ensures p <= q <= |t| && FirstAlt(t, ws, q).Some?
    decreases |t| - p
  {
    if FirstAlt(t, ws, p).Some? {
      q := p;
    } else {
      q := SearchWitness(t, ws, p + 1);
    }
  }

  /** A search started at or before a matching position succeeds. */
  lemma {:induction false} SearchReaches(t: string, ws: seq<string>, p: nat, q: nat)
    requires p <= q <= |t| && FirstAlt(t, ws, q).Some?
    ensures SearchFrom(t, ws, p)
    decreases q - p
  {
    if p < q {
      SearchReaches(t, ws, p + 1, q);
    }
  }

  /** `re.search` finds something exactly when `re.findall` does. */
  lemma {:induction false} SearchIffFindAll(t: string, ws: seq<string>, p: nat)
    requires p <= |t|
    ensures SearchFrom(t, ws, p) <==> FindAll(t, ws, p) > 0
    decreases |t| - p
  {
    if FirstAlt(t, ws, p).None? && p < |t| {
      SearchIffFindAll(t, ws, p + 1);
    }
  }

  const NegWords := ["no", "not interested", "stop", "unsubscribe", "never", "remove me", "pass"]
  const LaterWords := ["later", "busy", "another time", "next week", "follow up", "remind"]
  /** `let'?s do it` is the two alternatives `let's do it` and `lets do it`, in that order. */
  const PosWords := ["yes", "interested", "sounds good", "great", "awesome", "sure", "let's do it", "lets do it", "keen"]
  const GoodWords := ["good", "great", "thanks", "thank you", "helpful", "love"]
  const BadWords := ["bad", "hate", "terrible", "annoyed", "spam"]

  datatype Sentiment = Positive | Negative | Neutral
  datatype Intent = Yes | No | Later | Unknown
  datatype Analysis = Analysis(sentiment: Sentiment, intent: Intent)

  predicate Mentions(t: string, ws: seq<string>) {
    SearchFrom(t, ws, 0)
  }

  /** `_infer_intent`, on the lower-cased stripped text: negative words, then "later" words,
      then positive words decide the intent; otherwise the intent is unknown and the sentiment
      compares the counts of good and bad words. */
  function InferIntent(text: string): (r: Analysis)
    ensures var t := Lower(Strip(text));
      (t == [] ==> r == Analysis(Neutral, Unknown))
      && (r.intent == No <==> t != [] && Mentions(t, NegWords))
      && (r.intent == Later <==> t != [] && !Mentions(t, NegWords) && Mentions(t, LaterWords))
      && (r.intent == Yes <==>
            t != [] && !Mentions(t, NegWords) && !Mentions(t, LaterWords) && Mentions(t, PosWords))
      && (r.intent == No ==> r.sentiment == Negative)
      && (r.intent == Later ==> r.sentiment == Neutral)
      && (r.intent == Yes ==> r.sentiment == Positive)
      && (r.intent == Unknown && t != [] ==>
            var pos, neg := FindAll(t, GoodWords, 0), FindAll(t, BadWords, 0);
            (r.sentiment == Positive <==> pos > neg) && (r.sentiment == Negative <==> neg > pos))
  {
    var t := Lower(Strip(text));
    if t == [] then Analysis(Neutral, Unknown)
    else if Mentions(t, NegWords) then Analysis(Negative, No)
    else if Mentions(t, LaterWords) then Analysis(Neutral, Later)
    else if Mentions(t, PosWords) then Analysis(Positive, Yes)
    else
      var pos := FindAll(t, GoodWords, 0);
      var neg := FindAll(t, BadWords, 0);
      Analysis(if pos > neg then Positive else if neg > pos then Negative else Neutral, Unknown)
  }

  /** A refusal that contains a positive word ("interested") still reads as a refusal. */
  lemma NotInterestedIsRefusal()
    ensures InferIntent("Not interested") == Analysis(Negative, No)
  {
    var t := "not interested";
    assert Lower(Strip("Not interested")) == t;
    assert PhraseAt(t, NegWords[1], 0);
    assert FirstAlt(t, NegWords, 0).Some?;
  }

  // ---------------------------------------------------------------------------
  // Meeting
  // ---------------------------------------------------------------------------

  /** `max(15, duration_mins or 30)`: a missing or zero duration means 30 minutes. */
  function MeetingMinutes(duration: Option<int>): (m: int)
    ensures m >= 15
    ensures duration.None? || duration == Some(0) ==> m == 30
    ensures duration.Some? && duration.value != 0 ==> m == if duration.value < 15 then 15 else duration.value
  {
    var d := if duration.None? || duration.value == 0 then 30 else duration.value;
    if d < 15 then 15 else d
  }

  /** The end of a meeting starting at `startSec` (seconds): never under 15 minutes later. */
  function MeetingEnd(startSec: int, duration: Option<int>): (e: int)
    ensures e - startSec == MeetingMinutes(duration) * 60 && e - startSec >= 15 * 60
  {
    startSec + MeetingMinutes(duration) * 60
  }

  /** An entry point of the created event's `conferenceData`. */
  datatype EntryPoint = EntryPoint(entryPointType: Option<string>, uri: Option<string>)

  /** The index of the first entry point of type `"video"`. */
  function FirstVideo(eps: seq<EntryPoint>): (r: Option<nat>)
    ensures r.Some? ==> r.value < |eps| && eps[r.value].entryPointType == Some("video")
    ensures forall k :: 0 <= k < |eps| && (r.None? || k < r.value) ==> eps[k].entryPointType != Some("video")
  {
    if eps == [] then None
    else if eps[0].entryPointType == Some("video") then Some(0)
    else
      var r := FirstVideo(eps[1..]);
      assert forall k :: 1 <= k < |eps| ==> eps[k] == eps[1..][k - 1];
      if r.Some? then Some(r.value + 1) else None
  }

  predicate Truthy(s: Option<string>) { s.Some? && s.value != [] }

  /** The meeting link: the `uri` of the first video entry point when it is a non-empty
      string, otherwise `hangoutLink`. */
  function MeetUrlOf(eps: seq<EntryPoint>, hangoutLink: Option<string>): Option<string> {
    var k := FirstVideo(eps);
    if k.Some? && Truthy(eps[k.value].uri) then eps[k.value].uri else hangoutLink
  }

  /** `eps[k]` is the first entry point of type `"video"`. */
  predicate IsFirstVideo(eps: seq<EntryPoint>, k: int) {
    0 <= k < |eps| && eps[k].entryPointType == Some("video")
    && forall j :: 0 <= j < k ==> eps[j].entryPointType != Some("video")
  }

  /** The link is the `uri` of the first video entry point when that is a non-empty string,
      and `hangoutLink` when it is not or when there is no video entry point; later video entry
      points are never consulted. */
  lemma MeetUrlShape(eps: seq<EntryPoint>, hangoutLink: Option<string>)
    ensures forall k :: IsFirstVideo(eps, k) ==>
      MeetUrlOf(eps, hangoutLink) == if Truthy(eps[k].uri) then eps[k].uri else hangoutLink
    ensures (forall k :: 0 <= k < |eps| ==> eps[k].entryPointType != Some("video")) ==> MeetUrlOf(eps, hangoutLink) == hangoutLink
  {
    var f := FirstVideo(eps);
    forall k | IsFirstVideo(eps, k)
      ensures MeetUrlOf(eps, hangoutLink) == if Truthy(eps[k].uri) then eps[k].uri else hangoutLink
    {
      assert f.Some? && f.value == k;
    }
  }

  /** The loop over the entry points, with its `break`, and the `hangoutLink` fallback. */
  method MeetUrl(eps: seq<EntryPoint>, hangoutLink: Option<string>) returns (url: Option<string>)
    ensures url == MeetUrlOf(eps, hangoutLink)
  {
    url := None;
    var i := 0;
    while i < |eps|
      invariant 0 <= i <= |eps|
      invariant forall k :: 0 <= k < i ==> eps[k].entryPointType != Some("video")
      invariant url == None
    {
      if eps[i].entryPointType == Some("video") {
        url := eps[i].uri;
        break;
      }
      i := i + 1;
    }
    if !Truthy(url) {
      url := hangoutLink;
    }
  }

  /** What the Calendar API answered to the insert. */
  datatype Created = Created(
    entryPoints: seq<EntryPoint>,
    hangoutLink: Option<string>,
    id: Option<string>,
    organizerEmail: Option<string>)

  /** The event body sent to the Calendar API (the conference request id is left out). */
  datatype EventRequest = EventRequest(summary: string, startSec: int, endSec: int, timeZone: string, attendees: seq<string>)

  /** The reply of `_create_google_meet_event`. */
  datatype MeetEvent = MeetEvent(ok: bool, meetUrl: Option<string>, eventId: Option<string>, calendarId: Option<string>)

  /** `_create_google_meet_event`, with the Calendar service's availability, the outcome of
      the insert and the random placeholder link as parameters. */
  method CreateMeetEvent(
    title: string, startSec: int, duration: Option<int>, emails: seq<Option<string>>, timeZone: string,
    serviceOk: bool, insert: Result<Created, string>, fakeUrl: string)
    returns (res: MeetEvent, request: Option<EventRequest>)
    ensures !serviceOk ==> request.None? && res == MeetEvent(true, Some(fakeUrl), None, None)
    ensures serviceOk ==> request == Some(EventRequest(
      if title == [] then "Intro chat" else title,
      startSec, MeetingEnd(startSec, duration), timeZone, Attendees(emails)))
    ensures serviceOk && insert.Err? ==> res == MeetEvent(false, Some(fakeUrl), None, None)
    ensures serviceOk && insert.Ok? ==> res == MeetEvent(
      true,
      MeetUrlOf(insert.value.entryPoints, insert.value.hangoutLink),
      insert.value.id,
      Some(if Truthy(insert.value.organizerEmail) then insert.value.organizerEmail.value else "primary"))
  {
    var endSec := startSec + MeetingMinutes(duration) * 60;
    if !serviceOk {
      return MeetEvent(true, Some(fakeUrl), None, None), None;
    }
    var attendees := CollectAttendees(emails);
    var summary := if title != [] then title else "Intro chat";
    request := Some(EventRequest(summary, startSec, endSec, timeZone, attendees));
    if insert.Err? {
      return MeetEvent(false, Some(fakeUrl), None, None), request;
    }
    var created := insert.value;
    var url := MeetUrl(created.entryPoints, created.hangoutLink);
    var calendarId := if Truthy(created.organizerEmail) then created.organizerEmail.value else "primary";
    res := MeetEvent(true, url, created.id, Some(calendarId));
  }
}
