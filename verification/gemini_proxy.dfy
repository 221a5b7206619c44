/**
 * The server-side chat proxy `callGemini` (functions/src/index.ts): it rejects
 * unauthenticated callers and requests without a `contents` array, enforces a daily
 * limit of 5 messages for users who are not premium, forwards the request upstream,
 * and counts a message only after the upstream call succeeds. The user's document
 * is a value, the upstream call is a parameter (its failure or its response body),
 * and "today" is a parameter.
 */
module GeminiProxy {
  import opened Options
  import opened Json
  import Storage
  import Firestore

  /** Messages a free user may send per day, as the server counts them (`FREE_DAILY_LIMIT`). */
  const FreeDailyLimit: int := 5

  /**
   * A call: the caller's uid when signed in, and the call's argument `request.data`
   * (`Null` standing for both `null` and `undefined`, as when no argument is passed).
   */
  datatype Request = Request(auth: Option<string>, data: Value)

  /** The `contents` property of the argument, when it has one. */
  function Contents(req: Request): Option<Value> {
    Field(req.data, "contents")
  }

  /** `contents` is present and an array. */
  predicate HasContents(req: Request) {
    Contents(req).Some? && Contents(req).value.Arr?
  }

  /** The answer of the upstream model: a failure status, or a successful response body. */
  datatype Upstream = Failed | Succeeded(body: Value)

  /** How a call ends: one of the three errors it raises, an internal error, or the reply text. */
  datatype Outcome =
    | Unauthenticated
    | InvalidArgument
    | ResourceExhausted
    | Internal
    | Reply(message: Value)

  /** The outcome of a call, the user's document afterwards, and whether the upstream model was called. */
  datatype Call = Call(outcome: Outcome, doc: Firestore.Document, upstreamCalled: bool)

  /** A user is premium when the tier is `"premium"` or `isPremium` is exactly `true`. */
  predicate IsPremium(data: Firestore.Fields) {
    (Firestore.SubscriptionTierField in data && data[Firestore.SubscriptionTierField] == Str("premium"))
    || (Firestore.Name(Firestore.IsPremium) in data && data[Firestore.Name(Firestore.IsPremium)] == Bool(true))
  }

  /** The messages counted today: the stored count when the stored counter is dated today, otherwise 0. */
  function TodayCount(data: Firestore.Fields, today: string): int {
    CountForDay(if Firestore.DailyCountField in data then Some(data[Firestore.DailyCountField]) else None, today)
  }

  /** Optional indexing `x?.[0]` on an array. */
  function FirstItem(x: Option<Value>): (r: Option<Value>)
    ensures r.Some? <==> x.Some? && x.value.Arr? && |x.value.items| > 0
    ensures r.Some? ==> r.value == x.value.items[0]
  {
    if x.Some? && x.value.Arr? && |x.value.items| > 0 then Some(x.value.items[0]) else None
  }

  /** Optional property access `x?.name`. */
  function FieldOf(x: Option<Value>, name: string): Option<Value> {
    if x.Some? then Field(x.value, name) else None
  }

  /** `candidates?.[0]?.content?.parts?.[0]?.text ?? ""`, for a body that is not null. */
  function ReplyText(body: Value): (r: Value)
    ensures r != Null
  {
    var parts := FieldOf(FieldOf(FirstItem(Field(body, "candidates")), "content"), "parts");
    Firestore.Coalesce(FieldOf(FirstItem(parts), "text"), Str(""))
  }

  /** A body whose first candidate's first part has a non-null `text` replies with that text. */
  lemma ReplyTextOfFirstPart(body: Value, candidates: seq<Value>, content: Value, parts: seq<Value>, text: Value)
    requires Field(body, "candidates") == Some(Arr(candidates)) && |candidates| > 0
    requires Field(candidates[0], "content") == Some(content)
    requires Field(content, "parts") == Some(Arr(parts)) && |parts| > 0
    requires Field(parts[0], "text") == Some(text) && text != Null
    ensures ReplyText(body) == text
  {
  }

  /**
   * A body without a `candidates` array, or whose first candidate has no `content`
   * with a non-empty `parts` array, replies with the empty string.
   */
  lemma ReplyTextWithoutCandidates(body: Value)
    ensures (Field(body, "candidates").None? || !Field(body, "candidates").value.Arr?) ==> ReplyText(body) == Str("")
    ensures (Field(body, "candidates") == Some(Arr([]))) ==> ReplyText(body) == Str("")
  {
  }

  /** The document after merging in one more message today on top of `count`. */
  function Counted(doc: Firestore.Document, today: string, count: int): Firestore.Document {
    Some(Firestore.MergeField(Firestore.Data(doc), Firestore.DailyCountField, EncodeDailyCount(DailyCount(today, count + 1))))
  }

  /**
   * `callGemini` for the document `doc` of the caller. Destructuring a null argument
   * and reading `candidates` of a null response body both throw, which the callable
   * reports as an internal error.
   */
  function CallGemini(req: Request, doc: Firestore.Document, today: string, upstream: Upstream): Call {
    if req.auth.None? then Call(Unauthenticated, doc, false)
    else if req.data.Null? then Call(Internal, doc, false)
    else if !HasContents(req) then Call(InvalidArgument, doc, false)
    else
      var data := Firestore.Data(doc);
      var premium := IsPremium(data);
      var count := if premium then 0 else TodayCount(data, today);
      if !premium && count >= FreeDailyLimit then Call(ResourceExhausted, doc, false)
      else
        match upstream
        case Failed => Call(Internal, doc, true)
        case Succeeded(body) =>
          if body.Null? then Call(Internal, doc, true)
          else Call(Reply(ReplyText(body)), if premium then doc else Counted(doc, today, count), true)
  }

  /** An unauthenticated call is rejected without touching the document or the upstream model. */
  lemma UnauthenticatedHasNoEffect(req: Request, doc: Firestore.Document, today: string, upstream: Upstream)
    requires req.auth.None?
    ensures CallGemini(req, doc, today, upstream) == Call(Unauthenticated, doc, false)
  {
  }

  /**
   * A signed-in call without an argument fails as internal, and one whose argument
   * has no `contents` array is an invalid argument; neither has any effect.
   */
  lemma MissingContentsRejected(req: Request, doc: Firestore.Document, today: string, upstream: Upstream)
    requires req.auth.Some?
    ensures req.data.Null? ==> CallGemini(req, doc, today, upstream) == Call(Internal, doc, false)
    ensures !req.data.Null? && !HasContents(req) <==> CallGemini(req, doc, today, upstream).outcome == InvalidArgument
    ensures !req.data.Null? && !HasContents(req) ==> CallGemini(req, doc, today, upstream) == Call(InvalidArgument, doc, false)
  {
  }

  /** A premium user is never limited and never counted: the upstream model is called and the document is not written. */
  lemma PremiumIsNeverLimited(req: Request, doc: Firestore.Document, today: string, upstream: Upstream)
    requires req.auth.Some? && HasContents(req)
    requires IsPremium(Firestore.Data(doc))
    ensures CallGemini(req, doc, today, upstream).outcome != ResourceExhausted
    ensures CallGemini(req, doc, today, upstream).upstreamCalled
    ensures CallGemini(req, doc, today, upstream).doc == doc
  {
  }

  /**
   * A free user who has used today's allowance is refused before the upstream model
   * is called, whatever it would have answered, and the document is not written.
   */
  lemma LimitCheckedBeforeUpstream(req: Request, doc: Firestore.Document, today: string, upstream: Upstream)
    requires req.auth.Some? && HasContents(req) && !IsPremium(Firestore.Data(doc))
    ensures TodayCount(Firestore.Data(doc), today) >= FreeDailyLimit <==>
      CallGemini(req, doc, today, upstream).outcome == ResourceExhausted
    ensures TodayCount(Firestore.Data(doc), today) >= FreeDailyLimit ==>
      CallGemini(req, doc, today, upstream) == Call(ResourceExhausted, doc, false)
  {
  }

  /** Writing the counter changes neither field that decides whether the user is premium. */
  lemma CountingKeepsPremium(doc: Firestore.Document, today: string, count: int)
    ensures IsPremium(Firestore.Data(Counted(doc, today, count))) == IsPremium(Firestore.Data(doc))
  {
    Firestore.NamesDistinct(Firestore.IsPremium, Firestore.IsPremium);
  }

  /**
   * For a free user within the limit, an upstream failure or a null response body is
   * an internal error that leaves the document alone; any other response replies and
   * stores today's count plus one, which is at most the limit, and leaves every other
   * key of the document as it was.
   */
  lemma CountedOnlyAfterSuccess(req: Request, doc: Firestore.Document, today: string, upstream: Upstream, k: string)
    requires req.auth.Some? && HasContents(req) && !IsPremium(Firestore.Data(doc))
    requires TodayCount(Firestore.Data(doc), today) < FreeDailyLimit
    ensures upstream.Failed? || upstream.body.Null? ==> CallGemini(req, doc, today, upstream) == Call(Internal, doc, true)
    ensures upstream.Succeeded? && !upstream.body.Null? ==> (
      var c := CallGemini(req, doc, today, upstream);
      c.outcome == Reply(ReplyText(upstream.body))
      && TodayCount(Firestore.Data(c.doc), today) == TodayCount(Firestore.Data(doc), today) + 1 <= FreeDailyLimit
      && (k != Firestore.DailyCountField ==>
            (k in Firestore.Data(c.doc) <==> k in Firestore.Data(doc))
            && (k in Firestore.Data(doc) ==> Firestore.Data(c.doc)[k] == Firestore.Data(doc)[k])))
  {
    if upstream.Succeeded? && !upstream.body.Null? {
      var count := TodayCount(Firestore.Data(doc), today);
      CountedFacts(doc, today, count, k);
      assert CallGemini(req, doc, today, upstream).doc == Counted(doc, today, count);
    }
  }

  /** The counted document reads as `count + 1` today and keeps every other key. */
  lemma CountedFacts(doc: Firestore.Document, today: string, count: int, k: string)
    ensures TodayCount(Firestore.Data(Counted(doc, today, count)), today) == count + 1
    ensures k != Firestore.DailyCountField ==>
      (k in Firestore.Data(Counted(doc, today, count)) <==> k in Firestore.Data(doc))
      && (k in Firestore.Data(doc) ==> Firestore.Data(Counted(doc, today, count))[k] == Firestore.Data(doc)[k])
  {
    Firestore.MergeCounterFacts(Firestore.Data(doc), DailyCount(today, count + 1), k);
  }

  /** The document after a series of calls on the same day, and the number of replies they got. */
  function Run(req: Request, doc: Firestore.Document, today: string, upstreams: seq<Upstream>): (Firestore.Document, nat)
    decreases |upstreams|
  {
    if |upstreams| == 0 then (doc, 0)
    else
      var c := CallGemini(req, doc, today, upstreams[0]);
      var (doc', replies) := Run(req, c.doc, today, upstreams[1..]);
      (doc', replies + if c.outcome.Reply? then 1 else 0)
  }

  /**
   * Over any series of calls on one day, a free user gets at most the rest of the
   * day's allowance in replies, and the stored count grows by exactly the replies.
   */
  lemma {:induction false} RunRespectsDailyLimit(req: Request, doc: Firestore.Document, today: string, upstreams: seq<Upstream>)
    requires req.auth.Some? && HasContents(req) && !IsPremium(Firestore.Data(doc))
    ensures var (doc', replies) := Run(req, doc, today, upstreams);
      TodayCount(Firestore.Data(doc'), today) == TodayCount(Firestore.Data(doc), today) + replies
      && replies <= if TodayCount(Firestore.Data(doc), today) < FreeDailyLimit then FreeDailyLimit - TodayCount(Firestore.Data(doc), today) else 0
    decreases |upstreams|
  {
    if |upstreams| > 0 {
      var c := CallGemini(req, doc, today, upstreams[0]);
      var count := TodayCount(Firestore.Data(doc), today);
      if c.outcome.Reply? {
        assert count < FreeDailyLimit;
        CountedFacts(doc, today, count, "");
        CountingKeepsPremium(doc, today, count);
        assert c.doc == Counted(doc, today, count);
      } else {
        assert c.doc == doc;
      }
      RunRespectsDailyLimit(req, c.doc, today, upstreams[1..]);
    }
  }

  /**
   * The client's increment writes the counter the server reads: after it, the
   * server counts today's cached count plus one.
   */
  lemma ClientIncrementIsServerCount(doc: Firestore.Document, cache: Storage.Store, today: string)
    ensures TodayCount(Firestore.Data(Firestore.IncrementDailyMessageCount(doc, true, cache, today).0), today)
      == Storage.GetDailyCount(cache, today).count + 1
  {
    Firestore.MergeCounterFacts(Firestore.Data(doc), DailyCount(today, Storage.GetDailyCount(cache, today).count + 1), "");
  }

  /**
   * After a successful `clearAll` the server counts no messages today, and the user is
   * premium exactly when the kept `isPremium` is `true`: the subscription tier is gone.
   */
  lemma ClearAllResetsServerQuota(doc: Firestore.Document, retakeReadOk: bool, premiumReadOk: bool, today: string)
    ensures TodayCount(Firestore.Data(Firestore.ClearAll(doc, retakeReadOk, premiumReadOk, true)), today) == 0
    ensures IsPremium(Firestore.Data(Firestore.ClearAll(doc, retakeReadOk, premiumReadOk, true)))
      <==> Firestore.GetField(doc, premiumReadOk, Firestore.IsPremium) == Bool(true)
  {
    Firestore.ClearAllDropsCounterAndTier(doc, retakeReadOk, premiumReadOk);
    Firestore.ClearAllKeepsRetakeAndPremium(doc, retakeReadOk, premiumReadOk, Firestore.IsPremium);
  }
}
