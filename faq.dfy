/**
  The `/api/ask` question flow: normalise the question into a cache key,
  answer from the cache when a live, non-empty answer is stored, and otherwise
  run `ask_llm`, log the exchange in the request history and cache the answer
  for an hour.

  The Redis store is a map from key to (value, expiry) read against an
  explicit clock; the history table is an append-only sequence of records.
 */
module Faq {
  import opened Results
  import opened Text
  import Rag

  const KeyPrefix := "faq:"
  const Ttl := 3600
  const CacheTag := "Redis Cache"

  /** A Redis value and the second at which it expires. */
  datatype CacheEntry = CacheEntry(value: string, expiresAt: int)

  /** A `request_history` row (the token estimate is not modelled). */
  datatype HistoryRecord = HistoryRecord(question: string, answer: string)

  /** `AnswerResponse`: `sources` defaults to `[]` and `cached` to `false` where the code leaves them out. */
  datatype AnswerResponse = AnswerResponse(answer: string, sources: seq<string>, cached: bool)

  /** How the history commit went. */
  datatype CommitOutcome = Committed | CommitFailed(reason: string)

  /** What a request produces: a response, or an exception that escapes the handler. */
  datatype HandlerReply = Responded(response: AnswerResponse) | Raised(error: string)

  /** The stores the handler reads and writes. */
  datatype Stores = Stores(cache: map<string, CacheEntry>, history: seq<HistoryRecord>)

  /** A reply with its source list as a set, the form the specification can fix. */
  datatype ReplySpec = Answered(answer: string, sources: set<string>, cached: bool) | Failed(error: string)

  // ---------------------------------------------------------------------
  // The cache
  // ---------------------------------------------------------------------

  /** `f"faq:{text.strip().lower()}"`. */
  function CacheKey(text: string): (k: string)
    ensures |k| >= |KeyPrefix| && k[..|KeyPrefix|] == KeyPrefix
    ensures var q := k[|KeyPrefix|..];
      Lower(q) == q && (|q| > 0 ==> !IsSpace(q[0]) && !IsSpace(q[|q| - 1]))
  {
    var q := Strip(text);
    LowerIdempotent(q);
    var k := KeyPrefix + Lower(q);
    assert k[|KeyPrefix|..] == Lower(q);
    k
  }

  /** Redis `GET key` at time `now`: the value while it has not expired. */
  function Get(cache: map<string, CacheEntry>, key: string, now: int): (r: Option<string>)
    ensures r.Some? <==> key in cache && now < cache[key].expiresAt
    ensures r.Some? ==> r.value == cache[key].value
  {
    if key in cache && now < cache[key].expiresAt then Some(cache[key].value) else None
  }

  /** Redis `SETEX key ttl value` at time `now`. */
  function SetEx(cache: map<string, CacheEntry>, key: string, ttl: int, value: string, now: int): (r: map<string, CacheEntry>)
    ensures r.Keys == cache.Keys + {key}
    ensures r[key] == CacheEntry(value, now + ttl)
    ensures forall k :: k in cache && k != key ==> r[k] == cache[k]
  {
    cache[key := CacheEntry(value, now + ttl)]
  }

  /** A stored value answers only while live and non-empty (Python treats `""` as false). */
  function CachedAnswer(cache: map<string, CacheEntry>, key: string, now: int): (r: Option<string>)
    ensures r.Some? <==> key in cache && now < cache[key].expiresAt && cache[key].value != ""
    ensures r.Some? ==> r.value == cache[key].value
  {
    var v := Get(cache, key, now);
    if v.Some? && v.value != "" then v else None
  }

  /** Read after write: the key reads back the value for `ttl` seconds; every other key reads as before. */
  lemma GetAfterSetEx(cache: map<string, CacheEntry>, key: string, value: string, t: int, other: string, t2: int)
    ensures Get(SetEx(cache, key, Ttl, value, t), key, t2) == (if t2 < t + Ttl then Some(value) else None)
    ensures other != key ==> Get(SetEx(cache, key, Ttl, value, t), other, t2) == Get(cache, other, t2)
  {
  }

  // ---------------------------------------------------------------------
  // Specification of ask_question
  // ---------------------------------------------------------------------

  /** One `ask_question` call: the stores afterwards and the reply. */
  function Ask(st: Stores, text: string, now: int, svc: Rag.Services, commit: CommitOutcome): (r: (Stores, ReplySpec))
    ensures r.1.Failed? || (r.1.Answered? && r.1.cached) ==> r.0 == st
    ensures r.1.Answered? && r.1.cached ==> r.1.sources == {CacheTag} && CachedAnswer(st.cache, CacheKey(text), now) == Some(r.1.answer)
    ensures r.1.Answered? && !r.1.cached ==>
      && r.0.history == st.history + [HistoryRecord(Strip(text), r.1.answer)]
      && CachedAnswer(r.0.cache, CacheKey(text), now) == (if r.1.answer == "" then None else Some(r.1.answer))
  {
    var question := Strip(text);
    var key := CacheKey(text);
    match CachedAnswer(st.cache, key, now)
    case Some(v) => (st, Answered(v, {CacheTag}, true))
    case None =>
      var reply := Rag.Answer(question, svc);
      match commit
      case CommitFailed(reason) => (st, Failed(reason))
      case Committed =>
        (Stores(SetEx(st.cache, key, Ttl, reply.answer, now), st.history + [HistoryRecord(question, reply.answer)]),
         Answered(reply.answer, reply.sources, false))
  }

  /** A reply whose source list enumerates the expected set, each source once. */
  ghost predicate Matches(reply: HandlerReply, expected: ReplySpec) {
    match expected
    case Failed(e) => reply == Raised(e)
    case Answered(answer, sources, cached) =>
      && reply.Responded?
      && reply.response.answer == answer
      && reply.response.cached == cached
      && Rag.Distinct(reply.response.sources)
      && forall s :: s in reply.response.sources <==> s in sources
  }

  // ---------------------------------------------------------------------
  // ask_question
  // ---------------------------------------------------------------------

  /** The handler's view of Redis and of the request history table. */
  class FaqService {
    var cache: map<string, CacheEntry>
    var history: seq<HistoryRecord>

    constructor (cache: map<string, CacheEntry>, history: seq<HistoryRecord>)
      ensures this.cache == cache && this.history == history
    {
      this.cache := cache;
      this.history := history;
    }

    function State(): Stores
      reads this
    {
      Stores(cache, history)
    }

    /**
      `ask_question(req)` at clock time `now`: a cache hit returns at once;
      a miss asks the RAG core, commits a history row and then caches the answer.
     */
    method AskQuestion(text: string, now: int, svc: Rag.Services, commit: CommitOutcome) returns (reply: HandlerReply)
      modifies this
      ensures State() == Ask(old(State()), text, now, svc, commit).0
      ensures Matches(reply, Ask(old(State()), text, now, svc, commit).1)
      ensures CachedAnswer(old(cache), CacheKey(text), now).Some? ==>
        reply == Responded(AnswerResponse(CachedAnswer(old(cache), CacheKey(text), now).value, [CacheTag], true))
    {
      ghost var before := State();
      var question := Strip(text);
      var key := KeyPrefix + Lower(question);
      assert key == CacheKey(text);
      var cachedAnswer := Get(cache, key, now);
      if cachedAnswer.Some? && cachedAnswer.value != "" {
        assert CachedAnswer(before.cache, key, now) == Some(cachedAnswer.value);
        assert Ask(before, text, now, svc, commit) == (before, Answered(cachedAnswer.value, {CacheTag}, true));
        return Responded(AnswerResponse(cachedAnswer.value, [CacheTag], true));
      }
      assert CachedAnswer(before.cache, key, now) == None;
      ghost var spec := Rag.Answer(question, svc);

      var answer, sources := Rag.AskLlm(question, svc);
      assert answer == spec.answer;

      var record := HistoryRecord(question, answer);
      if commit.CommitFailed? {
        assert Ask(before, text, now, svc, commit) == (before, Failed(commit.reason));
        return Raised(commit.reason);
      }
      history := history + [record];

      cache := cache[key := CacheEntry(answer, now + Ttl)];
      reply := Responded(AnswerResponse(answer, sources, false));
      assert Ask(before, text, now, svc, commit) == (State(), Answered(answer, spec.sources, false));
    }
  }

  // ---------------------------------------------------------------------
  // Properties of ask_question
  // ---------------------------------------------------------------------

  /** Two questions share a cache key exactly when they strip and lower-case to the same text. */
  lemma {:induction false} CacheKeyEquality(a: string, b: string)
    ensures CacheKey(a) == CacheKey(b) <==> Lower(Strip(a)) == Lower(Strip(b))
  {
    if CacheKey(a) == CacheKey(b) {
      assert Lower(Strip(a)) == CacheKey(a)[|KeyPrefix|..];
      assert Lower(Strip(b)) == CacheKey(b)[|KeyPrefix|..];
    }
  }

  /** Surrounding whitespace does not change the key. */
  lemma PaddingSharesKey(p: string, text: string, q: string)
    requires AllSpace(p) && AllSpace(q)
    ensures CacheKey(p + text + q) == CacheKey(text)
  {
    StripPadded(p, text, q);
  }

  /** Letter case does not change the key. */
  lemma CaseSharesKey(a: string, b: string)
    requires Lower(a) == Lower(b)
    ensures CacheKey(a) == CacheKey(b)
  {
    LowerStrip(a);
    LowerStrip(b);
  }

  /** The key is already normalised: re-normalising its question part changes nothing. */
  lemma CacheKeyNormalised(text: string)
    ensures CacheKey(Lower(Strip(text))) == CacheKey(text)
  {
    LowerStrip(text);
    StripIdempotent(Lower(text));
    LowerIdempotent(Strip(text));
  }

  /** A live non-empty cached answer: returned tagged as cached, nothing else is consulted or changed. */
  lemma CacheHit(st: Stores, text: string, now: int, svc: Rag.Services, commit: CommitOutcome,
                 otherSvc: Rag.Services, otherCommit: CommitOutcome)
    requires CacheKey(text) in st.cache
    requires now < st.cache[CacheKey(text)].expiresAt && st.cache[CacheKey(text)].value != ""
    ensures Ask(st, text, now, svc, commit) == (st, Answered(st.cache[CacheKey(text)].value, {CacheTag}, true))
    ensures Ask(st, text, now, otherSvc, otherCommit) == Ask(st, text, now, svc, commit)
  {
  }

  /** Overwriting a key erases whether it had been deleted first. */
  lemma OverwriteForgetsRemoval(cache: map<string, CacheEntry>, key: string, entry: CacheEntry)
    ensures cache[key := entry] == (cache - {key})[key := entry]
  {
  }

  /** A stored empty string behaves exactly as if nothing were stored. */
  lemma EmptyValueIsMiss(st: Stores, text: string, now: int, svc: Rag.Services, commit: CommitOutcome)
    requires CacheKey(text) in st.cache && st.cache[CacheKey(text)].value == ""
    ensures Ask(st, text, now, svc, commit).1 == Ask(st.(cache := st.cache - {CacheKey(text)}), text, now, svc, commit).1
    ensures commit.Committed? ==>
      Ask(st, text, now, svc, commit).0 == Ask(st.(cache := st.cache - {CacheKey(text)}), text, now, svc, commit).0
  {
    var key := CacheKey(text);
    var emptied := st.(cache := st.cache - {key});
    assert CachedAnswer(st.cache, key, now) == None;
    assert CachedAnswer(emptied.cache, key, now) == None;
    var rag := Rag.Answer(Strip(text), svc);
    if commit.Committed? {
      OverwriteForgetsRemoval(st.cache, key, CacheEntry(rag.answer, now + Ttl));
      assert Ask(st, text, now, svc, commit) == Ask(emptied, text, now, svc, commit);
    }
  }

  /**
    A miss: `ask_llm` gets the stripped (not lower-cased) question; one history
    row is appended; its answer, whatever it is, is cached under the key for an
    hour; no other key changes; the reply is `ask_llm`'s with `cached` false.
   */
  lemma CacheMiss(st: Stores, text: string, now: int, svc: Rag.Services)
    requires CachedAnswer(st.cache, CacheKey(text), now).None?
    ensures var (after, reply) := Ask(st, text, now, svc, Committed);
      var rag := Rag.Answer(Strip(text), svc);
      && reply == Answered(rag.answer, rag.sources, false)
      && after.history == st.history + [HistoryRecord(Strip(text), rag.answer)]
      && CacheKey(text) in after.cache
      && after.cache[CacheKey(text)] == CacheEntry(rag.answer, now + Ttl)
      && (forall k :: k != CacheKey(text) ==> (k in after.cache <==> k in st.cache))
      && (forall k :: k != CacheKey(text) && k in st.cache ==> after.cache[k] == st.cache[k])
  {
  }

  /** A failed commit escapes the handler and leaves both the history and the cache unchanged. */
  lemma CommitFailure(st: Stores, text: string, now: int, svc: Rag.Services, reason: string)
    requires CachedAnswer(st.cache, CacheKey(text), now).None?
    ensures Ask(st, text, now, svc, CommitFailed(reason)) == (st, Failed(reason))
  {
  }

  /** The history only grows, by at most one row, and old rows are never rewritten. */
  lemma HistoryAppendOnly(st: Stores, text: string, now: int, svc: Rag.Services, commit: CommitOutcome)
    ensures var after := Ask(st, text, now, svc, commit).0;
      && |st.history| <= |after.history| <= |st.history| + 1
      && after.history[..|st.history|] == st.history
  {
  }

  /**
    Round trip: after a miss at time `t` whose answer is non-empty, the same
    question, or one differing in case or surrounding whitespace, asked before
    `t + 3600` is answered from the cache with the same answer.
   */
  lemma {:induction false} CacheRoundTrip(st: Stores, text: string, t: int, svc: Rag.Services,
                       again: string, t2: int, svc2: Rag.Services, commit2: CommitOutcome)
    requires CachedAnswer(st.cache, CacheKey(text), t).None?
    requires Ask(st, text, t, svc, Committed).1.answer != ""
    requires Lower(Strip(again)) == Lower(Strip(text))
    requires t <= t2 < t + Ttl
    ensures var (after, first) := Ask(st, text, t, svc, Committed);
      Ask(after, again, t2, svc2, commit2) == (after, Answered(first.answer, {CacheTag}, true))
  {
    var key := CacheKey(text);
    var rag := Rag.Answer(Strip(text), svc);
    var after := Stores(SetEx(st.cache, key, Ttl, rag.answer, t), st.history + [HistoryRecord(Strip(text), rag.answer)]);
    assert Ask(st, text, t, svc, Committed) == (after, Answered(rag.answer, rag.sources, false));
    CacheKeyEquality(again, text);
    assert CacheKey(again) == key;
    assert CachedAnswer(after.cache, key, t2) == Some(rag.answer);
  }

  /** The cached answer expires: at or after `t + 3600` the key no longer answers. */
  lemma CacheExpiry(st: Stores, text: string, t: int, svc: Rag.Services, t2: int)
    requires CachedAnswer(st.cache, CacheKey(text), t).None?
    requires t2 >= t + Ttl
    ensures CachedAnswer(Ask(st, text, t, svc, Committed).0.cache, CacheKey(text), t2).None?
  {
  }
}
