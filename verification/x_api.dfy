/**
 * The X (Twitter) gateway: the 280-character guard, the write-through of the
 * provider's rate-limit metadata into the `rate_limits` table (one row per
 * endpoint), the `posted_tweets` cache, page-size clamping and the merged
 * rate-limit status. Every provider call is an input: the outcome the
 * provider would produce if it were called.
 */
module XApi {
  import opened Wrappers
  import opened JsValue

  const MaxTweetLength := 280
  const MaxPageSize := 100

  /** The endpoint keys under which quota is recorded. */
  const CreateEndpoint := "tweets/create"
  const TimelineEndpoint := "users/:id/tweets"
  const SearchEndpoint := "tweets/search/recent"

  /** A JavaScript Date holds at most this many milliseconds either side of
      the epoch; `toISOString` throws a RangeError beyond it. */
  const MaxDateMs := 8_640_000_000_000_000
  const InvalidTimeValue := "Invalid time value"

  const TweetTooLong := "Tweet content exceeds 280 characters"
  const ReplyTooLong := "Reply content exceeds 280 characters"
  const PostFailedPrefix := "Failed to post tweet: "
  const ReplyFailedPrefix := "Failed to reply to tweet: "
  const TweetsFailedPrefix := "Failed to fetch tweets: "
  const MentionsFailedPrefix := "Failed to fetch mentions: "

  /** The rate-limit record a provider response may carry; `reset` is in
      seconds since the epoch. */
  datatype RateLimit = RateLimit(remaining: int, reset: int, limit: int)

  /** A `rate_limits` row; `resetAtMs` is the instant `reset_at` renders. */
  datatype QuotaRow = QuotaRow(remaining: int, resetAtMs: int, limitTotal: int, updatedAt: string)

  /** `rate_limits`, keyed by its UNIQUE `endpoint` column. */
  type QuotaTable = map<string, QuotaRow>

  /** A `posted_tweets` row. */
  datatype CachedTweet = CachedTweet(content: string, postedAt: string)

  /** `posted_tweets`, keyed by its UNIQUE `tweet_id` column. */
  type TweetCache = map<string, CachedTweet>

  datatype Tweet = Tweet(id: string, text: string)
  datatype PostedTweet = PostedTweet(id: string, text: string)

  /** What the provider answers to a post or a reply. */
  datatype TweetResponse = TweetResponse(id: string, text: string, rateLimit: Option<RateLimit>)

  /** What the provider answers to a timeline or a search; `data` is absent
      when there is nothing to list. */
  datatype PageResponse = PageResponse(data: Option<seq<Tweet>>, rateLimit: Option<RateLimit>)

  /** The live rate-limit lookup: the client may not offer it, it may throw,
      or it returns a snapshot. */
  datatype LiveLookup = Unsupported | Threw(message: string) | Returned(snapshot: Value)

  datatype RateLimitStatus = RateLimitStatus(stored: QuotaTable, live: Option<Value>)

  predicate ValidDateMs(ms: int) {
    -MaxDateMs <= ms <= MaxDateMs
  }

  /** `Math.min(limit, 100)`: the page size actually requested. */
  function ClampPageSize(limit: int): (size: int)
    ensures size <= MaxPageSize && size <= limit
    ensures size == limit || size == MaxPageSize
  {
    if limit < MaxPageSize then limit else MaxPageSize
  }

  /** INSERT ... ON CONFLICT(endpoint) DO UPDATE: the endpoint's row becomes
      `row`, every other row stays as it was. */
  function Upsert(table: QuotaTable, endpoint: string, row: QuotaRow): (r: QuotaTable)
    ensures r.Keys == table.Keys + {endpoint}
    ensures r[endpoint] == row
    ensures forall e :: e in table && e != endpoint ==> r[e] == table[e]
  {
    table[endpoint := row]
  }

  /** The write-through after a successful provider call: skipped when the
      response carries no rate-limit record; otherwise the endpoint's row
      takes the provider's figures with `reset` turned into milliseconds;
      a reset outside the Date range throws before anything is written. */
  function RecordQuota(table: QuotaTable, endpoint: string, rateLimit: Option<RateLimit>, now: string)
    : (r: Result<QuotaTable, string>)
    ensures rateLimit.None? ==> r == Success(table)
    ensures rateLimit.Some? && !ValidDateMs(rateLimit.value.reset * 1000) ==> r == Failure(InvalidTimeValue)
    ensures rateLimit.Some? && ValidDateMs(rateLimit.value.reset * 1000) ==>
              r.Success? && endpoint in r.value &&
              r.value[endpoint] == QuotaRow(rateLimit.value.remaining, rateLimit.value.reset * 1000,
                                            rateLimit.value.limit, now)
    ensures r.Success? ==> forall e :: e != endpoint ==>
              (e in r.value <==> e in table) && (e in table ==> r.value[e] == table[e])
  {
    match rateLimit
    case None => Success(table)
    case Some(rl) =>
      if ValidDateMs(rl.reset * 1000) then
        Success(Upsert(table, endpoint, QuotaRow(rl.remaining, rl.reset * 1000, rl.limit, now)))
      else
        Failure(InvalidTimeValue)
  }

  /** INSERT ... ON CONFLICT(tweet_id) DO UPDATE SET content: a new id gets
      `posted_at = now`; a known id keeps its `posted_at` and takes the new
      content; every other entry stays. */
  function CacheTweet(cache: TweetCache, id: string, content: string, now: string): (r: TweetCache)
    ensures r.Keys == cache.Keys + {id}
    ensures r[id].content == content
    ensures r[id].postedAt == if id in cache then cache[id].postedAt else now
    ensures forall t :: t in cache && t != id ==> r[t] == cache[t]
  {
    var postedAt := if id in cache then cache[id].postedAt else now;
    cache[id := CachedTweet(content, postedAt)]
  }

  /** An upsert adds a row exactly when the endpoint had none. */
  lemma UpsertSize(table: QuotaTable, endpoint: string, row: QuotaRow)
    ensures |Upsert(table, endpoint, row)| == |table| + (if endpoint in table then 0 else 1)
  {
    var r := Upsert(table, endpoint, row);
    if endpoint in table {
      assert r.Keys == table.Keys;
    } else {
      assert r.Keys == table.Keys + {endpoint};
    }
  }

  /** Writing the same figures twice leaves the same figures as writing
      them once: rows are overwritten, never accumulated. Only the
      `updated_at` stamp follows the second write. */
  lemma UpsertOverwrites(table: QuotaTable, endpoint: string, remaining: int, resetAtMs: int,
                         limitTotal: int, first: string, second: string)
    ensures var once := Upsert(table, endpoint, QuotaRow(remaining, resetAtMs, limitTotal, second));
            var twice := Upsert(Upsert(table, endpoint, QuotaRow(remaining, resetAtMs, limitTotal, first)),
                                endpoint, QuotaRow(remaining, resetAtMs, limitTotal, second));
            twice == once && |twice| == |table| + (if endpoint in table then 0 else 1)
  {
    var row := QuotaRow(remaining, resetAtMs, limitTotal, second);
    var once := Upsert(table, endpoint, row);
    var twice := Upsert(Upsert(table, endpoint, QuotaRow(remaining, resetAtMs, limitTotal, first)), endpoint, row);
    assert twice.Keys == once.Keys;
    assert twice == once;
    UpsertSize(table, endpoint, row);
  }

  /** A response with no rate-limit record leaves the quota table as it
      was, whatever the endpoint; one with a record adds at most one row. */
  lemma RecordQuotaRowCount(table: QuotaTable, endpoint: string, rateLimit: Option<RateLimit>, now: string)
    requires RecordQuota(table, endpoint, rateLimit, now).Success?
    ensures var t := RecordQuota(table, endpoint, rateLimit, now).value;
            |table| <= |t| <= |table| + 1 &&
            (rateLimit.None? ==> t == table)
  {
    if rateLimit.Some? {
      var rl := rateLimit.value;
      UpsertSize(table, endpoint, QuotaRow(rl.remaining, rl.reset * 1000, rl.limit, now));
    }
  }

  /** The gateway's persistent state: the two tables it writes through. */
  class XGateway {
    var rateLimits: QuotaTable
    var postedTweets: TweetCache

    constructor ()
      ensures rateLimits == map[] && postedTweets == map[]
    {
      rateLimits := map[];
      postedTweets := map[];
    }

    /** `updateRateLimit`: upsert one row keyed by endpoint. */
    method UpdateRateLimit(endpoint: string, remaining: int, resetAtMs: int, limitTotal: int, now: string)
      modifies this`rateLimits
      ensures rateLimits == Upsert(old(rateLimits), endpoint, QuotaRow(remaining, resetAtMs, limitTotal, now))
    {
      rateLimits := rateLimits[endpoint := QuotaRow(remaining, resetAtMs, limitTotal, now)];
    }

    /** The extract-and-write step shared by every provider call. */
    method WriteThrough(endpoint: string, rateLimit: Option<RateLimit>, now: string) returns (err: Option<string>)
      modifies this`rateLimits
      ensures match RecordQuota(old(rateLimits), endpoint, rateLimit, now)
              case Success(t) => err.None? && rateLimits == t
              case Failure(e) => err == Some(e) && rateLimits == old(rateLimits)
    {
      err := None;
      if rateLimit.Some? {
        var rl := rateLimit.value;
        if ValidDateMs(rl.reset * 1000) {
          UpdateRateLimit(endpoint, rl.remaining, rl.reset * 1000, rl.limit, now);
        } else {
          err := Some(InvalidTimeValue);
        }
      }
    }

    /** `postTweet`: the length guard runs before the provider is called;
        after a successful post the `tweets/create` quota is written through
        and the tweet is cached under its id with the content that was sent. */
    method PostTweet(content: string, provider: Result<TweetResponse, string>, now: string)
      returns (r: Result<PostedTweet, string>, providerCalled: bool)
      modifies this
      ensures providerCalled <==> |content| <= MaxTweetLength
      ensures !providerCalled ==>
                r == Failure(TweetTooLong) && rateLimits == old(rateLimits) && postedTweets == old(postedTweets)
      ensures providerCalled && provider.Failure? ==>
                r == Failure(PostFailedPrefix + provider.error) &&
                rateLimits == old(rateLimits) && postedTweets == old(postedTweets)
      ensures providerCalled && provider.Success? ==>
                var tweet := provider.value;
                match RecordQuota(old(rateLimits), CreateEndpoint, tweet.rateLimit, now)
                case Failure(e) =>
                  r == Failure(PostFailedPrefix + e) &&
                  rateLimits == old(rateLimits) && postedTweets == old(postedTweets)
                case Success(t) =>
                  r == Success(PostedTweet(tweet.id, tweet.text)) &&
                  rateLimits == t && postedTweets == CacheTweet(old(postedTweets), tweet.id, content, now)
    {
      if |content| > MaxTweetLength {
        return Failure(TweetTooLong), false;
      }
      providerCalled := true;
      match provider
      case Failure(e) =>
        r := Failure(PostFailedPrefix + e);
      case Success(tweet) =>
        var err := WriteThrough(CreateEndpoint, tweet.rateLimit, now);
        if err.Some? {
          r := Failure(PostFailedPrefix + err.value);
        } else {
          postedTweets := CacheTweet(postedTweets, tweet.id, content, now);
          r := Success(PostedTweet(tweet.id, tweet.text));
        }
    }

    /** `replyToTweet`: the same guard and `tweets/create` write-through as
        a post; the frame shows it never touches `posted_tweets`. */
    method ReplyToTweet(tweetId: string, content: string, provider: Result<TweetResponse, string>, now: string)
      returns (r: Result<PostedTweet, string>, providerCalled: bool)
      modifies this`rateLimits
      ensures providerCalled <==> |content| <= MaxTweetLength
      ensures !providerCalled ==> r == Failure(ReplyTooLong) && rateLimits == old(rateLimits)
      ensures providerCalled && provider.Failure? ==>
                r == Failure(ReplyFailedPrefix + provider.error) && rateLimits == old(rateLimits)
      ensures providerCalled && provider.Success? ==>
                var reply := provider.value;
                match RecordQuota(old(rateLimits), CreateEndpoint, reply.rateLimit, now)
                case Failure(e) => r == Failure(ReplyFailedPrefix + e) && rateLimits == old(rateLimits)
                case Success(t) => r == Success(PostedTweet(reply.id, reply.text)) && rateLimits == t
    {
      if |content| > MaxTweetLength {
        return Failure(ReplyTooLong), false;
      }
      providerCalled := true;
      match provider
      case Failure(e) =>
        r := Failure(ReplyFailedPrefix + e);
      case Success(reply) =>
        var err := WriteThrough(CreateEndpoint, reply.rateLimit, now);
        r := if err.Some? then Failure(ReplyFailedPrefix + err.value) else Success(PostedTweet(reply.id, reply.text));
    }

    /** Shared body of `getMyTweets` and `getMentions`: request
        `min(limit, 100)` items, write the endpoint's quota through, and
        answer the listed tweets or the empty list. */
    method FetchPage(endpoint: string, failPrefix: string, limit: int, provider: Result<PageResponse, string>, now: string)
      returns (r: Result<seq<Tweet>, string>, pageSize: int)
      modifies this`rateLimits
      ensures pageSize == ClampPageSize(limit)
      ensures provider.Failure? ==> r == Failure(failPrefix + provider.error) && rateLimits == old(rateLimits)
      ensures provider.Success? ==>
                var page := provider.value;
                match RecordQuota(old(rateLimits), endpoint, page.rateLimit, now)
                case Failure(e) => r == Failure(failPrefix + e) && rateLimits == old(rateLimits)
                case Success(t) => r == Success(page.data.GetOr([])) && rateLimits == t
    {
      pageSize := ClampPageSize(limit);
      match provider
      case Failure(e) =>
        r := Failure(failPrefix + e);
      case Success(page) =>
        var err := WriteThrough(endpoint, page.rateLimit, now);
        r := if err.Some? then Failure(failPrefix + err.value) else Success(page.data.GetOr([]));
    }

    /** `getMyTweets`: a timeline page, quota under `users/:id/tweets`. */
    method GetMyTweets(provider: Result<PageResponse, string>, now: string, limit: int := 10)
      returns (r: Result<seq<Tweet>, string>, pageSize: int)
      modifies this`rateLimits
      ensures pageSize == ClampPageSize(limit)
      ensures provider.Failure? ==> r == Failure(TweetsFailedPrefix + provider.error) && rateLimits == old(rateLimits)
      ensures provider.Success? ==>
                var page := provider.value;
                match RecordQuota(old(rateLimits), TimelineEndpoint, page.rateLimit, now)
                case Failure(e) => r == Failure(TweetsFailedPrefix + e) && rateLimits == old(rateLimits)
                case Success(t) => r == Success(page.data.GetOr([])) && rateLimits == t
    {
      r, pageSize := FetchPage(TimelineEndpoint, TweetsFailedPrefix, limit, provider, now);
    }

    /** `getMentions`: a search page, quota under `tweets/search/recent`. */
    method GetMentions(provider: Result<PageResponse, string>, now: string, limit: int := 20)
      returns (r: Result<seq<Tweet>, string>, pageSize: int)
      modifies this`rateLimits
      ensures pageSize == ClampPageSize(limit)
      ensures provider.Failure? ==> r == Failure(MentionsFailedPrefix + provider.error) && rateLimits == old(rateLimits)
      ensures provider.Success? ==>
                var page := provider.value;
                match RecordQuota(old(rateLimits), SearchEndpoint, page.rateLimit, now)
                case Failure(e) => r == Failure(MentionsFailedPrefix + e) && rateLimits == old(rateLimits)
                case Success(t) => r == Success(page.data.GetOr([])) && rateLimits == t
    {
      r, pageSize := FetchPage(SearchEndpoint, MentionsFailedPrefix, limit, provider, now);
    }

    /** `getRateLimitStatus`: every stored row, and the live snapshot when
        the lookup exists and answers; a missing or throwing lookup gives
        `live: null` and never an error. */
    function GetRateLimitStatus(lookup: LiveLookup): (r: RateLimitStatus)
      reads this
      ensures r.stored == rateLimits
      ensures r.live.Some? <==> lookup.Returned?
      ensures lookup.Returned? ==> r.live == Some(lookup.snapshot)
    {
      match lookup
      case Returned(snapshot) => RateLimitStatus(rateLimits, Some(snapshot))
      case _ => RateLimitStatus(rateLimits, None)
    }
  }
}
