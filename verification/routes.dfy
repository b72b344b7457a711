/**
 * The POST handlers of /api/tweets/post, /api/tweets/reply and
 * /api/ai/generate-reply: an ordered chain of checks that either answers
 * 400 or hands the request to the core. `call` records the arguments the
 * core is called with (None when it is not called); `outcome` is what the
 * core returns or throws when it is called.
 */
module Routes {
  import opened Wrappers
  import opened JsValue
  import opened Http
  import XApi

  const TweetContentRequired := "Tweet content is required"
  const TweetTooLong := "Tweet content exceeds 280 characters"
  const TweetIdRequired := "Tweet ID is required"
  const ReplyContentRequired := "Reply content is required"
  const ReplyTooLong := "Reply content exceeds 280 characters"
  const OriginalTweetRequired := "Original tweet is required"
  const PostFallback := "Failed to post tweet"
  const ReplyFallback := "Failed to reply to tweet"
  const GenerateFallback := "Failed to generate reply suggestions"
  const DefaultNumSuggestions := 2

  datatype Handled<A> = Handled(response: Response, call: Option<A>)

  /** Content the post and reply routes let through: a non-empty string of
      at most 280 characters. */
  predicate AcceptedContent(v: Value) {
    v.Str? && 0 < |v.s| <= XApi.MaxTweetLength
  }

  /** POST /api/tweets/post. */
  function PostTweetRoute(body: Body, outcome: Result<XApi.PostedTweet, string>): (h: Handled<string>)
    ensures h.call.Some? <==> AcceptedContent(Field(body, "content"))
    ensures h.call.Some? ==> h.call.value == Field(body, "content").s
    ensures h.call.None? ==> h.response.status == BadRequest
    ensures !IsNonEmptyString(Field(body, "content")) ==> h.response == Response(BadRequest, ErrorBody(TweetContentRequired))
    ensures IsNonEmptyString(Field(body, "content")) && h.call.None? ==> h.response == Response(BadRequest, ErrorBody(TweetTooLong))
    ensures h.call.Some? && outcome.Success? ==> h.response == Response(Ok, TweetBody(outcome.value))
    ensures h.call.Some? && outcome.Failure? ==> h.response == ServerErrorResponse(outcome.error, PostFallback)
  {
    var content := Field(body, "content");
    if !IsNonEmptyString(content) then
      Handled(Response(BadRequest, ErrorBody(TweetContentRequired)), None)
    else if |content.s| > XApi.MaxTweetLength then
      Handled(Response(BadRequest, ErrorBody(TweetTooLong)), None)
    else
      var response := match outcome
        case Success(tweet) => Response(Ok, TweetBody(tweet))
        case Failure(e) => ServerErrorResponse(e, PostFallback);
      Handled(response, Some(content.s))
  }

  /** 280 characters is the longest post handed on; 281 is refused with a
      400 and the core is not called. */
  lemma PostLengthBoundary(s: string, outcome: Result<XApi.PostedTweet, string>)
    ensures |s| == 280 ==> PostTweetRoute(map["content" := Str(s)], outcome).call == Some(s)
    ensures |s| == 281 ==> PostTweetRoute(map["content" := Str(s)], outcome) ==
                           Handled(Response(BadRequest, ErrorBody(TweetTooLong)), None)
  {
  }

  /** POST /api/tweets/reply: the tweet id is checked before the content. */
  function ReplyRoute(body: Body, outcome: Result<XApi.PostedTweet, string>): (h: Handled<(string, string)>)
    ensures h.call.Some? <==> IsNonEmptyString(Field(body, "tweetId")) && AcceptedContent(Field(body, "content"))
    ensures h.call.Some? ==> h.call.value == (Field(body, "tweetId").s, Field(body, "content").s)
    ensures h.call.None? ==> h.response.status == BadRequest
    ensures !IsNonEmptyString(Field(body, "tweetId")) ==> h.response == Response(BadRequest, ErrorBody(TweetIdRequired))
    ensures IsNonEmptyString(Field(body, "tweetId")) && !IsNonEmptyString(Field(body, "content")) ==>
              h.response == Response(BadRequest, ErrorBody(ReplyContentRequired))
    ensures IsNonEmptyString(Field(body, "tweetId")) && IsNonEmptyString(Field(body, "content")) && h.call.None? ==>
              h.response == Response(BadRequest, ErrorBody(ReplyTooLong))
    ensures h.call.Some? && outcome.Success? ==> h.response == Response(Ok, ReplyBody(outcome.value))
    ensures h.call.Some? && outcome.Failure? ==> h.response == ServerErrorResponse(outcome.error, ReplyFallback)
  {
    var tweetId := Field(body, "tweetId");
    var content := Field(body, "content");
    if !IsNonEmptyString(tweetId) then
      Handled(Response(BadRequest, ErrorBody(TweetIdRequired)), None)
    else if !IsNonEmptyString(content) then
      Handled(Response(BadRequest, ErrorBody(ReplyContentRequired)), None)
    else if |content.s| > XApi.MaxTweetLength then
      Handled(Response(BadRequest, ErrorBody(ReplyTooLong)), None)
    else
      var response := match outcome
        case Success(reply) => Response(Ok, ReplyBody(reply))
        case Failure(e) => ServerErrorResponse(e, ReplyFallback);
      Handled(response, Some((tweetId.s, content.s)))
  }

  /** The arguments `generateReplySuggestions` receives from the route. */
  datatype GenerateCall = GenerateCall(originalTweet: Value, context: Value, numSuggestions: Value)

  /** `!originalTweet || !originalTweet.id || !originalTweet.text` is false. */
  predicate HasOriginalTweet(v: Value) {
    Truthy(v) && Truthy(Prop(v, "id")) && Truthy(Prop(v, "text"))
  }

  /** `numSuggestions || 2`. */
  function NumSuggestionsOrDefault(n: Value): (r: Value)
    ensures Truthy(r)
    ensures Truthy(n) ==> r == n
    ensures !Truthy(n) ==> r == Num(DefaultNumSuggestions)
  {
    if Truthy(n) then n else Num(DefaultNumSuggestions)
  }

  /** Every falsy count becomes 2: missing, null, 0, the empty string and
      false. */
  lemma NumSuggestionsFalsyDefaults()
    ensures NumSuggestionsOrDefault(Undefined) == Num(2)
    ensures NumSuggestionsOrDefault(Num(0)) == Num(2)
    ensures NumSuggestionsOrDefault(Null) == Num(2)
    ensures NumSuggestionsOrDefault(Str("")) == Num(2)
    ensures NumSuggestionsOrDefault(Bool(false)) == Num(2)
  {
  }

  /** POST /api/ai/generate-reply. */
  function GenerateReplyRoute(body: Body, outcome: Result<seq<string>, string>): (h: Handled<GenerateCall>)
    ensures h.call.Some? <==> HasOriginalTweet(Field(body, "originalTweet"))
    ensures h.call.None? ==> h.response == Response(BadRequest, ErrorBody(OriginalTweetRequired))
    ensures h.call.Some? ==>
              h.call.value.originalTweet == Field(body, "originalTweet") &&
              h.call.value.context == Field(body, "context") &&
              h.call.value.numSuggestions == NumSuggestionsOrDefault(Field(body, "numSuggestions"))
    ensures h.call.Some? && outcome.Success? ==> h.response == Response(Ok, SuggestionsBody(outcome.value))
    ensures h.call.Some? && outcome.Failure? ==> h.response == ServerErrorResponse(outcome.error, GenerateFallback)
  {
    var originalTweet := Field(body, "originalTweet");
    if !HasOriginalTweet(originalTweet) then
      Handled(Response(BadRequest, ErrorBody(OriginalTweetRequired)), None)
    else
      var call := GenerateCall(originalTweet, Field(body, "context"),
                               NumSuggestionsOrDefault(Field(body, "numSuggestions")));
      var response := match outcome
        case Success(suggestions) => Response(Ok, SuggestionsBody(suggestions))
        case Failure(e) => ServerErrorResponse(e, GenerateFallback);
      Handled(response, Some(call))
  }

  /** An original tweet whose id or text is the empty string is refused
      like a missing one. */
  lemma GenerateRefusesEmptyIdOrText(id: Value, text: Value, outcome: Result<seq<string>, string>)
    requires id == Str("") || text == Str("")
    ensures var body := map["originalTweet" := Obj(map["id" := id, "text" := text])];
            GenerateReplyRoute(body, outcome) == Handled(Response(BadRequest, ErrorBody(OriginalTweetRequired)), None)
  {
    var ot := Obj(map["id" := id, "text" := text]);
    assert Prop(ot, "id") == id && Prop(ot, "text") == text;
  }
}
