/** The JSON responses the route handlers answer with. */
module Http {
  import opened Wrappers
  import opened JsValue
  import XApi

  datatype ScheduleStatus = SchedPending | SchedPosted | SchedFailed

  /** A `scheduled_tweets` row; `id` is the autoincrement key and
      `scheduledFor` the text the TEXT column holds. The `created_at` and
      `updated_at` timestamps are not part of this model. */
  datatype ScheduledRow = ScheduledRow(id: nat, content: string, scheduledFor: string,
                                       status: ScheduleStatus, postedAt: Option<string>,
                                       tweetId: Option<string>)

  datatype ResponseBody =
    | ErrorBody(error: string)                          // { error }
    | TweetBody(tweet: XApi.PostedTweet)                // { success: true, tweet: { id, text } }
    | ReplyBody(reply: XApi.PostedTweet)                // { success: true, reply: { id, text } }
    | SuggestionsBody(suggestions: seq<string>)         // { success: true, suggestions }
    | ScheduledBody(id: nat, content: string, scheduledFor: Value, status: ScheduleStatus)
                                                        // { success: true, scheduledTweet }
    | ScheduledListBody(scheduledTweets: seq<ScheduledRow>)
                                                        // { success: true, scheduledTweets }

  datatype Response = Response(status: nat, body: ResponseBody)

  const Ok := 200
  const BadRequest := 400
  const ServerError := 500

  /** `{ error: message || fallback }` with status 500. */
  function ServerErrorResponse(message: string, fallback: string): Response {
    Response(ServerError, ErrorBody(if message != "" then message else fallback))
  }
}
