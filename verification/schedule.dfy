/**
 * /api/tweets/schedule: POST validates and appends a `pending` row to
 * `scheduled_tweets`; GET lists every row ordered by `scheduled_for`.
 */
module Schedule {
  import opened Wrappers
  import opened JsValue
  import opened Http
  import XApi

  const TweetContentRequired := "Tweet content is required"
  const ScheduledTimeRequired := "Scheduled time is required"
  const TweetTooLong := "Tweet content exceeds 280 characters"
  const ScheduleFallback := "Failed to schedule tweet"

  /** The chain of guard returns: the first failing check's message, or
      None when the request may be inserted. */
  function ScheduleCheck(body: Body): (r: Option<string>)
    ensures r.None? <==> IsNonEmptyString(Field(body, "content")) &&
                         |Field(body, "content").s| <= XApi.MaxTweetLength &&
                         Truthy(Field(body, "scheduledFor"))
    ensures !IsNonEmptyString(Field(body, "content")) ==> r == Some(TweetContentRequired)
    ensures IsNonEmptyString(Field(body, "content")) && !Truthy(Field(body, "scheduledFor")) ==>
              r == Some(ScheduledTimeRequired)
    ensures (IsNonEmptyString(Field(body, "content")) && Truthy(Field(body, "scheduledFor")) &&
             |Field(body, "content").s| > XApi.MaxTweetLength) ==> r == Some(TweetTooLong)
  {
    var content := Field(body, "content");
    if !IsNonEmptyString(content) then Some(TweetContentRequired)
    else if !Truthy(Field(body, "scheduledFor")) then Some(ScheduledTimeRequired)
    else if |content.s| > XApi.MaxTweetLength then Some(TweetTooLong)
    else None
  }

  /** Any truthy `scheduledFor` passes the checks: it is not parsed as a
      date. */
  lemma AnyTruthyTimePasses(content: string, when: Value)
    requires 0 < |content| <= 280 && Truthy(when)
    ensures ScheduleCheck(map["content" := Str(content), "scheduledFor" := when]) == None
  {
    var body := map["content" := Str(content), "scheduledFor" := when];
    assert Field(body, "content") == Str(content) && Field(body, "scheduledFor") == when;
  }

  /** Content is checked before the time: a request missing both is told
      about the content. */
  lemma ContentCheckedFirst(when: Value)
    ensures ScheduleCheck(map["scheduledFor" := when]) == Some(TweetContentRequired)
    ensures ScheduleCheck(map["content" := Str(""), "scheduledFor" := when]) == Some(TweetContentRequired)
  {
    assert Field(map["scheduledFor" := when], "content") == Undefined;
    assert Field(map["content" := Str(""), "scheduledFor" := when], "content") == Str("");
  }

  // ---- ORDER BY scheduled_for ASC ----

  /** SQLite's BINARY collation on TEXT: lexicographic by code point. */
  predicate TextLeq(a: string, b: string) {
    |a| == 0 || (|b| > 0 && (a[0] < b[0] || (a[0] == b[0] && TextLeq(a[1..], b[1..]))))
  }

  lemma {:induction false} TextLeqReflexive(a: string)
    ensures TextLeq(a, a)
  {
    if |a| > 0 {
      TextLeqReflexive(a[1..]);
    }
  }

  lemma {:induction false} TextLeqTotal(a: string, b: string)
    ensures TextLeq(a, b) || TextLeq(b, a)
  {
    if |a| > 0 && |b| > 0 && a[0] == b[0] {
      TextLeqTotal(a[1..], b[1..]);
    }
  }

  lemma {:induction false} TextLeqTransitive(a: string, b: string, c: string)
    requires TextLeq(a, b) && TextLeq(b, c)
    ensures TextLeq(a, c)
  {
    if |a| > 0 && a[0] == b[0] && b[0] == c[0] {
      TextLeqTransitive(a[1..], b[1..], c[1..]);
    }
  }

  lemma {:induction false} TextLeqAntisymmetric(a: string, b: string)
    requires TextLeq(a, b) && TextLeq(b, a)
    ensures a == b
  {
    if |a| > 0 {
      TextLeqAntisymmetric(a[1..], b[1..]);
      assert a == [a[0]] + a[1..] && b == [b[0]] + b[1..];
    }
  }

  /** Ascending by `scheduled_for`, every pair. */
  ghost predicate SortedByTime(s: seq<ScheduledRow>) {
    forall i, j :: 0 <= i < j < |s| ==> TextLeq(s[i].scheduledFor, s[j].scheduledFor)
  }

  /** Places `r` before the first row it does not come after. */
  function InsertByTime(r: ScheduledRow, s: seq<ScheduledRow>): (t: seq<ScheduledRow>)
    ensures multiset(t) == multiset(s) + multiset{r}
    ensures |t| == |s| + 1
  {
    if s == [] || TextLeq(r.scheduledFor, s[0].scheduledFor) then [r] + s
    else
      assert s == [s[0]] + s[1..];
      [s[0]] + InsertByTime(r, s[1..])
  }

  /** Putting a row no later than every row in front of a sorted list
      keeps it sorted. */
  lemma ConsSorted(x: ScheduledRow, rest: seq<ScheduledRow>)
    requires SortedByTime(rest)
    requires forall j :: 0 <= j < |rest| ==> TextLeq(x.scheduledFor, rest[j].scheduledFor)
    ensures SortedByTime([x] + rest)
  {
    var t := [x] + rest;
    forall i, j | 0 <= i < j < |t|
      ensures TextLeq(t[i].scheduledFor, t[j].scheduledFor)
    {
      if i == 0 {
        assert t[j] == rest[j - 1];
      } else {
        assert t[i] == rest[i - 1] && t[j] == rest[j - 1];
      }
    }
  }

  /** A row no later than the head of a sorted list is no later than any
      of its rows. */
  lemma HeadBoundsAll(x: ScheduledRow, s: seq<ScheduledRow>)
    requires SortedByTime(s) && s != [] && TextLeq(x.scheduledFor, s[0].scheduledFor)
    ensures forall j :: 0 <= j < |s| ==> TextLeq(x.scheduledFor, s[j].scheduledFor)
  {
    forall j | 0 < j < |s| ensures TextLeq(x.scheduledFor, s[j].scheduledFor) {
      TextLeqTransitive(x.scheduledFor, s[0].scheduledFor, s[j].scheduledFor);
    }
  }

  /** A lower bound of a list and of a row bounds the list with the row
      inserted. */
  lemma InsertKeepsLowerBound(x: ScheduledRow, r: ScheduledRow, s: seq<ScheduledRow>)
    requires TextLeq(x.scheduledFor, r.scheduledFor)
    requires forall k :: 0 <= k < |s| ==> TextLeq(x.scheduledFor, s[k].scheduledFor)
    ensures forall j :: 0 <= j < |InsertByTime(r, s)| ==> TextLeq(x.scheduledFor, InsertByTime(r, s)[j].scheduledFor)
  {
    var t := InsertByTime(r, s);
    forall j | 0 <= j < |t|
      ensures TextLeq(x.scheduledFor, t[j].scheduledFor)
    {
      assert t[j] in multiset(t);
      if t[j] != r {
        assert t[j] in multiset(s);
        var k :| 0 <= k < |s| && s[k] == t[j];
      }
    }
  }

  lemma {:induction false} InsertByTimeSorted(r: ScheduledRow, s: seq<ScheduledRow>)
    requires SortedByTime(s)
    ensures SortedByTime(InsertByTime(r, s))
  {
    if s == [] || TextLeq(r.scheduledFor, s[0].scheduledFor) {
      if s != [] {
        HeadBoundsAll(r, s);
      }
      ConsSorted(r, s);
    } else {
      TextLeqTotal(r.scheduledFor, s[0].scheduledFor);
      InsertByTimeSorted(r, s[1..]);
      forall k | 0 <= k < |s[1..]| ensures TextLeq(s[0].scheduledFor, s[1..][k].scheduledFor) {
        assert s[1..][k] == s[k + 1];
      }
      InsertKeepsLowerBound(s[0], r, s[1..]);
      var rest := InsertByTime(r, s[1..]);
      assert forall j :: 0 <= j < |rest| ==> TextLeq(s[0].scheduledFor, rest[j].scheduledFor);
      ConsSorted(s[0], rest);
    }
  }

  /** The rows in `scheduled_for` order; rows with the same time keep
      their table order. */
  function SortByTime(s: seq<ScheduledRow>): (t: seq<ScheduledRow>)
    ensures multiset(t) == multiset(s)
  {
    if s == [] then []
    else
      assert s == [s[0]] + s[1..];
      InsertByTime(s[0], SortByTime(s[1..]))
  }

  lemma {:induction false} SortByTimeSorted(s: seq<ScheduledRow>)
    ensures SortedByTime(SortByTime(s))
  {
    if s != [] {
      SortByTimeSorted(s[1..]);
      InsertByTimeSorted(s[0], SortByTime(s[1..]));
    }
  }

  /** The `scheduled_tweets` table. */
  class ScheduledTweetsTable {
    var rows: seq<ScheduledRow>
    var nextId: nat

    /** Ids are assigned in increasing order and are below `nextId`. */
    ghost predicate Valid()
      reads this
    {
      (forall i, j :: 0 <= i < j < |rows| ==> rows[i].id < rows[j].id) &&
      (forall i :: 0 <= i < |rows| ==> rows[i].id < nextId)
    }

    constructor()
      ensures Valid() && rows == [] && nextId == 1
    {
      rows := [];
      nextId := 1;
    }

    /** POST. `stored` is the text the driver writes for `scheduledFor`
        (a string is stored as itself) or the error binding it throws. */
    method Post(body: Body, stored: Result<string, string>) returns (response: Response)
      requires Valid()
      requires Field(body, "scheduledFor").Str? ==> stored == Success(Field(body, "scheduledFor").s)
      modifies this
      ensures Valid()
      ensures ScheduleCheck(body).Some? ==>
                response == Response(BadRequest, ErrorBody(ScheduleCheck(body).value)) &&
                rows == old(rows) && nextId == old(nextId)
      ensures ScheduleCheck(body).None? && stored.Failure? ==>
                response == ServerErrorResponse(stored.error, ScheduleFallback) &&
                rows == old(rows) && nextId == old(nextId)
      ensures ScheduleCheck(body).None? && stored.Success? ==>
                var content := Field(body, "content").s;
                rows == old(rows) + [ScheduledRow(old(nextId), content, stored.value, SchedPending, None, None)] &&
                nextId == old(nextId) + 1 &&
                response == Response(Ok, ScheduledBody(old(nextId), content, Field(body, "scheduledFor"), SchedPending))
    {
      var check := ScheduleCheck(body);
      if check.Some? {
        return Response(BadRequest, ErrorBody(check.value));
      }
      match stored
      case Failure(e) =>
        response := ServerErrorResponse(e, ScheduleFallback);
      case Success(text) =>
        var content := Field(body, "content").s;
        var id := nextId;
        rows := rows + [ScheduledRow(id, content, text, SchedPending, None, None)];
        nextId := nextId + 1;
        response := Response(Ok, ScheduledBody(id, content, Field(body, "scheduledFor"), SchedPending));
    }

    /** GET. */
    function Get(): (r: Response)
      reads this
      ensures r.status == Ok && r.body.ScheduledListBody?
      ensures multiset(r.body.scheduledTweets) == multiset(rows)
      ensures SortedByTime(r.body.scheduledTweets)
    {
      SortByTimeSorted(rows);
      Response(Ok, ScheduledListBody(SortByTime(rows)))
    }
  }

  /** A row appended by a POST shows up in the next GET. */
  lemma PostedRowListed(t: ScheduledTweetsTable, row: ScheduledRow, before: seq<ScheduledRow>)
    requires t.rows == before + [row]
    ensures row in t.Get().body.scheduledTweets
  {
    assert row in multiset(t.rows);
  }
}
