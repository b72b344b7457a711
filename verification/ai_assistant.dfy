/**
 * The reply-suggestion recorder: parses a completion with
 * SuggestionParser, records one `pending` row of `ai_replies` per accepted
 * suggestion, and reads pending or posted rows back newest first. The
 * language-model call is an input: the completion text it returned, or the
 * message of the error it threw.
 */
module AiAssistant {
  import opened Wrappers
  import opened SuggestionParser

  const GenerateFailedPrefix := "Failed to generate reply suggestions: "
  const NoValidSuggestions := "No valid suggestions generated"
  const SuggestionsPageLimit := 50

  datatype ReplyStatus = Pending | Posted

  /** An `ai_replies` row; `id` is the autoincrement key, so it follows
      creation order. */
  datatype AiReply = AiReply(id: nat, originalTweetId: string, originalContent: string,
                             suggestedReply: string, status: ReplyStatus, postedAt: Option<string>)

  datatype OriginalTweet = OriginalTweet(id: string, text: string, author: Option<string>)

  /** Ids strictly increase along the table. */
  ghost predicate IdsAscending(rows: seq<AiReply>) {
    forall i, j :: 0 <= i < j < |rows| ==> rows[i].id < rows[j].id
  }

  /** The rows the insert loop adds for `suggestions`, ids from `firstId`. */
  function PendingRows(firstId: nat, tweet: OriginalTweet, suggestions: seq<string>): (rows: seq<AiReply>)
    ensures |rows| == |suggestions|
  {
    seq(|suggestions|, i requires 0 <= i < |suggestions| =>
      AiReply(firstId + i, tweet.id, tweet.text, suggestions[i], Pending, None))
  }

  /** Rows with `status`, last inserted first. */
  function NewestWithStatus(rows: seq<AiReply>, status: ReplyStatus): (r: seq<AiReply>)
    ensures |r| <= |rows|
  {
    if rows == [] then []
    else
      var last := rows[|rows| - 1];
      (if last.status == status then [last] else []) + NewestWithStatus(rows[..|rows| - 1], status)
  }

  /** Exactly the rows with the requested status appear. */
  lemma {:induction false} NewestWithStatusMembers(rows: seq<AiReply>, status: ReplyStatus)
    ensures forall x :: x in NewestWithStatus(rows, status) <==> x in rows && x.status == status
  {
    if rows != [] {
      var init := rows[..|rows| - 1];
      NewestWithStatusMembers(init, status);
      assert rows == init + [rows[|rows| - 1]];
    }
  }

  /** Every id of a table with ascending ids is below the id of the row
      after it. */
  lemma LastIdBoundsInit(rows: seq<AiReply>, status: ReplyStatus)
    requires rows != [] && IdsAscending(rows)
    ensures IdsAscending(rows[..|rows| - 1])
    ensures forall x :: x in NewestWithStatus(rows[..|rows| - 1], status) ==> x.id < rows[|rows| - 1].id
  {
    var init := rows[..|rows| - 1];
    NewestWithStatusMembers(init, status);
    forall x | x in NewestWithStatus(init, status) ensures x.id < rows[|rows| - 1].id {
      var k :| 0 <= k < |init| && init[k] == x;
    }
  }

  /** Putting a row with a larger id in front of a list in strictly
      descending id order keeps the order. */
  lemma PrependLargerId(last: AiReply, tail: seq<AiReply>)
    requires forall i, j :: 0 <= i < j < |tail| ==> tail[i].id > tail[j].id
    requires forall x :: x in tail ==> x.id < last.id
    ensures var r := [last] + tail;
            forall i, j :: 0 <= i < j < |r| ==> r[i].id > r[j].id
  {
    var r := [last] + tail;
    forall i, j | 0 <= i < j < |r| ensures r[i].id > r[j].id {
      if i == 0 {
        assert r[j] == tail[j - 1];
        assert r[j] in tail;
      } else {
        assert r[i] == tail[i - 1] && r[j] == tail[j - 1];
      }
    }
  }

  /** With ascending ids the rows come out in strictly descending id order. */
  lemma {:induction false} NewestWithStatusDescending(rows: seq<AiReply>, status: ReplyStatus)
    requires IdsAscending(rows)
    ensures forall i, j :: 0 <= i < j < |NewestWithStatus(rows, status)| ==>
              NewestWithStatus(rows, status)[i].id > NewestWithStatus(rows, status)[j].id
  {
    if rows != [] {
      var init := rows[..|rows| - 1];
      var last := rows[|rows| - 1];
      LastIdBoundsInit(rows, status);
      NewestWithStatusDescending(init, status);
      if last.status == status {
        PrependLargerId(last, NewestWithStatus(init, status));
      }
    }
  }

  /** The `ai_replies` table. */
  class AiRepliesTable {
    var rows: seq<AiReply>
    var nextId: nat

    ghost predicate Valid()
      reads this
    {
      IdsAscending(rows) && forall i :: 0 <= i < |rows| ==> rows[i].id < nextId
    }

    constructor ()
      ensures Valid() && rows == []
    {
      rows := [];
      nextId := 1;
    }

    /** One INSERT of a `pending` row. */
    method Insert(tweetId: string, originalContent: string, suggestedReply: string)
      requires Valid()
      modifies this
      ensures Valid()
      ensures rows == old(rows) + [AiReply(old(nextId), tweetId, originalContent, suggestedReply, Pending, None)]
      ensures nextId == old(nextId) + 1
    {
      rows := rows + [AiReply(nextId, tweetId, originalContent, suggestedReply, Pending, None)];
      nextId := nextId + 1;
    }

    /** `saveAISuggestion`: appends exactly one pending row. */
    method SaveAISuggestion(tweetId: string, originalContent: string, suggestedReply: string)
      requires Valid()
      modifies this
      ensures Valid()
      ensures rows == old(rows) + [AiReply(old(nextId), tweetId, originalContent, suggestedReply, Pending, None)]
    {
      Insert(tweetId, originalContent, suggestedReply);
    }

    /** `generateReplySuggestions` after the completion: a thrown call or an
        empty parse fails with the common prefix and records nothing; a
        non-empty parse records one pending row per suggestion, in order,
        each carrying the original tweet's id and text, and returns the
        suggestions. `completion` is the message content (absent content
        reads as the empty string) or the message of the error thrown. */
    method GenerateReplySuggestions(tweet: OriginalTweet, completion: Result<Option<string>, string>,
                                    numSuggestions: int := 2)
      returns (r: Result<seq<string>, string>)
      requires Valid()
      modifies this
      ensures Valid()
      ensures completion.Failure? ==>
                r == Failure(GenerateFailedPrefix + completion.error) && rows == old(rows)
      ensures completion.Success? ==>
                var suggestions := ParseSuggestions(completion.value.GetOr(""), numSuggestions);
                if suggestions == [] then
                  r == Failure(GenerateFailedPrefix + NoValidSuggestions) && rows == old(rows)
                else
                  r == Success(suggestions) &&
                  rows == old(rows) + PendingRows(old(nextId), tweet, suggestions)
    {
      if completion.Failure? {
        return Failure(GenerateFailedPrefix + completion.error);
      }
      var suggestions := ParseSuggestions(completion.value.GetOr(""), numSuggestions);
      if suggestions == [] {
        return Failure(GenerateFailedPrefix + NoValidSuggestions);
      }
      var i := 0;
      while i < |suggestions|
        invariant 0 <= i <= |suggestions|
        invariant Valid()
        invariant nextId == old(nextId) + i
        invariant rows == old(rows) + PendingRows(old(nextId), tweet, suggestions[..i])
      {
        Insert(tweet.id, tweet.text, suggestions[i]);
        assert PendingRows(old(nextId), tweet, suggestions[..i + 1])
            == PendingRows(old(nextId), tweet, suggestions[..i]) +
               [AiReply(old(nextId) + i, tweet.id, tweet.text, suggestions[i], Pending, None)];
        i := i + 1;
      }
      assert suggestions[..i] == suggestions;
      r := Success(suggestions);
    }

    /** `getAISuggestions`: the rows with the requested status, newest
        first (creation order is id order): all of them when there are at
        most 50, otherwise the 50 newest. */
    function GetAISuggestions(status: ReplyStatus := Pending): (r: seq<AiReply>)
      requires Valid()
      reads this
      ensures |r| == if |NewestWithStatus(rows, status)| <= SuggestionsPageLimit
                     then |NewestWithStatus(rows, status)| else SuggestionsPageLimit
      ensures forall x :: x in r ==> x in rows && x.status == status
      ensures forall i, j :: 0 <= i < j < |r| ==> r[i].id > r[j].id
      ensures forall x, y :: x in rows && x.status == status && x !in r && y in r ==> y.id > x.id
    {
      var all := NewestWithStatus(rows, status);
      NewestWithStatusMembers(rows, status);
      NewestWithStatusDescending(rows, status);
      var n := if |all| <= SuggestionsPageLimit then |all| else SuggestionsPageLimit;
      PrefixIsNewest(all, n);
      assert all[..n] == if |all| <= SuggestionsPageLimit then all else all[..SuggestionsPageLimit];
      if |all| <= SuggestionsPageLimit then all else all[..SuggestionsPageLimit]
    }
  }

  /** A prefix of a list in strictly descending id order holds rows newer
      than every row it leaves out. */
  lemma PrefixIsNewest(all: seq<AiReply>, n: nat)
    requires n <= |all|
    requires forall i, j :: 0 <= i < j < |all| ==> all[i].id > all[j].id
    ensures forall x, y :: x in all && x !in all[..n] && y in all[..n] ==> y.id > x.id
  {
    forall x, y | x in all && x !in all[..n] && y in all[..n]
      ensures y.id > x.id
    {
      var k :| 0 <= k < |all| && all[k] == x;
      var i :| 0 <= i < n && all[..n][i] == y;
      assert forall m :: 0 <= m < n ==> all[m] == all[..n][m];
      assert n <= k;
      assert all[i] == y;
    }
  }

  /** When at most 50 rows carry the status, `getAISuggestions` returns
      every one of them. */
  lemma GetAllWhenFew(t: AiRepliesTable, status: ReplyStatus, x: AiReply)
    requires t.Valid()
    requires |NewestWithStatus(t.rows, status)| <= SuggestionsPageLimit
    requires x in t.rows && x.status == status
    ensures x in t.GetAISuggestions(status)
  {
    NewestWithStatusMembers(t.rows, status);
  }
}
