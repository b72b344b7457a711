/**
 * The dashboard's rate-limit panel: the rows it keeps, which of them it
 * shows, and how each row's usage is classified.
 */
module RateLimitDisplay {
  import opened Wrappers
  import XApi

  /** A stored quota row as the rate-limits route returns it. */
  datatype DisplayedLimit = DisplayedLimit(endpoint: string, remaining: int, resetAt: string, limitTotal: int)

  /** A JavaScript number produced by `(total - remaining) / total * 100`:
      finite, or one of the special values a zero total gives. */
  datatype Usage = Finite(value: real) | PosInfinity | NegInfinity | NaN

  /** `getUsagePercentage(remaining, total)`, in exact arithmetic. */
  function UsagePercentage(remaining: int, total: int): (u: Usage)
    ensures total != 0 ==> u.Finite? && u.value * (total as real) == ((total - remaining) as real) * 100.0
    ensures total == 0 && remaining < 0 ==> u == PosInfinity
    ensures total == 0 && remaining > 0 ==> u == NegInfinity
    ensures total == 0 && remaining == 0 ==> u == NaN
  {
    if total != 0 then Finite((total - remaining) as real / total as real * 100.0)
    else if remaining < 0 then PosInfinity
    else if remaining > 0 then NegInfinity
    else NaN
  }

  datatype Status = Critical | Warning | Good

  /** `percentage >= 90` as a JavaScript comparison: false for NaN. */
  predicate AtLeast(u: Usage, bound: real) {
    match u
    case Finite(v) => v >= bound
    case PosInfinity => true
    case NegInfinity => false
    case NaN => false
  }

  /** `getStatusColor(percentage)`. */
  function StatusColor(u: Usage): (s: Status)
    ensures s == Critical <==> AtLeast(u, 90.0)
    ensures s == Warning <==> AtLeast(u, 70.0) && !AtLeast(u, 90.0)
    ensures s == Good <==> !AtLeast(u, 70.0)
  {
    if AtLeast(u, 90.0) then Critical
    else if AtLeast(u, 70.0) then Warning
    else Good
  }

  /** For a positive total the classification is integer arithmetic on the
      used count `total - remaining`. */
  lemma StatusIntegerForm(remaining: int, total: int)
    requires total > 0
    ensures StatusColor(UsagePercentage(remaining, total)) == Critical <==>
              100 * (total - remaining) >= 90 * total
    ensures StatusColor(UsagePercentage(remaining, total)) == Warning <==>
              70 * total <= 100 * (total - remaining) < 90 * total
    ensures StatusColor(UsagePercentage(remaining, total)) == Good <==>
              100 * (total - remaining) < 70 * total
  {
    var u := UsagePercentage(remaining, total);
    var t := total as real;
    var used := (total - remaining) as real;
    assert u.value * t == used * 100.0;
    ScaledCompare(u.value, t, used * 100.0, 90.0);
    ScaledCompare(u.value, t, used * 100.0, 70.0);
  }

  /** `v >= b` iff `v * t >= b * t` for a positive `t`. */
  lemma ScaledCompare(v: real, t: real, vt: real, b: real)
    requires t > 0.0 && v * t == vt
    ensures v >= b <==> vt >= b * t
  {
    if v >= b {
      assert (v - b) * t >= 0.0;
    } else {
      assert (b - v) * t > 0.0;
    }
  }

  /** A zero total: nothing remaining or something remaining shows `good`,
      a negative remaining count shows `critical`. */
  lemma ZeroTotalStatus(remaining: int)
    ensures StatusColor(UsagePercentage(remaining, 0)) == if remaining < 0 then Critical else Good
  {
  }

  /** The three endpoints the panel shows. */
  predicate IsRelevant(endpoint: string) {
    endpoint == XApi.CreateEndpoint || endpoint == XApi.SearchEndpoint || endpoint == XApi.TimelineEndpoint
  }

  /** `relevantLimits`: the filter, keeping order. */
  function RelevantLimits(rows: seq<DisplayedLimit>): (r: seq<DisplayedLimit>)
    ensures forall x :: x in r <==> x in rows && IsRelevant(x.endpoint)
    ensures |r| <= |rows|
  {
    if rows == [] then []
    else
      var rest := RelevantLimits(rows[1..]);
      assert forall x :: x in rows <==> x == rows[0] || x in rows[1..];
      if IsRelevant(rows[0].endpoint) then [rows[0]] + rest else rest
  }

  /** Filtering distributes over concatenation, so the kept rows stay in
      their original order. */
  lemma {:induction false} RelevantLimitsAppend(a: seq<DisplayedLimit>, b: seq<DisplayedLimit>)
    ensures RelevantLimits(a + b) == RelevantLimits(a) + RelevantLimits(b)
  {
    if a != [] {
      assert (a + b)[1..] == a[1..] + b;
      RelevantLimitsAppend(a[1..], b);
    } else {
      assert a + b == b;
    }
  }

  /** The label next to each card. */
  function EndpointLabel(endpoint: string): (shown: string)
    ensures !IsRelevant(endpoint) ==> shown == endpoint
    ensures IsRelevant(endpoint) ==> shown != endpoint
  {
    if endpoint == XApi.CreateEndpoint then "\U{1F4DD} Posts"
    else if endpoint == XApi.SearchEndpoint then "\U{1F50D} Search"
    else if endpoint == XApi.TimelineEndpoint then "\U{1F4CA} Timeline"
    else endpoint
  }

  /** What one poll of /api/rate-limits produced: the request or its JSON
      threw, or a body with `success` and `rateLimits.stored` (None when
      that field is absent or falsy; an empty array is truthy). */
  datatype FetchOutcome =
    | Threw
    | Received(success: bool, stored: Option<seq<DisplayedLimit>>)

  class RateLimitPanel {
    var rateLimits: seq<DisplayedLimit>
    var loading: bool

    constructor()
      ensures rateLimits == [] && loading
    {
      rateLimits := [];
      loading := true;
    }

    /** `fetchRateLimits()`: the list is replaced only by a successful body
        that carries `stored`; loading always ends. */
    method FetchRateLimits(outcome: FetchOutcome)
      modifies this
      ensures !loading
      ensures outcome.Received? && outcome.success && outcome.stored.Some? ==>
                rateLimits == outcome.stored.value
      ensures !(outcome.Received? && outcome.success && outcome.stored.Some?) ==>
                rateLimits == old(rateLimits)
    {
      if outcome.Received? && outcome.success && outcome.stored.Some? {
        rateLimits := outcome.stored.value;
      }
      loading := false;
    }
  }
}
