/** What Brave's rate-limit headers tell about one key, once parsed. */
module RateLimit {
  import opened Prelude
  import opened Text

  /** Two numbers, for the burst window and for the month, as far as they are known. */
  datatype Windows = Windows(second: Option<U64>, month: Option<U64>)

  datatype RateLimitInfo = RateLimitInfo(
    limit: Windows,
    remaining: Windows,
    reset: Windows,
    window: Windows,
    retryAfter: Option<U64>)
  {
    /** The monthly quota is used up; a monthly limit of 0 means there is none. */
    predicate MonthExhausted() {
      limit.month != Some(0) && remaining.month == Some(0)
    }

    /** The hold that a per-second 429 asks for, kept between one and sixty seconds. */
    function SecondWait(): nat {
      Max(1, Min(60, Max(reset.second.GetOr(1), retryAfter.GetOr(0)))) * SECOND
    }

    /** How far off the monthly reset is, when the response says so. */
    function MonthReset(): Option<nat> {
      match reset.month
      case None => None
      case Some(secs) => Some(secs * SECOND)
    }
  }

  // ----- parsing ---------------------------------------------------------------------------------------

  /** The number in front of any `;` parameters. */
  function LeadingNumber(part: string): Option<U64> {
    ParseU64(Trim(Split(Trim(part), ';')[0]))
  }

  /** The text after the first `w=` parameter. */
  function FirstWindowParameter(kvs: seq<string>): Option<string> {
    if kvs == [] then None else
      var kv := Trim(kvs[0]);
      if "w=" <= kv then Some(kv[2..]) else FirstWindowParameter(kvs[1..])
  }

  function WindowNumber(part: string): Option<U64> {
    match FirstWindowParameter(Split(part, ';'))
    case None => None
    case Some(w) => ParseU64(Trim(w))
  }

  /** The numbers in front of the first two parts, which commas separate. */
  function ParseWindows(v: string): Windows {
    var parts := Split(v, ',');
    Windows(LeadingNumber(parts[0]), if |parts| > 1 then LeadingNumber(parts[1]) else None)
  }

  /** The `w` parameters of the first two parts of a policy. */
  function ParsePolicyWindows(v: string): Windows {
    var parts := Split(v, ',');
    Windows(WindowNumber(parts[0]), if |parts| > 1 then WindowNumber(parts[1]) else None)
  }

  /** The header values of a response that bear on rate limits. */
  datatype Headers = Headers(
    limit: Option<string>,
    remaining: Option<string>,
    reset: Option<string>,
    policy: Option<string>,
    retryAfter: Option<string>)

  function WindowsOf(h: Option<string>): Windows {
    if h.Some? then ParseWindows(h.value) else Windows(None, None)
  }

  /** Nothing is known from a response without any X-RateLimit header. */
  function FromHeaders(h: Headers): Option<RateLimitInfo> {
    if h.limit.None? && h.remaining.None? && h.reset.None? && h.policy.None? then None
    else Some(RateLimitInfo(
                WindowsOf(h.limit), WindowsOf(h.remaining), WindowsOf(h.reset),
                if h.policy.Some? then ParsePolicyWindows(h.policy.value) else Windows(None, None),
                if h.retryAfter.Some? then ParseU64(Trim(h.retryAfter.value)) else None))
  }
}
