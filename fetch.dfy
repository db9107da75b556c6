/** Rate-limited GETs against the daily endpoints and the intraday heart-rate endpoint. */
module Fetch {
  import opened Wrappers
  import opened Text
  import opened Twins
  import opened RateLimit
  import opened Records
  import opened AuthFlow

  /** A reply of a data endpoint: its status and parsed JSON body, or a transport failure. */
  datatype ApiReply<T> = ApiResponse(status: int, body: T) | ApiRequestFailed

  /** The body of a daily endpoint's reply: its `data` array (None when the key is missing)
      and whether the object has any other key. */
  datatype DailyBody = DailyBody(data: Option<seq<Record>>, otherKeys: bool)

  /** `if response:` — the JSON object is truthy when it has any key. */
  predicate NonEmptyBody(body: DailyBody) {
    body.data.Some? || body.otherKeys
  }

  /** `response.get('data', [])` of a truthy body; None for an empty object. */
  function DataOf(body: DailyBody): (r: Option<seq<Record>>)
    ensures r.Some? <==> NonEmptyBody(body)
    ensures body.data.Some? ==> r == body.data
    ensures NonEmptyBody(body) && body.data.None? ==> r == Some([])
  {
    if NonEmptyBody(body) then Some(body.data.GetOr([])) else None
  }

  /** One intraday heart-rate reading. */
  datatype IntradaySample = IntradaySample(timestamp: string, bpm: int)

  /** The body of the intraday endpoint's reply. */
  datatype IntradayBody = IntradayBody(data: Option<seq<IntradaySample>>)

  const OuraApiBase: string := "https://api.ouraring.com/v2"
  const HeartRatePath: string := "/usercollection/heartrate"

  /** The request admitted by the local limiter with a 200 reply. */
  predicate Delivered<T>(allowed: bool, reply: ApiReply<T>) {
    allowed && reply.ApiResponse? && reply.status == 200
  }

  /** `fetch_oura_data`: no token means no request and no use of the budget; a spent budget
      means None; only status 200 returns the body — 401, 403, 429, any other status and a
      transport failure all return None. */
  method FetchOuraData<T>(token: Option<string>, limiter: RateLimiter, reply: ApiReply<T>, now: int)
    returns (r: Option<T>)
    requires limiter.Valid()
    modifies limiter
    ensures limiter.Valid()
    ensures !Truthy(token) ==>
              r == None && limiter.requestCount == old(limiter.requestCount) &&
              limiter.rateLimitReset == old(limiter.rateLimitReset)
    ensures Truthy(token) ==>
              Window(limiter.requestCount, limiter.rateLimitReset) ==
              Step(Window(old(limiter.requestCount), old(limiter.rateLimitReset)), now).window
    ensures r.Some? <==>
              Truthy(token) &&
              Delivered(Step(Window(old(limiter.requestCount), old(limiter.rateLimitReset)), now).allowed, reply)
    ensures r.Some? ==> r.value == reply.body
  {
    if !Truthy(token) {
      return None;
    }
    var ok := limiter.CheckRateLimit(now);
    if !ok {
      return None;
    }
    match reply {
      case ApiRequestFailed =>
        return None;
      case ApiResponse(status, body) =>
        if status == 200 {
          return Some(body);
        } else if status == 401 {
          return None;
        } else if status == 403 {
          return None;
        } else if status == 429 {
          return None;
        }
        return None;
    }
  }

  /** The `data` of a fetch that the limiter admitted (`allowed`) and the endpoint answered. */
  function Fetched(allowed: bool, reply: ApiReply<DailyBody>): Option<seq<Record>> {
    if Delivered(allowed, reply) then DataOf(reply.body) else None
  }

  /** One daily endpoint of `fetch_all_twin_data`: the fetch and the truthiness test on its
      body, that keeps the body's `data` (`[]` when it lacks one). */
  method FetchDaily(token: Option<string>, limiter: RateLimiter, reply: ApiReply<DailyBody>, now: int)
    returns (data: Option<seq<Record>>)
    requires Truthy(token) && limiter.Valid()
    modifies limiter
    ensures limiter.Valid()
    ensures Window(limiter.requestCount, limiter.rateLimitReset) ==
            Step(Window(old(limiter.requestCount), old(limiter.rateLimitReset)), now).window
    ensures data == Fetched(Step(Window(old(limiter.requestCount), old(limiter.rateLimitReset)), now).allowed, reply)
  {
    var body := FetchOuraData(token, limiter, reply, now);
    data := if body.Some? then DataOf(body.value) else None;
  }

  /** `fetch_all_twin_data`: without a truthy token, `{}` and no request. Otherwise the five
      endpoints are fetched in order, each gated by the limiter at its own instant `clock(e)`;
      endpoint `e` holds the reply's `data` (`[]` when a non-empty body lacks it) exactly when
      its check passed, it answered 200 and its body is not the empty object. */
  method FetchAllTwinData(session: Session, twin: Twin, limiter: RateLimiter,
                          replies: Endpoint -> ApiReply<DailyBody>, clock: Endpoint -> int)
    returns (raw: RawData)
    requires session.Valid() && limiter.Valid()
    modifies limiter
    ensures limiter.Valid()
    ensures raw.NoData? <==> !Truthy(session.slots[twin].token)
    ensures raw.NoData? ==>
              limiter.requestCount == old(limiter.requestCount) &&
              limiter.rateLimitReset == old(limiter.rateLimitReset)
    ensures raw.Raw? ==>
              var s0 := Step(Window(old(limiter.requestCount), old(limiter.rateLimitReset)), clock(DailySpo2));
              var s1 := Step(s0.window, clock(Sleep));
              var s2 := Step(s1.window, clock(DailySleep));
              var s3 := Step(s2.window, clock(CardiovascularAge));
              var s4 := Step(s3.window, clock(DailyReadiness));
              && Window(limiter.requestCount, limiter.rateLimitReset) == s4.window
              && raw.dailySpo2 == Fetched(s0.allowed, replies(DailySpo2))
              && raw.sleep == Fetched(s1.allowed, replies(Sleep))
              && raw.dailySleep == Fetched(s2.allowed, replies(DailySleep))
              && raw.cardiovascularAge == Fetched(s3.allowed, replies(CardiovascularAge))
              && raw.dailyReadiness == Fetched(s4.allowed, replies(DailyReadiness))
  {
    var token := session.slots[twin].token;
    if !Truthy(token) {
      return NoData;
    }
    var spo2 := FetchDaily(token, limiter, replies(DailySpo2), clock(DailySpo2));
    var sleep := FetchDaily(token, limiter, replies(Sleep), clock(Sleep));
    var dailySleep := FetchDaily(token, limiter, replies(DailySleep), clock(DailySleep));
    var cv := FetchDaily(token, limiter, replies(CardiovascularAge), clock(CardiovascularAge));
    var readiness := FetchDaily(token, limiter, replies(DailyReadiness), clock(DailyReadiness));
    raw := Raw(spo2, sleep, dailySleep, cv, readiness);
  }

  /** `fetch_intraday_heartrate`: the same token and limiter discipline on the heart-rate
      endpoint; every failure gives the empty list. */
  method FetchIntradayHeartrate(token: Option<string>, limiter: RateLimiter, reply: ApiReply<IntradayBody>, now: int)
    returns (samples: seq<IntradaySample>)
    requires limiter.Valid()
    modifies limiter
    ensures limiter.Valid()
    ensures !Truthy(token) ==>
              samples == [] && limiter.requestCount == old(limiter.requestCount) &&
              limiter.rateLimitReset == old(limiter.rateLimitReset)
    ensures Truthy(token) ==>
              Window(limiter.requestCount, limiter.rateLimitReset) ==
              Step(Window(old(limiter.requestCount), old(limiter.rateLimitReset)), now).window
    ensures samples == (if Truthy(token) &&
                           Delivered(Step(Window(old(limiter.requestCount), old(limiter.rateLimitReset)), now).allowed, reply)
                        then reply.body.data.GetOr([]) else [])
  {
    if !Truthy(token) {
      return [];
    }
    var ok := limiter.CheckRateLimit(now);
    if !ok {
      return [];
    }
    if reply.ApiResponse? && reply.status == 200 {
      return reply.body.data.GetOr([]);
    }
    return [];
  }

  /** `get_intraday_data_for_twin`: the twin's session token, then the intraday fetch. */
  method GetIntradayDataForTwin(session: Session, twin: Twin, limiter: RateLimiter,
                                reply: ApiReply<IntradayBody>, now: int)
    returns (samples: seq<IntradaySample>)
    requires session.Valid() && limiter.Valid()
    modifies limiter
    ensures limiter.Valid()
    ensures !Truthy(session.slots[twin].token) ==>
              samples == [] && limiter.requestCount == old(limiter.requestCount) &&
              limiter.rateLimitReset == old(limiter.rateLimitReset)
    ensures Truthy(session.slots[twin].token) ==>
              Window(limiter.requestCount, limiter.rateLimitReset) ==
              Step(Window(old(limiter.requestCount), old(limiter.rateLimitReset)), now).window
    ensures samples == (if Truthy(session.slots[twin].token) &&
                           Delivered(Step(Window(old(limiter.requestCount), old(limiter.rateLimitReset)), now).allowed, reply)
                        then reply.body.data.GetOr([]) else [])
    ensures samples != [] ==> reply.ApiResponse? && reply.status == 200 && reply.body.data == Some(samples)
  {
    var token := session.slots[twin].token;
    if !Truthy(token) {
      return [];
    }
    samples := FetchIntradayHeartrate(token, limiter, reply, now);
  }
}
