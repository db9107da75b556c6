/** The raw per-endpoint data: JSON records as they arrive from the five daily endpoints. */
module Records {
  import opened Wrappers

  /** A JSON leaf of interest: null or a number. */
  datatype Scalar = Null | Number(x: real)

  /** A value in a record or in a data-frame cell. `NaN` is what a data frame holds where a
      record lacks a column that another record of the same batch has; it is a float, so the
      source's `isinstance(v, (int, float))` holds of it. `Object` is a nested JSON object. */
  datatype Cell = NaN | Plain(s: Scalar) | Object(members: map<string, Scalar>)

  /** One element of an endpoint's `data` array: its `day` (days as integers) and its other
      fields in JSON order. */
  datatype Record = Record(day: int, fields: seq<(string, Cell)>)

  /** The five daily endpoints, in the order they are fetched and scanned. */
  datatype Endpoint = DailySpo2 | Sleep | DailySleep | CardiovascularAge | DailyReadiness {
    function Path(): string {
      match this
      case DailySpo2 => "/usercollection/daily_spo2"
      case Sleep => "/usercollection/sleep"
      case DailySleep => "/usercollection/daily_sleep"
      case CardiovascularAge => "/usercollection/daily_cardiovascular_age"
      case DailyReadiness => "/usercollection/daily_readiness"
    }
  }

  const Endpoints: seq<Endpoint> := [DailySpo2, Sleep, DailySleep, CardiovascularAge, DailyReadiness]

  /** What `fetch_all_twin_data` returns: `{}` when the twin has no token, otherwise the
      `data` array of each endpoint, None when its fetch failed. */
  datatype RawData =
    | NoData
    | Raw(dailySpo2: Option<seq<Record>>, sleep: Option<seq<Record>>, dailySleep: Option<seq<Record>>,
          cardiovascularAge: Option<seq<Record>>, dailyReadiness: Option<seq<Record>>)
  {
    /** The data of endpoint `e`. */
    function Source(e: Endpoint): Option<seq<Record>>
      requires Raw?
    {
      match e
      case DailySpo2 => dailySpo2
      case Sleep => sleep
      case DailySleep => dailySleep
      case CardiovascularAge => cardiovascularAge
      case DailyReadiness => dailyReadiness
    }
  }

  /** Python truthiness of an optional list: None and [] are false. */
  predicate Present(o: Option<seq<Record>>) {
    o.Some? && o.value != []
  }
}
