/** The response-to-record mapping of CurrencyApiClient (src/api_client.py):
    the base URL, the endpoint of one (date, currency) request, the fallible
    fetch of that endpoint and the CurrencyRates record built from the
    decoded payload. The HTTP session is a parameter: `fetch` maps a URL to
    what the network delivered for it. */
module ApiClient {
  import opened Wrappers

  // ---------------------------------------------------------------------------
  // Dates

  /** A calendar date: Python's datetime.date, or a datetime at midnight. */
  datatype Date = Date(year: int, month: int, day: int)

  predicate IsLeapYear(y: int)
  {
    y % 4 == 0 && (y % 100 != 0 || y % 400 == 0)
  }

  function DaysInMonth(y: int, m: int): (n: int)
    requires 1 <= m <= 12
    ensures 28 <= n <= 31
  {
    if m == 2 then (if IsLeapYear(y) then 29 else 28)
    else if m == 4 || m == 6 || m == 9 || m == 11 then 30
    else 31
  }

  /** The dates Python's datetime can hold (years 1 to 9999). */
  predicate ValidDate(d: Date)
  {
    1 <= d.year <= 9999 && 1 <= d.month <= 12 && 1 <= d.day <= DaysInMonth(d.year, d.month)
  }

  /** Chronological order of dates: a comes no later than b. */
  predicate OnOrBefore(a: Date, b: Date)
  {
    a.year < b.year
    || (a.year == b.year && (a.month < b.month || (a.month == b.month && a.day <= b.day)))
  }

  lemma OnOrBeforeTotal(a: Date, b: Date)
    ensures OnOrBefore(a, b) || OnOrBefore(b, a)
    ensures OnOrBefore(a, b) && OnOrBefore(b, a) ==> a == b
  {
  }

  predicate IsDigit(c: char)
  {
    '0' <= c <= '9'
  }

  function DigitValue(c: char): (n: int)
    requires IsDigit(c)
    ensures 0 <= n <= 9
  {
    c as int - '0' as int
  }

  function DigitChar(n: int): (c: char)
    requires 0 <= n <= 9
    ensures IsDigit(c) && DigitValue(c) == n
  {
    ('0' as int + n) as char
  }

  /** `date.strftime('%Y-%m-%d')`: four-digit year, two-digit month and day. */
  function FormatDate(d: Date): (s: string)
    ensures |s| == 10 && s[4] == '-' && s[7] == '-'
  {
    [DigitChar(d.year / 1000 % 10), DigitChar(d.year / 100 % 10),
     DigitChar(d.year / 10 % 10), DigitChar(d.year % 10), '-',
     DigitChar(d.month / 10 % 10), DigitChar(d.month % 10), '-',
     DigitChar(d.day / 10 % 10), DigitChar(d.day % 10)]
  }

  /** The `%m` directive: the first of `1[0-2]`, `0[1-9]`, `[1-9]` that is
      followed by the '-' of the format. Gives the month and what follows
      the '-'. */
  function MatchMonth(t: string): (r: Option<(int, string)>)
    ensures r.Some? ==> 1 <= r.value.0 <= 12 && |r.value.1| < |t|
  {
    if |t| >= 3 && t[0] == '1' && '0' <= t[1] <= '2' && t[2] == '-' then
      Some((10 + DigitValue(t[1]), t[3..]))
    else if |t| >= 3 && t[0] == '0' && '1' <= t[1] <= '9' && t[2] == '-' then
      Some((DigitValue(t[1]), t[3..]))
    else if |t| >= 2 && '1' <= t[0] <= '9' && t[1] == '-' then
      Some((DigitValue(t[0]), t[2..]))
    else
      None
  }

  /** The `%d` directive: the first of `3[01]`, `[12]\d`, `0[1-9]`, `[1-9]`,
      ` [1-9]` that matches at the start of t. Gives the day and the number
      of characters it took. */
  function MatchDay(t: string): (r: Option<(int, nat)>)
    ensures r.Some? ==> 1 <= r.value.0 <= 31 && 1 <= r.value.1 <= 2 && r.value.1 <= |t|
  {
    if |t| >= 2 && t[0] == '3' && '0' <= t[1] <= '1' then
      Some((30 + DigitValue(t[1]), 2))
    else if |t| >= 2 && '1' <= t[0] <= '2' && IsDigit(t[1]) then
      Some((10 * DigitValue(t[0]) + DigitValue(t[1]), 2))
    else if |t| >= 2 && t[0] == '0' && '1' <= t[1] <= '9' then
      Some((DigitValue(t[1]), 2))
    else if |t| >= 1 && '1' <= t[0] <= '9' then
      Some((DigitValue(t[0]), 1))
    else if |t| >= 2 && t[0] == ' ' && '1' <= t[1] <= '9' then
      Some((DigitValue(t[1]), 2))
    else
      None
  }

  /** `datetime.strptime(s, '%Y-%m-%d')`: four digits, '-', a month, '-',
      a day, nothing after it, and a day that exists in that month and year.
      Every other string raises ValueError, here None. */
  function ParseDate(s: string): (r: Option<Date>)
    ensures r.Some? ==> ValidDate(r.value)
  {
    if |s| < 5 || !IsDigit(s[0]) || !IsDigit(s[1]) || !IsDigit(s[2]) || !IsDigit(s[3]) || s[4] != '-' then
      None
    else
      var year := 1000 * DigitValue(s[0]) + 100 * DigitValue(s[1]) + 10 * DigitValue(s[2]) + DigitValue(s[3]);
      match MatchMonth(s[5..])
      case None => None
      case Some((month, rest)) =>
        match MatchDay(rest)
        case None => None
        case Some((day, used)) =>
          if used != |rest| then None  // "unconverted data remains"
          else if ValidDate(Date(year, month, day)) then Some(Date(year, month, day))
          else None
  }

  lemma YearDigits(y: int)
    requires 0 <= y <= 9999
    ensures 1000 * (y / 1000 % 10) + 100 * (y / 100 % 10) + 10 * (y / 10 % 10) + y % 10 == y
  {
    var t := y / 10;
    var h := t / 10;
    assert y == 10 * t + y % 10;
    assert t == 10 * h + t % 10;
    assert h == 10 * (h / 10) + h % 10;
    assert h / 10 == y / 1000 && h / 10 < 10;
  }

  lemma MatchMonthFormatted(m: int, rest: string)
    requires 1 <= m <= 12
    ensures MatchMonth([DigitChar(m / 10 % 10), DigitChar(m % 10), '-'] + rest) == Some((m, rest))
  {
    var t := [DigitChar(m / 10 % 10), DigitChar(m % 10), '-'] + rest;
    assert t[3..] == rest;
  }

  lemma MatchDayFormatted(d: int)
    requires 1 <= d <= 31
    ensures MatchDay([DigitChar(d / 10 % 10), DigitChar(d % 10)]) == Some((d, 2))
  {
  }

  /** Parsing what strftime wrote gives the date back. */
  lemma ParseFormatDate(d: Date)
    requires ValidDate(d)
    ensures ParseDate(FormatDate(d)) == Some(d)
  {
    var s := FormatDate(d);
    YearDigits(d.year);
    var dayText := [DigitChar(d.day / 10 % 10), DigitChar(d.day % 10)];
    assert s[5..] == [DigitChar(d.month / 10 % 10), DigitChar(d.month % 10), '-'] + dayText;
    MatchMonthFormatted(d.month, dayText);
    MatchDayFormatted(d.day);
  }

  /** strftime output of two different dates differs. */
  lemma FormatDateInjective(a: Date, b: Date)
    requires ValidDate(a) && ValidDate(b)
    ensures FormatDate(a) == FormatDate(b) ==> a == b
  {
    ParseFormatDate(a);
    ParseFormatDate(b);
  }

  // ---------------------------------------------------------------------------
  // Payload and record

  /** A decoded JSON document, as `json.loads` returns it. */
  datatype Json =
    | JNull
    | JBool(b: bool)
    | JNum(n: real)
    | JStr(s: string)
    | JArr(items: seq<Json>)
    | JObj(fields: map<string, Json>)

  /** CurrencyApiError carries the endpoint; the other three stand for the
      Python exceptions that building the record can raise. */
  datatype ApiError =
    | CurrencyApiError(endpoint: string)
    | KeyError(key: string)
    | TypeError
    | ValueError(text: string)

  /** The NamedTuple CurrencyRates. Its `rates` is `response[base]` as the
      payload has it: nothing checks that it is a mapping of numbers. */
  datatype CurrencyRates = CurrencyRates(currency: string, rates: Json, date: Date)

  /** An HTTP response: whether its status is OK, and its body decoded as JSON
      (None when the body is not JSON). */
  datatype Reply = Reply(ok: bool, body: Option<Json>)

  /** What the session delivered for one URL: a response, or a transport
      failure (connection error, timeout, ...). */
  datatype Transport = Delivered(reply: Reply) | Broken

  /** CurrencyApiClient: its only state is the base URL. */
  datatype Client = Client(baseUrl: string)

  /** `CurrencyApiClient.__init__`. */
  function NewClient(baseUrl: string, apiVersion: string): (c: Client)
    ensures |c.baseUrl| == |baseUrl| + 1 + |apiVersion|
    ensures c.baseUrl[..|baseUrl|] == baseUrl && c.baseUrl[|baseUrl|] == '@'
    ensures c.baseUrl[|baseUrl| + 1..] == apiVersion
  {
    Client(baseUrl + "@" + apiVersion)
  }

  /** The endpoint of the request for one date string and base currency. */
  function Endpoint(date: string, baseCurrency: string): (e: string)
    ensures |e| == |date| + |baseCurrency| + 22
    ensures e[..1 + |date|] == "/" + date
    ensures e[1 + |date|..13 + |date|] == "/currencies/"
    ensures e[13 + |date|..13 + |date| + |baseCurrency|] == baseCurrency
    ensures e[13 + |date| + |baseCurrency|..] == ".min.json"
  {
    "/" + date + "/currencies/" + baseCurrency + ".min.json"
  }

  /** The URL that `_get` requests for an endpoint. */
  function Url(client: Client, endpoint: string): (u: string)
    ensures |u| == |client.baseUrl| + |endpoint|
    ensures u[..|client.baseUrl|] == client.baseUrl && u[|client.baseUrl|..] == endpoint
  {
    client.baseUrl + endpoint
  }

  /** Requests for different (date, currency) pairs go to different URLs. */
  lemma UrlInjective(client: Client, a: Date, c: string, b: Date, q: string)
    requires ValidDate(a) && ValidDate(b)
    requires Url(client, Endpoint(FormatDate(a), c)) == Url(client, Endpoint(FormatDate(b), q))
    ensures a == b && c == q
  {
    var u, v := Url(client, Endpoint(FormatDate(a), c)), Url(client, Endpoint(FormatDate(b), q));
    var e, f := Endpoint(FormatDate(a), c), Endpoint(FormatDate(b), q);
    var k := |client.baseUrl|;
    assert e == u[k..] && f == v[k..];
    assert e[..11] == "/" + FormatDate(a) && f[..11] == "/" + FormatDate(b);
    assert FormatDate(a) == e[1..11];
    assert FormatDate(b) == f[1..11];
    FormatDateInjective(a, b);
    assert c == e[23..23 + |c|];
    assert q == f[23..23 + |q|];
  }

  /** `_get`: the decoded body of an OK response; anything else (a non-OK
      status, a transport failure, a body that is not JSON) ends in
      CurrencyApiError carrying the endpoint. */
  function Get(client: Client, fetch: string -> Transport, endpoint: string): (r: Result<Json, ApiError>)
    ensures r.Success? <==> fetch(Url(client, endpoint)).Delivered?
                            && fetch(Url(client, endpoint)).reply.ok
                            && fetch(Url(client, endpoint)).reply.body.Some?
    ensures r.Success? ==> r.value == fetch(Url(client, endpoint)).reply.body.value
    ensures r.Failure? ==> r.error == CurrencyApiError(endpoint)
  {
    match fetch(Url(client, endpoint))
    case Broken => Failure(CurrencyApiError(endpoint))
    case Delivered(Reply(ok, body)) =>
      if !ok then Failure(CurrencyApiError(endpoint))
      else if body.None? then Failure(CurrencyApiError(endpoint))
      else Success(body.value)
  }

  /** `response[key]` for a decoded response. */
  function Lookup(response: Json, key: string): (r: Result<Json, ApiError>)
    ensures r.Success? <==> response.JObj? && key in response.fields
    ensures r.Success? ==> r.value == response.fields[key]
  {
    if !response.JObj? then Failure(TypeError)
    else if key !in response.fields then Failure(KeyError(key))
    else Success(response.fields[key])
  }

  /** The `date` field: `strptime(response['date'], '%Y-%m-%d')`. */
  function DateEntry(response: Json): (r: Result<Date, ApiError>)
    ensures r.Success? <==> Lookup(response, "date").Success?
                            && Lookup(response, "date").value.JStr?
                            && ParseDate(Lookup(response, "date").value.s).Some?
    ensures r.Success? ==> Some(r.value) == ParseDate(response.fields["date"].s)
  {
    match Lookup(response, "date")
    case Failure(e) => Failure(e)
    case Success(entry) =>
      if !entry.JStr? then Failure(TypeError)
      else match ParseDate(entry.s)
        case None => Failure(ValueError(entry.s))
        case Some(d) => Success(d)
  }

  /** `get_currency_rates_for_date`: the record for one (date, base currency)
      request. Its currency is the requested base whatever the payload says. */
  function GetCurrencyRatesForDate(client: Client, fetch: string -> Transport, date: string, baseCurrency: string)
    : (r: Result<CurrencyRates, ApiError>)
    ensures r.Success? ==> r.value.currency == baseCurrency
    ensures Get(client, fetch, Endpoint(date, baseCurrency)).Failure? ==>
              r == Failure(CurrencyApiError(Endpoint(date, baseCurrency)))
    ensures r.Success? <==>
              var response := Get(client, fetch, Endpoint(date, baseCurrency));
              response.Success? && Lookup(response.value, baseCurrency).Success?
              && DateEntry(response.value).Success?
    ensures r.Success? ==>
              var response := Get(client, fetch, Endpoint(date, baseCurrency)).value;
              r.value.rates == response.fields[baseCurrency]
              && r.value.date == DateEntry(response).value
  {
    match Get(client, fetch, Endpoint(date, baseCurrency))
    case Failure(e) => Failure(e)
    case Success(response) =>
      match Lookup(response, baseCurrency)
      case Failure(e) => Failure(e)
      case Success(rates) =>
        match DateEntry(response)
        case Failure(e) => Failure(e)
        case Success(d) => Success(CurrencyRates(baseCurrency, rates, d))
  }

  /** A few strings as strptime treats them. */
  lemma ParseDateAccepts()
    ensures ParseDate("2022-05-18") == Some(Date(2022, 5, 18))
    ensures ParseDate("2022-5-7") == Some(Date(2022, 5, 7))
    ensures ParseDate("2024-02-29") == Some(Date(2024, 2, 29))
  {
  }

  lemma ParseDateRejects()
    ensures ParseDate("2022-02-29") == None
    ensures ParseDate("2022-13-01") == None
    ensures ParseDate("2022-05-181") == None
    ensures ParseDate("0000-01-01") == None
  {
  }
}
