/** The aggregation step of RatesStorage (src/rates_storage.py): one request
    per (date, currency) pair, failures dropped, one row per success appended
    to its currency's list (a record whose rates are not a mapping aborts the
    update), the first currency without rows rejected, each
    list sorted by date, and the store replaced as a whole. */
module RatesStorage {
  import opened Wrappers
  import opened Seqs
  import opened ApiClient

  /** One row `{'date': ..., **rates}` of a currency's table: the observation
      date and the payload's entries, quote currency to JSON value. */
  datatype Row = Row(date: Date, rates: map<string, Json>)

  /** The store: base currency to its table of rows. */
  type Store = map<string, seq<Row>>

  /** Why `update` raises: StorageError for a currency without rows, or the
      TypeError of `**result.rates` when a record's rates are not a mapping. */
  datatype UpdateError = StorageError(currency: string) | NotAMapping

  /** The result of one request as `gather(..., return_exceptions=True)`
      hands it over. */
  type Fetched = Result<CurrencyRates, ApiError>

  /** The requests of `update`, dates the outer loop and currencies the inner. */
  function Requests(dates: seq<Date>, currencies: seq<string>): (r: seq<(Date, string)>)
    ensures |r| == |dates| * |currencies|
  {
    Product(dates, currencies)
  }

  /** The ordered output of the gather: result k belongs to request k. */
  function Gather(api: Client, fetch: string -> Transport, requests: seq<(Date, string)>): (r: seq<Fetched>)
    ensures |r| == |requests|
    ensures forall k :: 0 <= k < |r| ==>
              r[k] == GetCurrencyRatesForDate(api, fetch, FormatDate(requests[k].0), requests[k].1)
  {
    seq(|requests|, k requires 0 <= k < |requests| =>
      GetCurrencyRatesForDate(api, fetch, FormatDate(requests[k].0), requests[k].1))
  }

  /** Every success in the gather output is for a requested currency: the
      dictionary lookup of the grouping loop never misses. */
  lemma GatherCurrencies(api: Client, fetch: string -> Transport, dates: seq<Date>, currencies: seq<string>)
    ensures var results := Gather(api, fetch, Requests(dates, currencies));
            forall k :: 0 <= k < |results| && results[k].Success? ==> results[k].value.currency in currencies
  {
    var requests := Requests(dates, currencies);
    var results := Gather(api, fetch, requests);
    forall k | 0 <= k < |results| && results[k].Success?
      ensures results[k].value.currency in currencies
    {
      assert requests[k] in requests;
    }
  }

  /** `{'date': result.date, **result.rates}`. A record whose rates are not a
      mapping makes the update fail before any row is kept (AllMappings), so
      the empty mapping in that case is never stored. */
  function RowOf(r: CurrencyRates): (row: Row)
    ensures row.date == r.date
    ensures r.rates.JObj? ==> row.rates == r.rates.fields
  {
    Row(r.date, if r.rates.JObj? then r.rates.fields else map[])
  }

  /** Every successful record can be unpacked into a row. */
  predicate AllMappings(results: seq<Fetched>)
  {
    forall k :: 0 <= k < |results| && results[k].Success? ==> results[k].value.rates.JObj?
  }

  /** The rows that the grouping loop appends to currency c's list: one per
      success for c, in result order. */
  function Collected(results: seq<Fetched>, c: string): (rows: seq<Row>)
    ensures |rows| <= |results|
  {
    if results == [] then []
    else
      var last := results[|results| - 1];
      Collected(results[..|results| - 1], c)
        + (if last.Success? && last.value.currency == c then [RowOf(last.value)] else [])
  }

  predicate SucceededFor(r: Fetched, c: string)
  {
    r.Success? && r.value.currency == c
  }

  lemma CollectedStep(results: seq<Fetched>, k: nat, c: string)
    requires k < |results|
    ensures Collected(results[..k + 1], c)
            == Collected(results[..k], c) + (if SucceededFor(results[k], c) then [RowOf(results[k].value)] else [])
  {
    assert results[..k + 1][..k] == results[..k];
  }

  /** A currency collects no rows exactly when none of its results succeeded. */
  lemma {:induction false} CollectedEmpty(results: seq<Fetched>, c: string)
    ensures Collected(results, c) == [] <==> forall k :: 0 <= k < |results| ==> !SucceededFor(results[k], c)
  {
    if results != [] {
      var n := |results| - 1;
      CollectedEmpty(results[..n], c);
      assert forall k :: 0 <= k < n ==> results[..n][k] == results[k];
    }
  }

  /** How many of the requests are for currency c. */
  function RequestsFor(requests: seq<(Date, string)>, c: string): nat
  {
    if requests == [] then 0
    else RequestsFor(requests[..|requests| - 1], c) + (if requests[|requests| - 1].1 == c then 1 else 0)
  }

  /** What the gather output promises about each request: result k is a
      success only for the currency of request k. */
  predicate Answers(results: seq<Fetched>, requests: seq<(Date, string)>)
  {
    |results| == |requests|
    && forall k :: 0 <= k < |results| && results[k].Success? ==> results[k].value.currency == requests[k].1
  }

  lemma GatherAnswers(api: Client, fetch: string -> Transport, requests: seq<(Date, string)>)
    ensures Answers(Gather(api, fetch, requests), requests)
  {
  }

  /** A currency's row count is at most its number of requests, with equality
      exactly when all of its requests succeeded: a failed request leaves no
      placeholder row. */
  lemma {:induction false} CollectedCount(results: seq<Fetched>, requests: seq<(Date, string)>, c: string)
    requires Answers(results, requests)
    ensures |Collected(results, c)| <= RequestsFor(requests, c)
    ensures |Collected(results, c)| == RequestsFor(requests, c) <==>
              forall k :: 0 <= k < |requests| && requests[k].1 == c ==> results[k].Success?
  {
    if requests != [] {
      var n := |requests| - 1;
      var front, asked := results[..n], requests[..n];
      assert Answers(front, asked);
      CollectedCount(front, asked, c);
      assert forall k :: 0 <= k < n ==> front[k] == results[k] && asked[k] == requests[k];
    }
  }

  lemma {:induction false} RequestsForAppend(a: seq<(Date, string)>, b: seq<(Date, string)>, c: string)
    ensures RequestsFor(a + b, c) == RequestsFor(a, c) + RequestsFor(b, c)
  {
    if b != [] {
      var n := |b| - 1;
      assert (a + b)[..|a + b| - 1] == a + b[..n];
      RequestsForAppend(a, b[..n], c);
    } else {
      assert a + b == a;
    }
  }

  lemma {:induction false} RequestsForPairs(d: Date, currencies: seq<string>, c: string)
    ensures RequestsFor(Pairs(d, currencies), c) == Count(currencies, c)
  {
    if currencies != [] {
      var n := |currencies| - 1;
      assert Pairs(d, currencies)[..n] == Pairs(d, currencies[..n]);
      RequestsForPairs(d, currencies[..n], c);
    }
  }

  /** Currency c is requested once per date and per occurrence in the list. */
  lemma {:induction false} RequestsForCount(dates: seq<Date>, currencies: seq<string>, c: string)
    ensures RequestsFor(Requests(dates, currencies), c) == |dates| * Count(currencies, c)
  {
    if dates != [] {
      var n := |dates| - 1;
      var front, row := Product(dates[..n], currencies), Pairs(dates[n], currencies);
      assert Requests(dates, currencies) == front + row;
      RequestsForCount(dates[..n], currencies, c);
      RequestsForAppend(front, row, c);
      RequestsForPairs(dates[n], currencies, c);
      MulSucc(n, Count(currencies, c));
    }
  }

  lemma MulSucc(n: nat, m: nat)
    ensures (n + 1) * m == n * m + m
  {
  }

  /** When every request succeeds, a currency listed once gets one row per date. */
  lemma AllSucceededRowCount(api: Client, fetch: string -> Transport, dates: seq<Date>, currencies: seq<string>, c: string)
    requires Count(currencies, c) == 1
    requires forall k :: 0 <= k < |dates| * |currencies| ==> Gather(api, fetch, Requests(dates, currencies))[k].Success?
    ensures |Collected(Gather(api, fetch, Requests(dates, currencies)), c)| == |dates|
  {
    var requests := Requests(dates, currencies);
    GatherAnswers(api, fetch, requests);
    CollectedCount(Gather(api, fetch, requests), requests, c);
    RequestsForCount(dates, currencies, c);
  }

  /** The first of the keys whose collected list is empty: the currency that
      the checking loop rejects. */
  function FirstEmpty(keys: seq<string>, results: seq<Fetched>): (r: Option<string>)
    ensures r.Some? ==> r.value in keys && Collected(results, r.value) == []
    ensures r.None? <==> forall c :: c in keys ==> Collected(results, c) != []
  {
    if keys == [] then None
    else if Collected(results, keys[0]) == [] then Some(keys[0])
    else FirstEmpty(keys[1..], results)
  }

  /** FirstEmpty names the key at position i when the ones before it collected rows. */
  lemma {:induction false} FirstEmptyAt(keys: seq<string>, results: seq<Fetched>, i: nat)
    requires i < |keys| && Collected(results, keys[i]) == []
    requires forall j :: 0 <= j < i ==> Collected(results, keys[j]) != []
    ensures FirstEmpty(keys, results) == Some(keys[i])
  {
    if i > 0 {
      FirstEmptyAt(keys[1..], results, i - 1);
    }
  }

  predicate SortedByDate(rows: seq<Row>)
  {
    forall i, j :: 0 <= i < j < |rows| ==> OnOrBefore(rows[i].date, rows[j].date)
  }

  /** A stored series: the collected rows, none added, removed or merged,
      in date order. */
  predicate IsSeriesOf(series: seq<Row>, rows: seq<Row>)
  {
    SortedByDate(series) && multiset(series) == multiset(rows)
  }

  lemma PrependSorted(x: Row, rows: seq<Row>)
    requires SortedByDate(rows)
    requires forall y :: y in rows ==> OnOrBefore(x.date, y.date)
    ensures SortedByDate([x] + rows)
  {
    var t := [x] + rows;
    forall i, j | 0 <= i < j < |t| ensures OnOrBefore(t[i].date, t[j].date) {
      assert t[j] == rows[j - 1];
      if i > 0 {
        assert t[i] == rows[i - 1];
      }
    }
  }

  /** Inserts a row before the first row of a later date. */
  function InsertByDate(r: Row, rows: seq<Row>): (s: seq<Row>)
    ensures |s| == |rows| + 1
  {
    if rows == [] then [r]
    else if OnOrBefore(r.date, rows[0].date) then [r] + rows
    else [rows[0]] + InsertByDate(r, rows[1..])
  }

  /** `df.sort_values(by=['date'])`, here as an insertion sort. pandas' default
      sort is not stable, so the model promises nothing about the order of
      rows of the same date: see SortByDateIsSeries. */
  function SortByDate(rows: seq<Row>): (s: seq<Row>)
    ensures |s| == |rows|
  {
    if rows == [] then [] else InsertByDate(rows[0], SortByDate(rows[1..]))
  }

  lemma {:induction false} InsertByDateSorted(r: Row, rows: seq<Row>)
    requires SortedByDate(rows)
    ensures SortedByDate(InsertByDate(r, rows))
    ensures multiset(InsertByDate(r, rows)) == multiset(rows) + multiset{r}
  {
    if rows == [] {
    } else if OnOrBefore(r.date, rows[0].date) {
      forall y | y in rows ensures OnOrBefore(r.date, y.date) {
        var m :| 0 <= m < |rows| && rows[m] == y;
        assert m == 0 || OnOrBefore(rows[0].date, rows[m].date);
      }
      PrependSorted(r, rows);
    } else {
      var tail := InsertByDate(r, rows[1..]);
      InsertByDateSorted(r, rows[1..]);
      assert rows == [rows[0]] + rows[1..];
      forall y | y in tail ensures OnOrBefore(rows[0].date, y.date) {
        assert y in multiset(tail);
        if y != r {
          var m :| 0 <= m < |rows[1..]| && rows[1..][m] == y;
          assert rows[m + 1] == y;
        }
      }
      PrependSorted(rows[0], tail);
    }
  }

  /** The sort returns the rows it was given, none added, removed or merged,
      in date order. */
  lemma {:induction false} SortByDateIsSeries(rows: seq<Row>)
    ensures IsSeriesOf(SortByDate(rows), rows)
  {
    if rows != [] {
      SortByDateIsSeries(rows[1..]);
      InsertByDateSorted(rows[0], SortByDate(rows[1..]));
      assert rows == [rows[0]] + rows[1..];
    }
  }

  /** What a successful update leaves behind: one entry per distinct
      requested currency, each the date-ordered series of its rows. */
  ghost predicate Stored(store: Store, currencies: seq<string>, results: seq<Fetched>)
  {
    && (forall c :: c in store <==> c in currencies)
    && (forall c :: c in store ==> IsSeriesOf(store[c], Collected(results, c)))
  }

  /** `{currency: list() for currency in currencies}`: an empty list per
      distinct currency, and the dictionary's key order. */
  method NewGroups(currencies: seq<string>) returns (grouped: map<string, seq<Row>>, keys: seq<string>)
    ensures keys == Distinct(currencies)
    ensures forall c :: c in grouped <==> c in currencies
    ensures forall c :: c in grouped ==> grouped[c] == []
  {
    grouped, keys := map[], [];
    var i := 0;
    while i < |currencies|
      invariant 0 <= i <= |currencies|
      invariant keys == Distinct(currencies[..i])
      invariant forall c :: c in grouped <==> c in currencies[..i]
      invariant forall c :: c in grouped ==> grouped[c] == []
    {
      assert currencies[..i + 1][..i] == currencies[..i];
      if currencies[i] !in grouped {
        keys := keys + [currencies[i]];
      }
      grouped := grouped[currencies[i] := []];
      i := i + 1;
    }
    assert currencies[..i] == currencies;
  }

  lemma AllMappingsStep(results: seq<Fetched>, k: nat)
    requires k < |results| && AllMappings(results[..k])
    requires results[k].Success? ==> results[k].value.rates.JObj?
    ensures AllMappings(results[..k + 1])
  {
    assert forall m :: 0 <= m < k ==> results[..k + 1][m] == results[..k][m];
  }

  /** The grouping loop: each success appends its row to its own currency's
      list; every other result is skipped. The first success whose rates are
      not a mapping stops the loop with TypeError. */
  method GroupResults(groups: map<string, seq<Row>>, results: seq<Fetched>)
    returns (r: Result<map<string, seq<Row>>, UpdateError>)
    requires forall c :: c in groups ==> groups[c] == []
    requires forall k :: 0 <= k < |results| && results[k].Success? ==> results[k].value.currency in groups
    ensures r.Success? <==> AllMappings(results)
    ensures r.Failure? ==> r.error == NotAMapping
    ensures r.Success? ==> (forall c :: c in r.value <==> c in groups)
                           && (forall c :: c in r.value ==> r.value[c] == Collected(results, c))
  {
    var grouped := groups;
    var k := 0;
    while k < |results|
      invariant 0 <= k <= |results|
      invariant AllMappings(results[..k])
      invariant forall c :: c in grouped <==> c in groups
      invariant forall c :: c in grouped ==> grouped[c] == Collected(results[..k], c)
    {
      var result := results[k];
      forall c | c in groups {
        CollectedStep(results, k, c);
      }
      if result.Success? {
        if !result.value.rates.JObj? {
          assert !AllMappings(results) by {
            assert results[k].Success? && !results[k].value.rates.JObj?;
          }
          return Failure(NotAMapping);
        }
        var cur := result.value.currency;
        grouped := grouped[cur := grouped[cur] + [RowOf(result.value)]];
      }
      AllMappingsStep(results, k);
      k := k + 1;
    }
    assert results[..k] == results;
    return Success(grouped);
  }

  /** The state of the checking loop after the first j keys: those lists
      are sorted, the others are as collected. */
  ghost predicate SortedUpTo(grouped: map<string, seq<Row>>, collected: map<string, seq<Row>>, keys: seq<string>, j: nat)
    requires j <= |keys|
  {
    && (forall c :: c in grouped <==> c in collected)
    && (forall c :: c in grouped ==>
          grouped[c] == if c in keys[..j] then SortByDate(collected[c]) else collected[c])
  }

  lemma SortStep(grouped: map<string, seq<Row>>, collected: map<string, seq<Row>>, keys: seq<string>, j: nat)
    requires j < |keys| && keys[j] in collected && keys[j] !in keys[..j]
    requires SortedUpTo(grouped, collected, keys, j)
    ensures keys[j] in grouped && grouped[keys[j]] == collected[keys[j]]
    ensures SortedUpTo(grouped[keys[j] := SortByDate(grouped[keys[j]])], collected, keys, j + 1)
  {
    assert keys[..j + 1] == keys[..j] + [keys[j]];
  }

  /** The first key whose list in the groups is empty. */
  function FirstEmptyList(groups: map<string, seq<Row>>, keys: seq<string>): (r: Option<string>)
    ensures r.Some? ==> r.value in keys && r.value in groups && groups[r.value] == []
  {
    if keys == [] then None
    else if keys[0] in groups && groups[keys[0]] == [] then Some(keys[0])
    else FirstEmptyList(groups, keys[1..])
  }

  lemma {:induction false} FirstEmptyListOfCollected(groups: map<string, seq<Row>>, keys: seq<string>, results: seq<Fetched>)
    requires forall c :: c in keys ==> c in groups && groups[c] == Collected(results, c)
    ensures FirstEmptyList(groups, keys) == FirstEmpty(keys, results)
  {
    if keys != [] {
      assert keys[0] in keys;
      assert forall c :: c in keys[1..] ==> c in keys;
      FirstEmptyListOfCollected(groups, keys[1..], results);
    }
  }

  /** The checking loop: in key order, the first currency with an empty list
      is rejected; otherwise every listed currency's rows are sorted by date. */
  method SortGroups(collected: map<string, seq<Row>>, keys: seq<string>) returns (r: Result<map<string, seq<Row>>, UpdateError>)
    requires forall m :: 0 <= m < |keys| ==> keys[m] in collected && keys[m] !in keys[..m]
    ensures match FirstEmptyList(collected, keys)
            case Some(c) => r == Failure(StorageError(c))
            case None => r.Success?
    ensures r.Success? ==> (forall c :: c in r.value <==> c in collected)
                           && (forall c :: c in r.value ==>
                                 r.value[c] == if c in keys then SortByDate(collected[c]) else collected[c])
  {
    var grouped := collected;
    var j := 0;
    while j < |keys|
      invariant 0 <= j <= |keys|
      invariant SortedUpTo(grouped, collected, keys, j)
      invariant FirstEmptyList(collected, keys[j..]) == FirstEmptyList(collected, keys)
    {
      var cur := keys[j];
      SortStep(grouped, collected, keys, j);
      assert keys[j..][0] == cur && keys[j..][1..] == keys[j + 1..];
      if grouped[cur] == [] {
        return Failure(StorageError(cur));
      }
      grouped := grouped[cur := SortByDate(grouped[cur])];
      j := j + 1;
    }
    assert keys[..j] == keys;
    return Success(grouped);
  }

  lemma KeysFirstOccurrences(keys: seq<string>)
    requires forall i, j :: 0 <= i < j < |keys| ==> keys[i] != keys[j]
    ensures forall m :: 0 <= m < |keys| ==> keys[m] !in keys[..m]
  {
    forall m | 0 <= m < |keys| ensures keys[m] !in keys[..m] {
      assert forall n :: 0 <= n < m ==> keys[..m][n] == keys[n];
    }
  }

  lemma SortedIsStored(currencies: seq<string>, keys: seq<string>, collected: map<string, seq<Row>>,
                       results: seq<Fetched>, store: Store)
    requires forall c :: c in keys <==> c in currencies
    requires forall c :: c in collected <==> c in currencies
    requires forall c :: c in collected ==> collected[c] == Collected(results, c)
    requires forall c :: c in store <==> c in collected
    requires forall c :: c in store ==> store[c] == if c in keys then SortByDate(collected[c]) else collected[c]
    ensures Stored(store, currencies, results)
  {
    forall c | c in store ensures IsSeriesOf(store[c], Collected(results, c)) {
      assert c in keys;
      SortByDateIsSeries(collected[c]);
    }
  }

  /** The sequential part of `update` once the gather has returned. */
  method Aggregate(currencies: seq<string>, results: seq<Fetched>) returns (r: Result<Store, UpdateError>)
    requires forall k :: 0 <= k < |results| && results[k].Success? ==> results[k].value.currency in currencies
    ensures !AllMappings(results) ==> r == Failure(NotAMapping)
    ensures AllMappings(results) ==>
              match FirstEmpty(Distinct(currencies), results)
              case Some(c) => r == Failure(StorageError(c))
              case None => r.Success? && Stored(r.value, currencies, results)
  {
    var groups, keys := NewGroups(currencies);
    var grouped := GroupResults(groups, results);
    if grouped.Failure? {
      return Failure(grouped.error);
    }
    var collected := grouped.value;
    KeysFirstOccurrences(keys);
    FirstEmptyListOfCollected(collected, keys, results);
    r := SortGroups(collected, keys);
    if r.Success? {
      SortedIsStored(currencies, keys, collected, results, r.value);
    }
  }


  /** RatesStorage. */
  class Storage {
    const api: Client
    var rates: Store

    constructor (api: Client)
      ensures this.api == api && rates == map[]
    {
      this.api := api;
      rates := map[];
    }

    /** The `rates` property. */
    method Rates() returns (r: Store)
      ensures r == rates
    {
      r := rates;
    }

    /** `update`: fetch every (date, currency) pair through `fetch`, group the
        successes by currency (TypeError at the first record whose rates are
        not a mapping), reject the first currency without rows, sort and
        store. The store changes only here, and only on success. */
    method Update(dates: seq<Date>, currencies: seq<string>, fetch: string -> Transport)
      returns (outcome: Outcome<UpdateError>)
      modifies this`rates
      ensures var results := Gather(api, fetch, Requests(dates, currencies));
              !AllMappings(results) ==> outcome == Fail(NotAMapping) && rates == old(rates)
      ensures var results := Gather(api, fetch, Requests(dates, currencies));
              AllMappings(results) ==>
                match FirstEmpty(Distinct(currencies), results)
                case Some(c) => outcome == Fail(StorageError(c)) && rates == old(rates)
                case None => outcome == Pass && Stored(rates, currencies, results)
    {
      var results := Gather(api, fetch, Requests(dates, currencies));
      GatherCurrencies(api, fetch, dates, currencies);
      var aggregated := Aggregate(currencies, results);
      match aggregated
      case Failure(e) =>
        outcome := Fail(e);
      case Success(store) =>
        rates := store;
        outcome := Pass;
    }
  }

  /** An empty currency list gives an empty store and no error. */
  lemma NoCurrenciesNoError(api: Client, fetch: string -> Transport, dates: seq<Date>)
    ensures FirstEmpty(Distinct([]), Gather(api, fetch, Requests(dates, []))) == None
    ensures forall store: Store :: Stored(store, [], Gather(api, fetch, Requests(dates, []))) ==> store == map[]
  {
  }

  /** With no dates but some currency, the first currency is rejected. */
  lemma NoDatesFails(api: Client, fetch: string -> Transport, currencies: seq<string>)
    requires currencies != []
    ensures FirstEmpty(Distinct(currencies), Gather(api, fetch, Requests([], currencies))) == Some(currencies[0])
  {
    var keys := Distinct(currencies);
    FirstEmptyAt(keys, Gather(api, fetch, Requests([], currencies)), 0);
  }

  /** A currency whose every request failed is rejected, unless an earlier
      currency in first-appearance order was rejected first. */
  lemma AllFailedIsRejected(api: Client, fetch: string -> Transport, dates: seq<Date>, currencies: seq<string>, c: string)
    requires c in currencies
    requires var requests := Requests(dates, currencies);
             forall k :: 0 <= k < |requests| && requests[k].1 == c ==> Gather(api, fetch, requests)[k].Failure?
    ensures FirstEmpty(Distinct(currencies), Gather(api, fetch, Requests(dates, currencies))).Some?
  {
    var requests := Requests(dates, currencies);
    var results := Gather(api, fetch, requests);
    forall k | 0 <= k < |results| ensures !SucceededFor(results[k], c) {
      if results[k].Success? {
        assert results[k].value.currency == requests[k].1;
      }
    }
    CollectedEmpty(results, c);
  }
}
