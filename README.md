# Exchange-rate charts: a Dafny model

The system downloads daily exchange rates from a public currency API and
writes a PDF that holds one line chart per (base, quote) currency pair.
Three parts of it are modelled here:

- **The API client** (`api_client.dfy`, module `ApiClient`). It builds the
  base URL `base@version` and the endpoint `/{date}/currencies/{base}.min.json`.
  It fetches one endpoint, where every failure becomes `CurrencyApiError(endpoint)`.
  It then builds the `CurrencyRates` record from the decoded payload and parses
  the date the way `strptime('%Y-%m-%d')` does. The HTTP session is a parameter
  `fetch: string -> Transport`: for each URL, either a response (an OK flag and
  the body decoded as JSON, if it is JSON) or a broken transport.
- **The rates storage** (`rates_storage.dfy`, module `RatesStorage`, class
  `Storage`). `Update` makes one request per (date, currency) pair, dates
  outer. It drops the failed requests and appends one row per success to that
  currency's list. A success whose rates entry is not a mapping makes the row
  dict unpacking raise `TypeError`, which aborts the update (`NotAMapping`).
  Otherwise it rejects the first currency (in first-appearance order) that has
  no rows, and if none is rejected it sorts each list by date and replaces the
  store as a whole. On every failure the store is left as it was.
- **The PDF builder** (`pdf_builder.dfy`, module `PdfBuilder`, class
  `ChartsPdfBuilder`). `ComposePdf` builds a title page, then one chart page
  per pair (bases outer, quotes inner), then attaches the metadata. Three
  things stop composing, and the first one met in loop order is reported:
  - a base missing from the store (`KeyError` of `rates[base]`);
  - a quote that is not a column of the base's table (`KeyError` of `df[quote]`);
  - a table with fewer than 10 rows, for which the tick interval `int(n/10)`
    is 0 and matplotlib's `DayLocator` raises `ValueError`.

  For each chart the model decides:
  - the title `BASE-QUOTE`;
  - the line colour (green exactly when the last rate is above the first);
  - the line width `int(100/n)+1`;
  - the Min/Max/Avg annotation and its anchor (earliest date, highest rate);
  - the tick interval `int(n/10)`.

`seqs.dfy` holds the order of a nested comprehension (`Product`), the key
order of a Python dict built from a list (`Distinct`), and counting.
`wrappers.dfy` holds `Option`, `Result` and `Outcome`.

Facts about the code that the model keeps:

- `_format_num` truncates above 200 with `int(num)`, so 305.8 shows as 305.
- Rows for duplicate dates, or for a currency listed twice, are all kept. Nothing keeps only the last write.
- An empty currency list gives an empty store and no error. Empty dates with some currency fail on the first currency.
- The tick interval has no lower clamp: fewer than 10 rows give interval 0, and composing then fails.
- The rates entry of a response is stored as it comes. Only the unpacking into a row dict checks that it is a mapping, and a JSON `null` rate becomes a NaN cell.

## Model

| member | source | states |
|---|---|---|
| ApiClient.NewClient | src/api_client.py:18-19 | the base URL is the given URL, then `@`, then the API version |
| ApiClient.Endpoint | src/api_client.py:39 | the endpoint is `/`, the date, `/currencies/`, the base currency and `.min.json`, piece by piece at known offsets |
| ApiClient.Url | src/api_client.py:23 | the requested URL is the base URL followed by the endpoint, each recoverable by position |
| ApiClient.UrlInjective | src/api_client.py:23-39 | requests for two different (date, currency) pairs never go to the same URL |
| ApiClient.Get | src/api_client.py:21-32 | succeeds exactly when the transport delivered an OK response whose body is JSON, and then returns that body; every failure is `CurrencyApiError` carrying the endpoint |
| ApiClient.Lookup | src/api_client.py:43-44 | `response[key]` succeeds exactly when the response is an object holding the key |
| ApiClient.DateEntry | src/api_client.py:44 | succeeds exactly when the `date` entry is a string that strptime accepts, and then gives the parsed date |
| ApiClient.ParseDate | src/api_client.py:44 | every date that parses is a real calendar date (year 1 to 9999, month 1 to 12, day within the month, leap years included) |
| ApiClient.ParseDateAccepts | src/api_client.py:44 | zero-padded, unpadded and leap-day strings parse to the expected dates |
| ApiClient.ParseDateRejects | src/api_client.py:44 | 29 February of a common year, month 13, trailing characters and year 0 are rejected |
| ApiClient.FormatDate | src/rates_storage.py:28 | `%Y-%m-%d` text is ten characters with `-` at positions 4 and 7 |
| ApiClient.ParseFormatDate | src/rates_storage.py:28 | parsing the `%Y-%m-%d` text of any date from year 1 to 9999 gives that date back |
| ApiClient.FormatDateInjective | src/rates_storage.py:28 | two different dates never give the same `%Y-%m-%d` text |
| ApiClient.OnOrBeforeTotal | src/rates_storage.py:44 | the date order used for sorting is total and antisymmetric |
| ApiClient.GetCurrencyRatesForDate | src/api_client.py:34-45 | the record's currency is always the requested base; a failed fetch is passed on unchanged; success exactly when the fetch, `response[base]` and the date entry all succeed; the record's rates are `response[base]` exactly as received, whatever JSON it is, and its date is the parsed date |
| Seqs.Product | src/rates_storage.py:32-33 | a nested comprehension yields one item per (outer, inner) pair, each drawn from the inputs |
| Seqs.ProductAt | src/rates_storage.py:32-33 | the pair (xs[i], ys[j]) comes at position i times the length of ys plus j, so the outer index moves slower |
| Seqs.Distinct | src/rates_storage.py:21 | the dict's keys are the listed currencies, each once, the first key is the first currency, and a key comes before another exactly in the order of their first appearances |
| RatesStorage.Requests | src/rates_storage.py:23-34 | one request per date for every listed currency |
| RatesStorage.Gather | src/rates_storage.py:23-35 | result k is the outcome of request k, with the date written by strftime |
| RatesStorage.GatherAnswers | src/rates_storage.py:23-35 | a successful result is always for the currency of its own request |
| RatesStorage.GatherCurrencies | src/rates_storage.py:36-38 | every success is for a requested currency, so the dictionary lookup when grouping never fails |
| RatesStorage.RowOf | src/rates_storage.py:38 | the row carries the record's date, and the record's rate mapping as its other keys |
| RatesStorage.Collected | src/rates_storage.py:36-38 | a currency never collects more rows than there are results |
| RatesStorage.CollectedEmpty | src/rates_storage.py:36-42 | a currency collects no rows exactly when none of its requests succeeded |
| RatesStorage.CollectedCount | src/rates_storage.py:36-38 | a currency has at most one row per request, and exactly that many only when all its requests succeeded; a failure leaves no placeholder |
| RatesStorage.RequestsForCount | src/rates_storage.py:32-33 | a currency is requested once per date for each time it is listed |
| RatesStorage.AllSucceededRowCount | src/rates_storage.py:20-38 | when every request succeeds, a currency listed once gets one row per date |
| RatesStorage.FirstEmpty | src/rates_storage.py:40-42 | the rejected currency is requested and has no rows; no currency is rejected exactly when every one has rows |
| RatesStorage.FirstEmptyAt | src/rates_storage.py:40-42 | the rejected currency is the first one without rows in key order |
| RatesStorage.InsertByDate | src/rates_storage.py:44 | inserting adds exactly one row to the list's length |
| RatesStorage.InsertByDateSorted | src/rates_storage.py:44 | inserting a row into a date-sorted list keeps it sorted and adds exactly that row |
| RatesStorage.SortByDate | src/rates_storage.py:44 | sorting keeps the number of rows |
| RatesStorage.SortByDateIsSeries | src/rates_storage.py:44 | sorting returns the same rows, none added, dropped or merged, in date order |
| RatesStorage.NewGroups | src/rates_storage.py:21 | an empty list for every listed currency and no other key, with the keys in first-appearance order |
| RatesStorage.AllMappingsStep | src/rates_storage.py:36-38 | the grouping loop passes one more result when that result is a failure or has a mapping as its rates |
| RatesStorage.GroupResults | src/rates_storage.py:36-38 | fails with `TypeError` exactly when some success has rates that are not a mapping; otherwise each currency's list is exactly its successful rows in result order, and the key set is unchanged |
| RatesStorage.SortGroups | src/rates_storage.py:40-46 | fails with the first currency in key order whose list is empty; otherwise every listed currency's list is sorted and nothing else changes |
| RatesStorage.Aggregate | src/rates_storage.py:36-48 | fails with `TypeError` when some success has rates that are not a mapping; otherwise rejects the first currency without rows; otherwise the store has exactly the listed currencies, each holding its own rows in date order |
| RatesStorage.Storage.constructor | src/rates_storage.py:12-14 | a new storage keeps its client and starts with an empty store |
| RatesStorage.Storage.Rates | src/rates_storage.py:16-18 | the `rates` property returns the current store |
| RatesStorage.Storage.Update | src/rates_storage.py:20-48 | when some success has rates that are not a mapping, the update fails with `TypeError` and the store is left as it was; on rejection of a currency the store is left as it was and the error names the currency; otherwise the store holds one date-ordered series per listed currency, built from the gathered results |
| RatesStorage.NoCurrenciesNoError | src/rates_storage.py:40-48 | no currencies means no rejection, and the only store that can follow is the empty one |
| RatesStorage.NoDatesFails | src/rates_storage.py:40-42 | with no dates, the first listed currency is rejected |
| RatesStorage.AllFailedIsRejected | src/rates_storage.py:36-42 | if every request of some currency failed, the checking loop rejects a currency |
| PdfBuilder.Columns | src/rates_storage.py:43 | the frame's columns include every key of every row dict |
| PdfBuilder.ColumnsOfRows | src/rates_storage.py:43 | a quote is a column of the frame exactly when some row has an entry for it |
| PdfBuilder.HasColumn | src/pdf_builder.py:55 | `df[quote]` finds a column exactly when the quote is among the union of the rows' keys |
| PdfBuilder.Cell | src/rates_storage.py:43 | a cell holds a number exactly when the JSON value is a number, and then that number; `null` is NaN |
| PdfBuilder.Column | src/pdf_builder.py:55 | `df[quote]` has one cell per row, holding the row's rate, or NaN when the row has none |
| PdfBuilder.DateColumn | src/pdf_builder.py:56 | `df['date']` has the row dates in row order |
| PdfBuilder.Present | src/pdf_builder.py:103-105 | the values that min, max and mean see are exactly the cells that are not NaN |
| PdfBuilder.PresentCounts | src/pdf_builder.py:103-105 | each number occurs among those values as often as among the cells, so repeats are kept |
| PdfBuilder.PresentOfColumn | src/pdf_builder.py:103-106 | a column where some row holds a number has at least one value that is not NaN |
| PdfBuilder.Min | src/pdf_builder.py:103 | the minimum is one of the values and no value is below it |
| PdfBuilder.Max | src/pdf_builder.py:104 | the maximum is one of the values and no value is above it |
| PdfBuilder.Mean | src/pdf_builder.py:105 | `mean()` is the sum over the count: the mean times the number of values is their sum |
| PdfBuilder.MeanBetween | src/pdf_builder.py:103-105 | the mean lies between the minimum and the maximum |
| PdfBuilder.AverageBounds | src/pdf_builder.py:105 | the sum over the count lies between any lower and upper bound of the values |
| PdfBuilder.Earliest | src/pdf_builder.py:106 | `dates.min()` is one of the dates and on or before each of them |
| PdfBuilder.TrendColor | src/pdf_builder.py:70-75 | green exactly when both endpoints are numbers and the last is strictly above the first; equal endpoints or a NaN endpoint give red |
| PdfBuilder.RisingGreenFallingRed | src/pdf_builder.py:70-75 | a series that rises at every step is green; one that never rises, a flat one included, is red |
| PdfBuilder.LineWidth | src/pdf_builder.py:76 | the width w is one more than 100 divided by the number of points n, rounded down: (w-1)n <= 100 < wn; so it is at least 1, exactly 1 beyond 100 points and at least 2 up to 100 points |
| PdfBuilder.LineWidthAtMostEleven | src/pdf_builder.py:76 | with at least 10 points the width is at most 11 |
| PdfBuilder.LineWidthMonotone | src/pdf_builder.py:76 | more points never give a thicker line |
| PdfBuilder.TickInterval | src/pdf_builder.py:133 | the interval k satisfies 10k <= n < 10k+10, and is 0 exactly when there are fewer than 10 points |
| PdfBuilder.TruncateTowardZero | src/pdf_builder.py:118 | `int(x)` drops the fraction toward zero, on both signs |
| PdfBuilder.FormatNum | src/pdf_builder.py:110-118 | two decimals below 100, one decimal from 100 to 200, and above 200 the whole part, which is within 1 below the value |
| PdfBuilder.FormatNumExamples | src/pdf_builder.py:110-118 | 42.345 keeps 2 decimals, 150.2 keeps 1, and 305.8 shows as 305 |
| PdfBuilder.UpperChar | src/pdf_builder.py:127 | a lower-case ASCII letter becomes its own capital, and every other character is kept |
| PdfBuilder.Upper | src/pdf_builder.py:127 | `str.upper()` keeps the length and upper-cases each character in place |
| PdfBuilder.UpperAll | src/pdf_builder.py:82-83 | the comprehension upper-cases each currency code, keeping their number and order |
| PdfBuilder.Join | src/pdf_builder.py:82-83 | `' '.join` puts the separator between two or more codes; SplitJoin gives the codes back |
| PdfBuilder.JoinChars | src/pdf_builder.py:82-83 | a joined line holds no character but the codes' characters and the separator |
| PdfBuilder.Title | src/pdf_builder.py:127 | the title is the upper-cased base, `-`, and the upper-cased quote, each at a known position |
| PdfBuilder.TitleNamesPair | src/pdf_builder.py:125-127 | splitting the title at `-` gives back the two upper-cased codes |
| PdfBuilder.SplitJoin | src/pdf_builder.py:82-87 | splitting a joined list at the separator gives the list back when no element contains the separator |
| PdfBuilder.CurrencyLineLists | src/pdf_builder.py:82-83 | a space-joined line of upper-cased codes, none containing a space, splits back into exactly those codes in order |
| PdfBuilder.TitlePageFor | src/pdf_builder.py:79-89 | the title page is headed `Exchange Rates Charts` and joins the two lines with `with` |
| PdfBuilder.TitlePageLists | src/pdf_builder.py:82-87 | the title page's base line and quote line list exactly the upper-cased base and quote currencies, in order |
| PdfBuilder.ChartPageFor | src/pdf_builder.py:49-62 | a chart page plots the table's dates against the quote's cells under the pair's title; it can be drawn, and has a number to annotate when some row holds one |
| PdfBuilder.LineColor | src/pdf_builder.py:70-75 | on a drawable page, green exactly when the first and last cells are numbers and the last is the larger |
| PdfBuilder.LineWidthOf | src/pdf_builder.py:76 | on a drawable page with n dates, the width w satisfies (w-1)n <= 100 < wn, lies between 1 and 11, and is 1 beyond 100 dates |
| PdfBuilder.TickIntervalOf | src/pdf_builder.py:133 | on a drawable page, the interval is positive and is the number of dates divided by 10, rounded down |
| PdfBuilder.AnnotationOf | src/pdf_builder.py:101-108 | the annotation sits at the earliest date of the page and at its highest rate, which is one of the page's cells |
| PdfBuilder.AnnotationShows | src/pdf_builder.py:102-105 | the Max line shows the highest rate; the Min line shows a rate that is one of the cells and no cell is below; the Avg line shows the mean of the cells that are not NaN, which lies between the two |
| PdfBuilder.BaseCharts | src/pdf_builder.py:44-45 | the inner loop makes one chart per quote, and each can be drawn |
| PdfBuilder.PairError | src/pdf_builder.py:49-62 | a pair fails exactly when it cannot be charted: a missing column first, then a table too short for the tick locator |
| PdfBuilder.FirstFailingQuote | src/pdf_builder.py:44-45 | no failure exactly when every quote can be charted; a reported failure is the error of a requested quote |
| PdfBuilder.FirstFailure | src/pdf_builder.py:39-45 | no failure exactly when every base is stored and every quote can be charted from its table; a reported base is requested and not stored; a reported missing quote is requested and not a column of a stored base; a reported tick failure names a requested pair whose stored table has the column but fewer than 10 rows |
| PdfBuilder.FirstFailureBaseAt | src/pdf_builder.py:42-43 | the failure is the first base missing from the store when the earlier bases passed |
| PdfBuilder.FirstFailingQuoteAt | src/pdf_builder.py:44-45 | the failure is the error of the first quote that cannot be charted when the earlier quotes passed |
| PdfBuilder.FirstFailureAfter | src/pdf_builder.py:42-45 | after the earlier bases passed, the first failing quote of the current base is the failure |
| PdfBuilder.ChartsDrawable | src/pdf_builder.py:42-45 | every chart of the document can be drawn |
| PdfBuilder.ChartsLength | src/pdf_builder.py:42-45 | there is exactly one chart per (base, quote) pair |
| PdfBuilder.ChartsAt | src/pdf_builder.py:42-45 | the chart of bases[i] with quotes[j] comes at position i times the number of quotes plus j |
| PdfBuilder.PageOrder | src/pdf_builder.py:37-46 | the title page comes first, then the chart of each pair at 1 plus that pair's position in the nested loop, with one page per pair |
| PdfBuilder.QuoteStep | src/pdf_builder.py:44-45 | one more passing quote appends its chart to the base's charts |
| PdfBuilder.BaseStep | src/pdf_builder.py:42-45 | one more passing base appends its charts to the document's charts |
| PdfBuilder.ChartsForBase | src/pdf_builder.py:44-45 | the inner loop succeeds exactly when every quote can be charted; the charts are then one per quote in order, and otherwise the error is that of the first failing quote |
| PdfBuilder.ChartsPdfBuilder.constructor | src/pdf_builder.py:24-35 | the builder keeps the storage, both currency lists and the metadata |
| PdfBuilder.ChartsPdfBuilder.ComposePdf | src/pdf_builder.py:37-47 | succeeds exactly when every base is stored and every quote is a column of each base's table with at least 10 rows, and then gives the title page, every pair's chart in loop order and the metadata; otherwise the error is the first failure in loop order |

## Left out

- Network and concurrency: the aiohttp session, `asyncio.gather` and the
  scheduling of requests are replaced by the `fetch` parameter, applied to each
  request in order. The model does not capture requests that run at the same
  time, or a fetch that answers differently when asked twice.
- Logging is left out: the two `logging.exception` calls in `_get`, the
  `logging.debug` of the raw response in `get_currency_rates_for_date`, and
  the `logging.info` at the end of `compose_pdf`. The trace helper and the
  exception classes in `src/exceptions.py` are not part of this model.
  `StorageError` and `CurrencyApiError` are data constructors here.
- `main.py` at the repository root and the command line are not part of this
  model.
- Reading `pdf_metadata.json` in the constructor is file I/O. The metadata is
  a constructor parameter.
- `_set_styles` is left out. It applies the style sheet named by the plot
  style argument with `plt.style.use` and sets matplotlib colours through
  `rcParams`, and none of this changes which pages are made.
- All matplotlib drawing is left out: figures, `savefig`, the background
  colour, the axis labels `_set_labels`, the `%b-%d` date formatter, tick
  rotation and font sizes. The same goes for writing the PDF file through
  PdfPages, including the partial file left behind when composing fails. A
  chart page records its title and data, and the drawing decisions are
  functions of the page.
- `PdfBuilder.TickIntervalOf`: the failure for a table with fewer than 10 rows
  rests on matplotlib's `DayLocator`, which raises `ValueError` for an
  interval below 1. That library is not part of this model.
- `PdfBuilder.FormatNum`: rounding and humanize's thousands separators are
  not modelled. The result records the value and its number of decimals,
  or the truncated whole part.
- `PdfBuilder.Mean`: this is exact real arithmetic. pandas' floating-point
  mean is not modelled.
- `PdfBuilder.AnnotationOf`: a page whose cells are all NaN gets no
  annotation in the model. pandas gives NaN for min, max and mean there, and
  what the annotation then shows is not modelled.
- Rates are reals, so float rounding and infinities are not modelled.
- `PdfBuilder.Cell`: a rate that is a string, a boolean, a list or an object
  is read as NaN. pandas keeps such a value in an object column, and what
  matplotlib and the statistics then do with it is not modelled.
- `ApiClient.ParseDate`: only ASCII digits are accepted. Python's `\d` would
  also accept other Unicode digits.
- `PdfBuilder.UpperChar`: upper-casing covers only ASCII letters.
- `ApiClient.FormatDate`: the year is always written with four digits, zero
  padded. Some platforms write years before 1000 with fewer digits, and
  strptime would then reject the text, so for those platforms
  `ApiClient.ParseFormatDate` holds from year 1000 on only.
- `reset_index` adds an `index` column, which is not modelled. A quote
  currency named `index` would read that column instead of a rate.
- A quote currency named `date` is left out. It would clash with the date
  column, because the record's `date` key is overwritten by a rate of that
  name when the row dict is built.
- `RatesStorage.SortByDate`: pandas' default sort is not stable, so the model
  promises only date order and the same rows. It does not promise an order
  for rows of the same date.
- `RatesStorage.Storage.Rates`: this returns the store as a value. Python
  hands out the live dictionary, so aliasing is not modelled.
