/** The page plan and the drawing decisions of ChartsPDFBuilder
    (src/pdf_builder.py): a title page, then one chart page per
    (base, quote) pair, base-major; for each chart its title, trend colour,
    line width, Min/Max/Avg annotation, anchor point and tick interval.
    Plotting and writing the PDF file are not modelled: a page is the
    record of what would be drawn on it. */
module PdfBuilder {
  import opened Wrappers
  import opened Seqs
  import opened ApiClient
  import opened RatesStorage

  // ---------------------------------------------------------------------------
  // Columns of a currency's table

  /** The columns of the frame built from the row dicts, `date` aside: the
      union of the rows' keys. */
  function Columns(table: seq<Row>): (cols: set<string>)
    ensures forall i, q :: 0 <= i < |table| && q in table[i].rates ==> q in cols
  {
    if table == [] then {} else Columns(table[..|table| - 1]) + table[|table| - 1].rates.Keys
  }

  lemma {:induction false} ColumnsOfRows(table: seq<Row>, quote: string)
    ensures quote in Columns(table) <==> exists i :: 0 <= i < |table| && quote in table[i].rates
  {
    if table != [] {
      var n := |table| - 1;
      ColumnsOfRows(table[..n], quote);
      assert forall i :: 0 <= i < n ==> table[..n][i] == table[i];
    }
  }

  /** `quote in df.columns`: some row has an entry for the quote. */
  predicate HasColumn(table: seq<Row>, quote: string)
    ensures HasColumn(table, quote) <==> quote in Columns(table)
  {
    ColumnsOfRows(table, quote);
    exists i :: 0 <= i < |table| && quote in table[i].rates
  }

  /** The float pandas holds for one JSON value: a number, or NaN for null.
      Other values (strings, booleans, lists, objects) are read as NaN too. */
  function Cell(v: Json): (c: Option<real>)
    ensures c.Some? <==> v.JNum?
    ensures v.JNum? ==> c.value == v.n
  {
    if v.JNum? then Some(v.n) else None
  }

  /** `df[quote]`: a cell per row, None (NaN) where the row has no number for
      the quote. */
  function Column(table: seq<Row>, quote: string): (col: seq<Option<real>>)
    ensures |col| == |table|
    ensures forall i :: 0 <= i < |table| ==>
              col[i] == if quote in table[i].rates then Cell(table[i].rates[quote]) else None
  {
    seq(|table|, i requires 0 <= i < |table| =>
      if quote in table[i].rates then Cell(table[i].rates[quote]) else None)
  }

  /** `df['date']`. */
  function DateColumn(table: seq<Row>): (dates: seq<Date>)
    ensures |dates| == |table| && forall i :: 0 <= i < |table| ==> dates[i] == table[i].date
  {
    seq(|table|, i requires 0 <= i < |table| => table[i].date)
  }

  /** How many cells of col hold the number v. */
  function CountSome(col: seq<Option<real>>, v: real): nat
  {
    if col == [] then 0 else (if col[0] == Some(v) then 1 else 0) + CountSome(col[1..], v)
  }

  /** The cells that are not NaN, in order and with repeats: what pandas'
      min, max and mean see. */
  function Present(col: seq<Option<real>>): (xs: seq<real>)
    ensures forall i :: 0 <= i < |col| && col[i].Some? ==> col[i].value in xs
    ensures forall k :: 0 <= k < |xs| ==> Some(xs[k]) in col
  {
    if col == [] then []
    else (if col[0].Some? then [col[0].value] else []) + Present(col[1..])
  }

  /** Present keeps repeats: each number occurs in it as often as in the
      cells, so the mean weighs every cell once. */
  lemma {:induction false} PresentCounts(col: seq<Option<real>>)
    ensures forall v :: multiset(Present(col))[v] == CountSome(col, v)
  {
    if col != [] {
      PresentCounts(col[1..]);
      var head: seq<real> := if col[0].Some? then [col[0].value] else [];
      assert Present(col) == head + Present(col[1..]);
      assert forall v :: multiset(head)[v] == (if col[0] == Some(v) then 1 else 0);
    }
  }

  /** Some row holds a number for the quote. */
  predicate HasRate(table: seq<Row>, quote: string)
  {
    exists i :: 0 <= i < |table| && quote in table[i].rates && table[i].rates[quote].JNum?
  }

  lemma PresentOfColumn(table: seq<Row>, quote: string)
    requires HasRate(table, quote)
    ensures |Present(Column(table, quote))| > 0
  {
    var i :| 0 <= i < |table| && quote in table[i].rates && table[i].rates[quote].JNum?;
    assert Column(table, quote)[i].Some?;
  }

  // ---------------------------------------------------------------------------
  // Summary statistics

  function Min(xs: seq<real>): (m: real)
    requires |xs| > 0
    ensures m in xs && forall k :: 0 <= k < |xs| ==> m <= xs[k]
  {
    if |xs| == 1 then xs[0]
    else var rest := Min(xs[1..]); if xs[0] <= rest then xs[0] else rest
  }

  function Max(xs: seq<real>): (m: real)
    requires |xs| > 0
    ensures m in xs && forall k :: 0 <= k < |xs| ==> xs[k] <= m
  {
    if |xs| == 1 then xs[0]
    else var rest := Max(xs[1..]); if xs[0] >= rest then xs[0] else rest
  }

  function Sum(xs: seq<real>): real
  {
    if xs == [] then 0.0 else xs[0] + Sum(xs[1..])
  }

  lemma {:induction false} SumBounds(xs: seq<real>, lo: real, hi: real)
    requires forall k :: 0 <= k < |xs| ==> lo <= xs[k] <= hi
    ensures (|xs| as real) * lo <= Sum(xs) <= (|xs| as real) * hi
  {
    if xs != [] {
      SumBounds(xs[1..], lo, hi);
    }
  }

  lemma DivBounds(s: real, n: real, lo: real, hi: real)
    requires n > 0.0 && n * lo <= s <= n * hi
    ensures lo <= s / n <= hi
  {
    assert s / n - lo == (s - n * lo) / n;
    assert hi - s / n == (n * hi - s) / n;
  }

  lemma DivTimes(s: real, k: nat, q: real)
    requires k > 0 && q == s / (k as real)
    ensures q * (k as real) == s
  {
  }

  /** An average lies between any bounds of its values. */
  lemma AverageBounds(xs: seq<real>, lo: real, hi: real)
    requires |xs| > 0 && forall k :: 0 <= k < |xs| ==> lo <= xs[k] <= hi
    ensures lo <= Sum(xs) / (|xs| as real) <= hi
  {
    SumBounds(xs, lo, hi);
    DivBounds(Sum(xs), |xs| as real, lo, hi);
  }

  /** The arithmetic mean (exact; pandas computes it in floating point):
      the sum over the count, so that times the count it gives the sum. */
  function Mean(xs: seq<real>): (m: real)
    requires |xs| > 0
    ensures m * (|xs| as real) == Sum(xs)
  {
    DivTimes(Sum(xs), |xs|, Sum(xs) / (|xs| as real));
    Sum(xs) / (|xs| as real)
  }

  lemma {:induction false} MeanIsQuotient(xs: seq<real>)
    requires |xs| > 0
    ensures Mean(xs) == Sum(xs) / (|xs| as real)
  {
  }

  /** The mean lies between the minimum and the maximum. */
  lemma {:induction false} MeanBetween(xs: seq<real>)
    requires |xs| > 0
    ensures Min(xs) <= Mean(xs) <= Max(xs)
  {
    MeanIsQuotient(xs);
    AverageBounds(xs, Min(xs), Max(xs));
  }

  /** `dates.min()`. */
  function Earliest(dates: seq<Date>): (d: Date)
    requires |dates| > 0
    ensures d in dates && forall k :: 0 <= k < |dates| ==> OnOrBefore(d, dates[k])
  {
    if |dates| == 1 then dates[0]
    else
      var rest := Earliest(dates[1..]);
      assert forall k :: 1 <= k < |dates| ==> dates[k] == dates[1..][k - 1];
      if OnOrBefore(dates[0], rest) then dates[0] else rest
  }

  // ---------------------------------------------------------------------------
  // Line colour and width, tick interval

  /** Colors.GREEN ('#2FA01D') and Colors.RED ('#EE5F48'). */
  datatype Color = Green | Red

  /** `GREEN if last_rate > first_rate else RED`; a NaN endpoint makes the
      comparison false. */
  function TrendColor(col: seq<Option<real>>): (c: Color)
    requires |col| > 0
    ensures c == Green <==> col[0].Some? && col[|col| - 1].Some? && col[0].value < col[|col| - 1].value
  {
    var first, last := col[0], col[|col| - 1];
    if first.Some? && last.Some? && last.value > first.value then Green else Red
  }

  /** A complete series is green exactly when it ends above where it began. */
  lemma {:induction false} StepsRise(xs: seq<real>)
    requires |xs| >= 2 && forall k :: 0 <= k < |xs| - 1 ==> xs[k] < xs[k + 1]
    ensures xs[0] < xs[|xs| - 1]
  {
    if |xs| > 2 {
      StepsRise(xs[1..]);
    }
  }

  lemma {:induction false} StepsDoNotRise(xs: seq<real>)
    requires |xs| >= 1 && forall k :: 0 <= k < |xs| - 1 ==> xs[k] >= xs[k + 1]
    ensures xs[0] >= xs[|xs| - 1]
  {
    if |xs| > 1 {
      StepsDoNotRise(xs[1..]);
    }
  }

  function Complete(xs: seq<real>): (col: seq<Option<real>>)
    ensures |col| == |xs| && forall k :: 0 <= k < |xs| ==> col[k] == Some(xs[k])
  {
    seq(|xs|, k requires 0 <= k < |xs| => Some(xs[k]))
  }

  /** A series that rises at every step is drawn green; one that never rises
      (flat series included) is drawn red. */
  lemma RisingGreenFallingRed(xs: seq<real>)
    requires |xs| >= 1
    ensures (|xs| >= 2 && forall k :: 0 <= k < |xs| - 1 ==> xs[k] < xs[k + 1]) ==> TrendColor(Complete(xs)) == Green
    ensures (forall k :: 0 <= k < |xs| - 1 ==> xs[k] >= xs[k + 1]) ==> TrendColor(Complete(xs)) == Red
  {
    if |xs| >= 2 && forall k :: 0 <= k < |xs| - 1 ==> xs[k] < xs[k + 1] {
      StepsRise(xs);
    }
    if forall k :: 0 <= k < |xs| - 1 ==> xs[k] >= xs[k + 1] {
      StepsDoNotRise(xs);
    }
  }

  /** `int(100 / len(dates)) + 1`. */
  function LineWidth(n: int): (w: int)
    requires n >= 1
    ensures (w - 1) * n <= 100 < w * n
    ensures w >= 1
    ensures n > 100 ==> w == 1
    ensures n <= 100 ==> w >= 2
  {
    assert 100 == (100 / n) * n + 100 % n;
    100 / n + 1
  }

  lemma DivLowerBound(q: int, m: int)
    requires q >= 0 && m >= 1 && q * m <= 100
    ensures q <= 100 / m
  {
    var d, r := 100 / m, 100 % m;
    assert 100 == d * m + r && 0 <= r < m;
  }

  /** From 10 points on, the line is at most 11 wide. */
  lemma LineWidthAtMostEleven(n: int)
    requires n >= 10
    ensures LineWidth(n) <= 11
  {
    var q := 100 / n;
    assert q * n <= 100;
    MulMonotone(10, n, q);
  }

  /** More points never give a thicker line. */
  lemma LineWidthMonotone(m: int, n: int)
    requires 1 <= m <= n
    ensures LineWidth(n) <= LineWidth(m)
  {
    var q := 100 / n;
    assert q * n <= 100;
    assert q * m <= q * n by {
      MulMonotone(m, n, q);
    }
    DivLowerBound(q, m);
  }

  /** `DayLocator(interval=int(len(dates) / 10))`: no lower clamp. */
  function TickInterval(n: nat): (k: int)
    ensures 10 * k <= n < 10 * k + 10
    ensures k == 0 <==> n < 10
  {
    n / 10
  }

  // ---------------------------------------------------------------------------
  // Number precision

  /** What `_format_num` shows: the value rounded to some decimals, or the
      whole part that `int(num)` keeps. The digits and thousands separators
      that humanize.intcomma prints are not modelled. */
  datatype Shown = Rounded(value: real, decimals: nat) | Truncated(whole: int)

  /** Python's `int(x)` on a float: truncation toward zero. */
  function TruncateTowardZero(x: real): (k: int)
    ensures x >= 0.0 ==> k as real <= x < k as real + 1.0
    ensures x < 0.0 ==> k as real - 1.0 < x <= k as real
  {
    if x >= 0.0 then x.Floor else -((-x).Floor)
  }

  /** `_format_num`: two decimals below 100, one from 100 to 200, and above
      200 the truncated whole part (305.8 shows as 305). */
  function FormatNum(num: real): (s: Shown)
    ensures num < 100.0 ==> s == Rounded(num, 2)
    ensures 100.0 <= num <= 200.0 ==> s == Rounded(num, 1)
    ensures num > 200.0 ==> s.Truncated? && s.whole as real <= num < s.whole as real + 1.0
  {
    var precision := if num < 100.0 then 2 else if num > 200.0 then 0 else 1;
    if precision != 0 then Rounded(num, precision) else Truncated(TruncateTowardZero(num))
  }

  lemma FormatNumExamples()
    ensures FormatNum(42.345) == Rounded(42.345, 2)
    ensures FormatNum(150.2) == Rounded(150.2, 1)
    ensures FormatNum(305.8) == Truncated(305)
  {
  }

  // ---------------------------------------------------------------------------
  // Strings: upper case, join, split

  /** `str.upper()` on ASCII letters. */
  function UpperChar(c: char): (u: char)
    ensures ('a' <= c <= 'z') ==> 'A' <= u <= 'Z' && u as int == c as int - ('a' as int - 'A' as int)
    ensures !('a' <= c <= 'z') ==> u == c
  {
    if 'a' <= c <= 'z' then (c as int - 32) as char else c
  }

  function Upper(s: string): (u: string)
    ensures |u| == |s| && forall i :: 0 <= i < |s| ==> u[i] == UpperChar(s[i])
  {
    seq(|s|, i requires 0 <= i < |s| => UpperChar(s[i]))
  }

  function UpperAll(xs: seq<string>): (us: seq<string>)
    ensures |us| == |xs| && forall i :: 0 <= i < |xs| ==> us[i] == Upper(xs[i])
  {
    seq(|xs|, i requires 0 <= i < |xs| => Upper(xs[i]))
  }

  /** Upper-casing does not create a separator that is not a letter. */
  lemma UpperKeepsSeparator(s: string, sep: char)
    requires !('a' <= sep <= 'z') && !('A' <= sep <= 'Z') && sep !in s
    ensures sep !in Upper(s)
  {
  }

  /** `sep.join(xs)`: two or more elements are separated. */
  function Join(xs: seq<string>, sep: char): (s: string)
    ensures |xs| >= 2 ==> sep in s
  {
    if xs == [] then ""
    else if |xs| == 1 then xs[0]
    else xs[0] + [sep] + Join(xs[1..], sep)
  }

  /** Joining adds no character but the separator. */
  lemma {:induction false} JoinChars(xs: seq<string>, sep: char)
    ensures forall c :: c in Join(xs, sep) ==> c == sep || exists i :: 0 <= i < |xs| && c in xs[i]
  {
    if |xs| >= 2 {
      JoinChars(xs[1..], sep);
      forall c | c in Join(xs, sep) ensures c == sep || exists i :: 0 <= i < |xs| && c in xs[i] {
        if c in xs[0] {
        } else if c != sep {
          assert c in Join(xs[1..], sep);
          var i :| 0 <= i < |xs[1..]| && c in xs[1..][i];
          assert c in xs[i + 1];
        }
      }
    } else if |xs| == 1 {
      forall c | c in Join(xs, sep) ensures exists i :: 0 <= i < |xs| && c in xs[i] {
        assert c in xs[0];
      }
    }
  }

  /** `s.split(sep)` with an explicit separator: empty pieces are kept. */
  function Split(s: string, sep: char): (parts: seq<string>)
    ensures |parts| >= 1
  {
    if s == [] then [[]]
    else
      var rest := Split(s[1..], sep);
      if s[0] == sep then [[]] + rest else [[s[0]] + rest[0]] + rest[1..]
  }

  lemma {:induction false} SplitPrefix(a: string, t: string, sep: char)
    requires sep !in a
    ensures Split(a + t, sep) == [a + Split(t, sep)[0]] + Split(t, sep)[1..]
  {
    if a != [] {
      SplitPrefix(a[1..], t, sep);
      assert (a + t)[1..] == a[1..] + t;
      assert [a[0]] + (a[1..] + Split(t, sep)[0]) == a + Split(t, sep)[0];
    } else {
      var parts := Split(t, sep);
      assert a + t == t && a + parts[0] == parts[0];
      assert [parts[0]] + parts[1..] == parts;
    }
  }

  /** Splitting a joined list at the separator gives the list back when no
      element contains the separator. */
  lemma {:induction false} SplitJoin(xs: seq<string>, sep: char)
    requires xs != [] && forall i :: 0 <= i < |xs| ==> sep !in xs[i]
    ensures Split(Join(xs, sep), sep) == xs
  {
    if |xs| == 1 {
      SplitPrefix(xs[0], [], sep);
      assert Join(xs, sep) == xs[0] + [];
      assert Split([], sep) == [[]];
      assert xs == [xs[0] + []];
    } else {
      var rest := Join(xs[1..], sep);
      SplitJoin(xs[1..], sep);
      SplitPrefix(xs[0], [sep] + rest, sep);
      assert xs[0] + [sep] + rest == xs[0] + ([sep] + rest);
      assert ([sep] + rest)[1..] == rest;
      assert Split([sep] + rest, sep) == [[]] + xs[1..];
      assert xs[0] + [] == xs[0];
      assert xs == [xs[0]] + xs[1..];
    }
  }

  // ---------------------------------------------------------------------------
  // Pages

  /** `_set_title`. */
  function Title(base: string, quote: string): (t: string)
    ensures |t| == |base| + 1 + |quote|
    ensures t[..|base|] == Upper(base) && t[|base|] == '-' && t[|base| + 1..] == Upper(quote)
  {
    Upper(base) + "-" + Upper(quote)
  }

  /** The title names the pair: split at '-', it gives back both upper-cased
      codes when neither contains '-'. */
  lemma TitleNamesPair(base: string, quote: string)
    requires '-' !in base && '-' !in quote
    ensures Split(Title(base, quote), '-') == [Upper(base), Upper(quote)]
  {
    UpperKeepsSeparator(base, '-');
    UpperKeepsSeparator(quote, '-');
    assert Join([Upper(base), Upper(quote)], '-') == Title(base, quote);
    SplitJoin([Upper(base), Upper(quote)], '-');
  }

  datatype Annotation = Annotation(minShown: Shown, maxShown: Shown, avgShown: Shown, anchorDate: Date, anchorRate: real)

  /** A page of the document. A chart page records the series it plots; the
      drawing decisions for it (colour, width, annotation, ticks) are the
      functions below. */
  datatype Page =
    | TitlePage(heading: string, baseLine: string, connector: string, quoteLine: string)
    | ChartPage(title: string, dates: seq<Date>, rates: seq<Option<real>>)

  /** A list of currency codes that a title-page line can list word by word. */
  predicate SpaceFree(xs: seq<string>)
  {
    xs != [] && forall i :: 0 <= i < |xs| ==> ' ' !in xs[i]
  }

  /** A title-page line lists exactly the upper-cased currencies, one per
      space-separated word, when no code contains a space. */
  lemma CurrencyLineLists(xs: seq<string>)
    ensures SpaceFree(xs) ==> Split(Join(UpperAll(xs), ' '), ' ') == UpperAll(xs)
  {
    if SpaceFree(xs) {
      forall i | 0 <= i < |xs| ensures ' ' !in UpperAll(xs)[i] {
        UpperKeepsSeparator(xs[i], ' ');
      }
      SplitJoin(UpperAll(xs), ' ');
    }
  }

  /** `_create_title_page`: the heading, the base currencies, "with", the
      quote currencies. */
  function TitlePageFor(bases: seq<string>, quotes: seq<string>): (p: Page)
    ensures p.TitlePage? && p.heading == "Exchange Rates Charts" && p.connector == "with"
  {
    TitlePage("Exchange Rates Charts", Join(UpperAll(bases), ' '), "with", Join(UpperAll(quotes), ' '))
  }

  /** The title page lists the base currencies on one line and the quote
      currencies on another, upper-cased and in order, one per word. */
  lemma TitlePageLists(bases: seq<string>, quotes: seq<string>)
    ensures SpaceFree(bases) ==> Split(TitlePageFor(bases, quotes).baseLine, ' ') == UpperAll(bases)
    ensures SpaceFree(quotes) ==> Split(TitlePageFor(bases, quotes).quoteLine, ' ') == UpperAll(quotes)
  {
    CurrencyLineLists(bases);
    CurrencyLineLists(quotes);
  }

  /** The pair can be charted: `df[quote]` exists, and the table has at least
      10 rows so that `DayLocator(interval=int(len(dates) / 10))` gets a
      positive interval (matplotlib raises ValueError for 0). */
  predicate Chartable(table: seq<Row>, quote: string)
  {
    HasColumn(table, quote) && TickInterval(|table|) >= 1
  }

  /** A chart page that `_create_page` draws: one cell per date, and enough
      dates for a positive tick interval. */
  predicate Drawable(p: Page)
  {
    p.ChartPage? && |p.dates| == |p.rates| && TickInterval(|p.dates|) >= 1
  }

  /** A drawable page with at least one rate that is not NaN: the page whose
      annotation the model computes. */
  predicate Plottable(p: Page)
  {
    Drawable(p) && |Present(p.rates)| > 0
  }

  /** `_create_page` for one (base, quote) pair: the title, `df['date']` and
      `df[quote]`. */
  function ChartPageFor(table: seq<Row>, base: string, quote: string): (p: Page)
    requires Chartable(table, quote)
    ensures p.ChartPage? && p.title == Title(base, quote)
    ensures p.dates == DateColumn(table) && p.rates == Column(table, quote)
    ensures Drawable(p)
    ensures HasRate(table, quote) ==> Plottable(p)
  {
    if HasRate(table, quote) then
      PresentOfColumn(table, quote);
      ChartPage(Title(base, quote), DateColumn(table), Column(table, quote))
    else
      ChartPage(Title(base, quote), DateColumn(table), Column(table, quote))
  }

  /** `_create_plot`: the line colour, green exactly when the first and the
      last cell are numbers and the last is the larger. */
  function LineColor(p: Page): (c: Color)
    requires Drawable(p)
    ensures c == Green <==> p.rates[0].Some? && p.rates[|p.rates| - 1].Some?
                            && p.rates[0].value < p.rates[|p.rates| - 1].value
  {
    TrendColor(p.rates)
  }

  /** `_create_plot`: the line width, between 1 and 11 on a drawable page,
      and 1 beyond 100 dates. */
  function LineWidthOf(p: Page): (w: int)
    requires Drawable(p)
    ensures (w - 1) * |p.dates| <= 100 < w * |p.dates|
    ensures 1 <= w <= 11
    ensures |p.dates| > 100 ==> w == 1
  {
    LineWidthAtMostEleven(|p.dates|);
    LineWidth(|p.dates|)
  }

  /** `_format_dates`: the day interval of the major ticks, positive on a
      drawable page. */
  function TickIntervalOf(p: Page): (k: int)
    requires Drawable(p)
    ensures k >= 1 && 10 * k <= |p.dates| < 10 * k + 10
  {
    TickInterval(|p.dates|)
  }

  lemma MaxOfPresent(col: seq<Option<real>>)
    requires |Present(col)| > 0
    ensures Some(Max(Present(col))) in col
    ensures forall k :: 0 <= k < |col| && col[k].Some? ==> col[k].value <= Max(Present(col))
  {
    var values := Present(col);
    forall k | 0 <= k < |col| && col[k].Some? ensures col[k].value <= Max(values) {
      assert col[k].value in values;
    }
  }

  /** `_set_annotations`: the Min/Max/Avg text, anchored at the earliest date
      of the page and at its highest rate, which is one of its cells. */
  function AnnotationOf(p: Page): (a: Annotation)
    requires Plottable(p)
    ensures a.anchorDate in p.dates
    ensures forall k :: 0 <= k < |p.dates| ==> OnOrBefore(a.anchorDate, p.dates[k])
    ensures Some(a.anchorRate) in p.rates
    ensures forall k :: 0 <= k < |p.rates| && p.rates[k].Some? ==> p.rates[k].value <= a.anchorRate
  {
    var values := Present(p.rates);
    MaxOfPresent(p.rates);
    Annotation(FormatNum(Min(values)), FormatNum(Max(values)), FormatNum(Mean(values)),
               Earliest(p.dates), Max(values))
  }

  /** The three lines of the annotation: Max shows the highest rate, Min a
      rate that is one of the cells and is below every other, and Avg the
      mean of the present cells, which lies between the two. */
  lemma AnnotationShows(p: Page)
    requires Plottable(p)
    ensures var a := AnnotationOf(p);
            a.maxShown == FormatNum(a.anchorRate)
            && exists lo, avg :: a.minShown == FormatNum(lo) && a.avgShown == FormatNum(avg)
                                 && Some(lo) in p.rates
                                 && (forall k :: 0 <= k < |p.rates| && p.rates[k].Some? ==> lo <= p.rates[k].value)
                                 && avg == Mean(Present(p.rates))
                                 && lo <= avg <= a.anchorRate
  {
    var values := Present(p.rates);
    var lo, avg := Min(values), Mean(values);
    MeanBetween(values);
    assert Some(lo) in p.rates;
    forall k | 0 <= k < |p.rates| && p.rates[k].Some? ensures lo <= p.rates[k].value {
      assert p.rates[k].value in values;
    }
  }

  // ---------------------------------------------------------------------------
  // Composition

  datatype Document = Document(pages: seq<Page>, metadata: map<string, string>)

  /** What stops composition: the KeyError of `rates[base]` or `df[quote]`,
      or the ValueError of a DayLocator with interval 0. */
  datatype RenderError =
    | MissingBase(base: string)
    | MissingQuote(base: string, quote: string)
    | TickIntervalError(base: string, quote: string)

  /** Every requested quote can be charted from the table. */
  predicate AllChartable(table: seq<Row>, quotes: seq<string>)
  {
    forall q :: q in quotes ==> Chartable(table, q)
  }

  /** Every requested base is in the store and every requested quote can be
      charted from each base's table. */
  predicate Renderable(store: Store, bases: seq<string>, quotes: seq<string>)
  {
    forall b :: b in bases ==> b in store && AllChartable(store[b], quotes)
  }

  /** The charts of the inner loop for one base, one per quote in order. */
  function BaseCharts(table: seq<Row>, base: string, quotes: seq<string>): (pages: seq<Page>)
    requires AllChartable(table, quotes)
    ensures |pages| == |quotes|
    ensures forall k :: 0 <= k < |pages| ==> Drawable(pages[k])
  {
    seq(|quotes|, j requires 0 <= j < |quotes| && AllChartable(table, quotes) =>
      assert quotes[j] in quotes; ChartPageFor(table, base, quotes[j]))
  }

  /** The charts of both loops: base by base, each base's quotes in order. */
  function Charts(store: Store, bases: seq<string>, quotes: seq<string>): seq<Page>
    requires Renderable(store, bases, quotes)
  {
    if bases == [] then []
    else
      var n := |bases| - 1;
      assert forall b :: b in bases[..n] ==> b in bases;
      assert bases[n] in bases;
      Charts(store, bases[..n], quotes) + BaseCharts(store[bases[n]], bases[n], quotes)
  }

  /** The error `_create_page` raises for one pair, if any: the missing
      column first, then the tick interval. */
  function PairError(table: seq<Row>, base: string, quote: string): (r: Option<RenderError>)
    ensures r.None? <==> Chartable(table, quote)
    ensures r.Some? ==> r.value == (if HasColumn(table, quote) then TickIntervalError(base, quote)
                                    else MissingQuote(base, quote))
  {
    if !HasColumn(table, quote) then Some(MissingQuote(base, quote))
    else if TickInterval(|table|) < 1 then Some(TickIntervalError(base, quote))
    else None
  }

  /** The first pair of the inner loop that fails, if one does. */
  function FirstFailingQuote(table: seq<Row>, base: string, quotes: seq<string>): (r: Option<RenderError>)
    ensures r.None? <==> AllChartable(table, quotes)
    ensures r.Some? ==> exists q :: q in quotes && PairError(table, base, q) == r
  {
    if quotes == [] then None
    else if PairError(table, base, quotes[0]).Some? then PairError(table, base, quotes[0])
    else FirstFailingQuote(table, base, quotes[1..])
  }

  /** The lookup or check that fails first in the order of the loops, if one
      does. */
  function FirstFailure(store: Store, bases: seq<string>, quotes: seq<string>): (r: Option<RenderError>)
    ensures r.None? <==> Renderable(store, bases, quotes)
    ensures r.Some? && r.value.MissingBase? ==> r.value.base in bases && r.value.base !in store
    ensures r.Some? && r.value.MissingQuote? ==>
              r.value.base in bases && r.value.base in store && r.value.quote in quotes
              && !HasColumn(store[r.value.base], r.value.quote)
    ensures r.Some? && r.value.TickIntervalError? ==>
              r.value.base in bases && r.value.base in store && r.value.quote in quotes
              && HasColumn(store[r.value.base], r.value.quote) && |store[r.value.base]| < 10
  {
    if bases == [] then None
    else if bases[0] !in store then Some(MissingBase(bases[0]))
    else match FirstFailingQuote(store[bases[0]], bases[0], quotes)
      case Some(e) => Some(e)
      case None => FirstFailure(store, bases[1..], quotes)
  }

  lemma {:induction false} FirstFailureBaseAt(store: Store, bases: seq<string>, quotes: seq<string>, i: nat)
    requires i < |bases| && Renderable(store, bases[..i], quotes) && bases[i] !in store
    ensures FirstFailure(store, bases, quotes) == Some(MissingBase(bases[i]))
  {
    if i > 0 {
      assert bases[0] in bases[..i];
      assert bases[1..][..i - 1] == bases[1..i];
      assert forall b :: b in bases[1..i] ==> b in bases[..i];
      FirstFailureBaseAt(store, bases[1..], quotes, i - 1);
    }
  }

  lemma {:induction false} FirstFailingQuoteAt(table: seq<Row>, base: string, quotes: seq<string>, j: nat)
    requires j < |quotes| && !Chartable(table, quotes[j])
    requires AllChartable(table, quotes[..j])
    ensures FirstFailingQuote(table, base, quotes) == PairError(table, base, quotes[j])
  {
    if j > 0 {
      assert quotes[0] in quotes[..j];
      assert forall q :: q in quotes[1..][..j - 1] ==> q in quotes[..j];
      FirstFailingQuoteAt(table, base, quotes[1..], j - 1);
    }
  }

  /** Once the first i bases passed, the outcome is decided by base i. */
  lemma {:induction false} FirstFailureAfter(store: Store, bases: seq<string>, quotes: seq<string>, i: nat)
    requires i < |bases| && Renderable(store, bases[..i], quotes) && bases[i] in store
    requires FirstFailingQuote(store[bases[i]], bases[i], quotes).Some?
    ensures FirstFailure(store, bases, quotes) == FirstFailingQuote(store[bases[i]], bases[i], quotes)
  {
    if i > 0 {
      assert bases[0] in bases[..i];
      assert bases[1..][..i - 1] == bases[1..i];
      assert forall b :: b in bases[1..i] ==> b in bases[..i];
      FirstFailureAfter(store, bases[1..], quotes, i - 1);
    }
  }

  /** Every chart of the document can be drawn: its colour, width, ticks
      and (when it has a number) its annotation are defined. */
  lemma {:induction false} ChartsDrawable(store: Store, bases: seq<string>, quotes: seq<string>)
    requires Renderable(store, bases, quotes)
    ensures forall k :: 0 <= k < |Charts(store, bases, quotes)| ==> Drawable(Charts(store, bases, quotes)[k])
  {
    if bases != [] {
      var n := |bases| - 1;
      assert forall b :: b in bases[..n] ==> b in bases;
      assert bases[n] in bases;
      ChartsDrawable(store, bases[..n], quotes);
    }
  }

  lemma {:induction false} ChartsLength(store: Store, bases: seq<string>, quotes: seq<string>)
    requires Renderable(store, bases, quotes)
    ensures |Charts(store, bases, quotes)| == |bases| * |quotes|
  {
    if bases != [] {
      var n := |bases| - 1;
      assert forall b :: b in bases[..n] ==> b in bases;
      ChartsLength(store, bases[..n], quotes);
      MulSucc(n, |quotes|);
    }
  }

  /** The chart for pair (bases[i], quotes[j]) comes at position
      ProductIndex(i, j, |quotes|), the position of that pair in
      Product(bases, quotes). */
  lemma {:induction false} ChartsAt(store: Store, bases: seq<string>, quotes: seq<string>, i: nat, j: nat)
    requires Renderable(store, bases, quotes) && i < |bases| && j < |quotes|
    ensures bases[i] in store && Chartable(store[bases[i]], quotes[j])
    ensures ProductIndex(i, j, |quotes|) < |Charts(store, bases, quotes)|
    ensures Charts(store, bases, quotes)[ProductIndex(i, j, |quotes|)]
            == ChartPageFor(store[bases[i]], bases[i], quotes[j])
  {
    assert bases[i] in bases && quotes[j] in quotes;
    var n := |bases| - 1;
    assert forall b :: b in bases[..n] ==> b in bases;
    ChartsLength(store, bases[..n], quotes);
    if i < n {
      assert (i + 1) * |quotes| <= n * |quotes| by {
        MulMonotone(i + 1, n, |quotes|);
      }
      ChartsAt(store, bases[..n], quotes, i, j);
    }
  }

  /** The pages of a composed document: the title page, then the chart for
      pair (bases[i], quotes[j]) at position 1 + ProductIndex(i, j, |quotes|),
      where Product(bases, quotes) has that pair; one page per pair. */
  lemma PageOrder(store: Store, bases: seq<string>, quotes: seq<string>, i: nat, j: nat)
    requires Renderable(store, bases, quotes) && i < |bases| && j < |quotes|
    ensures ProductIndex(i, j, |quotes|) < |bases| * |quotes|
    ensures Product(bases, quotes)[ProductIndex(i, j, |quotes|)] == (bases[i], quotes[j])
    ensures bases[i] in store && Chartable(store[bases[i]], quotes[j])
    ensures var pages := [TitlePageFor(bases, quotes)] + Charts(store, bases, quotes);
            && |pages| == 1 + |bases| * |quotes|
            && pages[0] == TitlePageFor(bases, quotes)
            && pages[1 + ProductIndex(i, j, |quotes|)] == ChartPageFor(store[bases[i]], bases[i], quotes[j])
  {
    ProductAt(bases, quotes, i, j);
    ChartsLength(store, bases, quotes);
    ChartsAt(store, bases, quotes, i, j);
  }

  lemma QuoteStep(table: seq<Row>, base: string, quotes: seq<string>, j: nat)
    requires j < |quotes| && Chartable(table, quotes[j]) && AllChartable(table, quotes[..j])
    ensures AllChartable(table, quotes[..j + 1])
    ensures BaseCharts(table, base, quotes[..j + 1]) == BaseCharts(table, base, quotes[..j]) + [ChartPageFor(table, base, quotes[j])]
  {
    assert quotes[..j + 1] == quotes[..j] + [quotes[j]];
  }

  lemma BaseStep(store: Store, bases: seq<string>, quotes: seq<string>, i: nat)
    requires i < |bases| && Renderable(store, bases[..i], quotes) && bases[i] in store
    requires AllChartable(store[bases[i]], quotes)
    ensures Renderable(store, bases[..i + 1], quotes)
    ensures Charts(store, bases[..i + 1], quotes)
            == Charts(store, bases[..i], quotes) + BaseCharts(store[bases[i]], bases[i], quotes)
  {
    assert forall b :: b in bases[..i + 1] ==> b in bases[..i] || b == bases[i];
    assert bases[..i + 1][..i] == bases[..i];
  }

  /** The inner loop of `compose_pdf` for one base: a chart per quote, in
      order, or the error of the first pair that cannot be charted. */
  method ChartsForBase(table: seq<Row>, base: string, quotes: seq<string>) returns (r: Result<seq<Page>, RenderError>)
    ensures r.Success? <==> AllChartable(table, quotes)
    ensures r.Failure? ==> FirstFailingQuote(table, base, quotes) == Some(r.error)
    ensures r.Success? ==> AllChartable(table, quotes) && r.value == BaseCharts(table, base, quotes)
  {
    var charts := [];
    var j := 0;
    while j < |quotes|
      invariant 0 <= j <= |quotes|
      invariant AllChartable(table, quotes[..j])
      invariant charts == BaseCharts(table, base, quotes[..j])
    {
      var quote := quotes[j];
      if !HasColumn(table, quote) {
        FirstFailingQuoteAt(table, base, quotes, j);
        return Failure(MissingQuote(base, quote));
      }
      if TickInterval(|table|) < 1 {
        FirstFailingQuoteAt(table, base, quotes, j);
        return Failure(TickIntervalError(base, quote));
      }
      QuoteStep(table, base, quotes, j);
      charts := charts + [ChartPageFor(table, base, quote)];
      j := j + 1;
    }
    assert quotes[..j] == quotes;
    return Success(charts);
  }

  /** ChartsPDFBuilder: the storage it reads when composing, the currency
      lists, and the document metadata (loaded from pdf_metadata.json). */
  class ChartsPdfBuilder {
    const storage: Storage
    const baseCurrencies: seq<string>
    const quoteCurrencies: seq<string>
    const metadata: map<string, string>

    constructor (storage: Storage, baseCurrencies: seq<string>, quoteCurrencies: seq<string>, metadata: map<string, string>)
      ensures this.storage == storage && this.metadata == metadata
      ensures this.baseCurrencies == baseCurrencies && this.quoteCurrencies == quoteCurrencies
    {
      this.storage := storage;
      this.baseCurrencies := baseCurrencies;
      this.quoteCurrencies := quoteCurrencies;
      this.metadata := metadata;
    }

    /** `compose_pdf`: the title page, then one chart per (base, quote) pair,
        bases outer and quotes inner, then the metadata. A missing base or
        quote, or a table too short for the tick locator, stops composition
        with the first error in loop order. */
    method ComposePdf() returns (r: Result<Document, RenderError>)
      ensures r.Success? <==> Renderable(storage.rates, baseCurrencies, quoteCurrencies)
      ensures r.Failure? ==> FirstFailure(storage.rates, baseCurrencies, quoteCurrencies) == Some(r.error)
      ensures r.Success? ==>
                r.value == Document([TitlePageFor(baseCurrencies, quoteCurrencies)]
                                    + Charts(storage.rates, baseCurrencies, quoteCurrencies), metadata)
    {
      var rates := storage.rates;
      var bases, quotes := baseCurrencies, quoteCurrencies;
      var pages := [TitlePageFor(bases, quotes)];
      var i := 0;
      while i < |bases|
        invariant 0 <= i <= |bases|
        invariant Renderable(rates, bases[..i], quotes)
        invariant pages == [TitlePageFor(bases, quotes)] + Charts(rates, bases[..i], quotes)
      {
        var base := bases[i];
        if base !in rates {
          FirstFailureBaseAt(rates, bases, quotes, i);
          return Failure(MissingBase(base));
        }
        var charts := ChartsForBase(rates[base], base, quotes);
        if charts.Failure? {
          FirstFailureAfter(rates, bases, quotes, i);
          return Failure(charts.error);
        }
        pages := pages + charts.value;
        BaseStep(rates, bases, quotes, i);
        i := i + 1;
      }
      assert bases[..i] == bases;
      r := Success(Document(pages, metadata));
    }
  }
}
