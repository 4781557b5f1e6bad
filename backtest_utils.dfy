/** The portfolio bookkeeping shared by both strategies: currency conversion keyed on
    the instrument name, the daily P&L and return statistics, and the rolling strategy
    scalar. */
module BacktestUtils {
  import opened Numerics
  import opened Names
  import opened Dates
  import opened Frames

  /** How an instrument name reads: a plain symbol (`AAPL`, priced in USD) or a pair
      `BASE_QUOTE` (it splits on `_` into exactly two pieces). */
  datatype Denomination = Plain | Pair(base: string, quote: string)

  function Denom(inst: string): Denomination
  {
    var parts := Split(inst, '_');
    if |parts| == 2 then Pair(parts[0], parts[1]) else Plain
  }

  /** A name is a pair exactly when it holds one `_`, and it is then `base + "_" + quote`. */
  lemma DenomReadsName(inst: string)
    ensures Denom(inst).Pair? <==> Occurrences(inst, '_') == 1
    ensures Denom(inst).Pair? ==> inst == Denom(inst).base + "_" + Denom(inst).quote
    ensures Denom(inst).Pair? ==> '_' !in Denom(inst).base && '_' !in Denom(inst).quote
  {
    SplitShape(inst, '_');
    JoinSplit(inst, '_');
    var parts := Split(inst, '_');
    if |parts| == 2 {
      assert Join(parts, '_') == parts[0] + "_" + Join(parts[1..], '_');
    }
  }

  /** The outcome of a column lookup: pandas raises KeyError for a missing column. */
  datatype Lookup<T> = Found(value: T) | MissingColumn(col: Col)

  /** The close column of the `{ccy}_USD` rate. */
  function UsdRate(ccy: string): Col
  {
    Col(ccy + "_USD", Close)
  }

  /** `unit_val_change`: a price change of one unit, in USD, on row `p`. */
  function UnitValChange(inst: string, change: Float, data: Columns, p: nat): Lookup<Float>
  {
    match Denom(inst)
    case Plain => Found(change)
    case Pair(_, quote) =>
      if quote == "USD" then Found(change)
      else if UsdRate(quote) in data then Found(Mul(change, Cell(data, UsdRate(quote), p)))
      else MissingColumn(UsdRate(quote))
  }

  /** `unit_dollar_value`: the USD value of one unit on row `p`. */
  function UnitDollarValue(inst: string, data: Columns, p: nat): Lookup<Float>
  {
    match Denom(inst)
    case Plain =>
      if Col(inst, Close) in data then Found(Cell(data, Col(inst, Close), p)) else MissingColumn(Col(inst, Close))
    case Pair(base, quote) =>
      if base == "USD" then Found(Fin(1.0))
      else if Col(inst, Close) !in data then MissingColumn(Col(inst, Close))
      else if quote + "_USD" == "USD_USD" then Found(Mul(Cell(data, Col(inst, Close), p), Fin(1.0)))
      else if UsdRate(quote) in data then Found(Mul(Cell(data, Col(inst, Close), p), Cell(data, UsdRate(quote), p)))
      else MissingColumn(UsdRate(quote))
  }

  /** The conversion keeps the change when the name is not a pair or is quoted in USD,
      and otherwise scales it by the quote currency's USD rate on that row. */
  lemma UnitValChangeDispatch(inst: string, change: Float, data: Columns, p: nat)
    ensures Occurrences(inst, '_') != 1 ==> UnitValChange(inst, change, data, p) == Found(change)
    ensures Denom(inst).Pair? && Denom(inst).quote == "USD" ==>
      UnitValChange(inst, change, data, p) == Found(change)
    ensures Denom(inst).Pair? && Denom(inst).quote != "USD" ==>
      (UnitValChange(inst, change, data, p).Found? <==> UsdRate(Denom(inst).quote) in data) &&
      (UnitValChange(inst, change, data, p).Found? ==>
        UnitValChange(inst, change, data, p).value == Mul(change, Cell(data, UsdRate(Denom(inst).quote), p)))
  {
    DenomReadsName(inst);
  }

  /** The conversion is linear in the change. */
  lemma UnitValChangeLinear(inst: string, x: real, y: real, k: real, data: Columns, p: nat)
    requires UnitValChange(inst, Fin(x), data, p).Found?
    ensures UnitValChange(inst, Fin(x + y), data, p).value
         == Add(UnitValChange(inst, Fin(x), data, p).value, UnitValChange(inst, Fin(y), data, p).value)
    ensures UnitValChange(inst, Fin(k * x), data, p).value == Mul(Fin(k), UnitValChange(inst, Fin(x), data, p).value)
  {
    match Denom(inst)
    case Plain =>
    case Pair(_, quote) =>
      if quote != "USD" {
        var r := Cell(data, UsdRate(quote), p);
        if r.Fin? {
          assert (x + y) * r.v == x * r.v + y * r.v;
          assert (k * x) * r.v == k * (x * r.v);
        }
      }
  }

  /** The value of one unit: the close for a plain symbol, 1 for a USD-based pair, and
      otherwise the close times the quote's USD rate (no rate needed for a USD quote). */
  lemma UnitDollarValueDispatch(inst: string, data: Columns, p: nat)
    requires Col(inst, Close) in data
    ensures Occurrences(inst, '_') != 1 ==> UnitDollarValue(inst, data, p) == Found(Cell(data, Col(inst, Close), p))
    ensures Denom(inst).Pair? && Denom(inst).base == "USD" ==> UnitDollarValue(inst, data, p) == Found(Fin(1.0))
    ensures Denom(inst).Pair? && Denom(inst).base != "USD" && Denom(inst).quote == "USD" ==>
      UnitDollarValue(inst, data, p) == Found(Cell(data, Col(inst, Close), p))
    ensures Denom(inst).Pair? && Denom(inst).base != "USD" && Denom(inst).quote != "USD" ==>
      (UnitDollarValue(inst, data, p).Found? <==> UsdRate(Denom(inst).quote) in data) &&
      (UnitDollarValue(inst, data, p).Found? ==>
        UnitDollarValue(inst, data, p).value == Mul(Cell(data, Col(inst, Close), p), Cell(data, UsdRate(Denom(inst).quote), p)))
  {
    DenomReadsName(inst);
    var d := Denom(inst);
    if d.Pair? && d.quote + "_USD" == "USD_USD" {
      assert d.quote == (d.quote + "_USD")[..|d.quote|];
      assert |d.quote| == 3;
    }
    if d.Pair? && d.quote == "USD" {
      assert d.quote + "_USD" == "USD_USD";
    }
  }

  lemma SplitPairName(base: string, quote: string)
    requires '_' !in base && '_' !in quote
    ensures Denom(base + "_" + quote) == Pair(base, quote)
  {
    SplitPrefix(base, quote, '_');
    SplitWithout(quote, '_');
    assert base + "_" + quote == base + ['_'] + quote;
  }

  /** `EUR_USD`, quoted in USD, is worth its own close. */
  lemma EurUsdWorthClose(data: Columns, p: nat)
    requires Col("EUR_USD", Close) in data
    ensures UnitDollarValue("EUR_USD", data, p) == Found(Cell(data, Col("EUR_USD", Close), p))
  {
    assert "EUR" + "_" + "USD" == "EUR_USD";
    assert "EUR" != "USD";
    UsdQuotedWorthClose("EUR", data, p);
  }

  lemma UsdQuotedWorthClose(base: string, data: Columns, p: nat)
    requires '_' !in base && base != "USD" && Col(base + "_" + "USD", Close) in data
    ensures UnitDollarValue(base + "_" + "USD", data, p) == Found(Cell(data, Col(base + "_" + "USD", Close), p))
  {
    SplitPairName(base, "USD");
    assert "USD" + "_USD" == "USD_USD";
    var c := Cell(data, Col(base + "_" + "USD", Close), p);
    assert Mul(c, Fin(1.0)) == c;
  }

  /** `USD_JPY`, based in USD, is worth 1 whatever the table holds. */
  lemma UsdJpyWorthOne(data: Columns, p: nat)
    ensures UnitDollarValue("USD_JPY", data, p) == Found(Fin(1.0))
  {
    SplitPairName("USD", "JPY");
    assert "USD" + "_" + "JPY" == "USD_JPY";
  }

  /** The columns the currency conversion reads for every instrument: its own close and
      percent return, and the USD rate of a non-USD quote currency. */
  predicate Priced(instruments: seq<string>, data: Columns)
  {
    forall k :: 0 <= k < |instruments| ==>
      Col(instruments[k], Close) in data && Col(instruments[k], Ret) in data &&
      (Denom(instruments[k]).Pair? && Denom(instruments[k]).quote != "USD" ==> UsdRate(Denom(instruments[k]).quote) in data)
  }

  lemma PricedFinds(instruments: seq<string>, data: Columns, k: nat, change: Float, p: nat)
    requires Priced(instruments, data) && k < |instruments|
    ensures UnitValChange(instruments[k], change, data, p).Found?
    ensures UnitDollarValue(instruments[k], data, p).Found?
  {
  }

  // ---------------------------------------------------------------------------------
  // The portfolio table

  /** One row of the portfolio table; `units[k]` and `w[k]` belong to instrument `k`. */
  datatype Row = Row(date: Label, capital: Float, dailyPnl: Float, nominalRet: Float, capitalRet: Float,
                     stratScalar: Float, units: seq<Float>, w: seq<Float>, nominal: Float, leverage: Float)

  /** A row before the simulation writes to it: only its date is set. */
  function BlankRow(date: Label, n: nat): (r: Row)
    ensures |r.units| == n && |r.w| == n
  {
    Row(date, NaN, NaN, NaN, NaN, NaN, seq(n, _ => NaN), seq(n, _ => NaN), NaN, NaN)
  }

  /** A row that `dropna()` keeps. */
  predicate NoNaN(r: Row)
  {
    r.capital.Fin? && r.dailyPnl.Fin? && r.nominalRet.Fin? && r.capitalRet.Fin? && r.stratScalar.Fin? &&
    AllFin(r.units) && AllFin(r.w) && r.nominal.Fin? && r.leverage.Fin?
  }

  class Portfolio {
    var rows: seq<Row>

    /** `pd.DataFrame(index=dates).reset_index()` followed by `loc[0, "capital"] = 10000`. */
    constructor (dates: seq<Label>, n: nat)
      requires |dates| > 0
      ensures |rows| == |dates|
      ensures rows[0] == BlankRow(dates[0], n).(capital := Fin(10000.0))
      ensures forall i :: 0 < i < |dates| ==> rows[i] == BlankRow(dates[i], n)
    {
      var blank := seq(|dates|, i requires 0 <= i < |dates| => BlankRow(dates[i], n));
      rows := blank[0 := blank[0].(capital := Fin(10000.0))];
    }
  }

  /** Profit of instrument `k` from row `q` to row `p`: previous units times the USD value
      of the close change, converted at row `q`'s rate. */
  function InstPnl(instruments: seq<string>, data: Columns, prev: Row, p: nat, q: nat, k: nat): Float
    requires Priced(instruments, data) && k < |instruments| && |prev.units| == |instruments|
  {
    var inst := instruments[k];
    var change := Sub(Cell(data, Col(inst, Close), p), Cell(data, Col(inst, Close), q));
    Mul(UnitValChange(inst, change, data, q).value, prev.units[k])
  }

  /** Previous weight times today's percent return. */
  function InstRet(instruments: seq<string>, data: Columns, prev: Row, p: nat, k: nat): Float
    requires k < |instruments| && |prev.w| == |instruments|
  {
    Mul(prev.w[k], Cell(data, Col(instruments[k], Ret), p))
  }

  /** `previous_holdings != 0`; NaN holdings count as held. */
  predicate Held(prev: Row, k: nat)
    requires k < |prev.units|
  {
    prev.units[k] != Fin(0.0)
  }

  /** `day_pnl` after the first `n` instruments. */
  function DayPnl(instruments: seq<string>, data: Columns, prev: Row, p: nat, q: nat, n: nat): Float
    requires Priced(instruments, data) && n <= |instruments| && |prev.units| == |instruments|
  {
    if n == 0 then Fin(0.0)
    else if Held(prev, n - 1) then Add(DayPnl(instruments, data, prev, p, q, n - 1), InstPnl(instruments, data, prev, p, q, n - 1))
    else DayPnl(instruments, data, prev, p, q, n - 1)
  }

  /** `nominal_ret` after the first `n` instruments. */
  function NominalRet(instruments: seq<string>, data: Columns, prev: Row, p: nat, n: nat): Float
    requires n <= |instruments| && |prev.units| == |instruments| && |prev.w| == |instruments|
  {
    if n == 0 then Fin(0.0)
    else if Held(prev, n - 1) then Add(NominalRet(instruments, data, prev, p, n - 1), InstRet(instruments, data, prev, p, n - 1))
    else NominalRet(instruments, data, prev, p, n - 1)
  }

  /** Row `idx` after `get_backtest_day_stats` has written to it. */
  function WithDayStats(row: Row, prev: Row, dayPnl: Float, nominalRet: Float): Row
  {
    row.(capital := Add(prev.capital, dayPnl), dailyPnl := dayPnl, nominalRet := nominalRet,
         capitalRet := Mul(nominalRet, prev.leverage))
  }

  /** A day on which every previous position is flat earns nothing and leaves capital as it was. */
  lemma {:induction false} FlatBookEarnsNothing(instruments: seq<string>, data: Columns, prev: Row, p: nat, q: nat, n: nat)
    requires Priced(instruments, data) && n <= |instruments|
    requires |prev.units| == |instruments| && |prev.w| == |instruments|
    requires forall k :: 0 <= k < n ==> prev.units[k] == Fin(0.0)
    ensures DayPnl(instruments, data, prev, p, q, n) == Fin(0.0)
    ensures NominalRet(instruments, data, prev, p, n) == Fin(0.0)
  {
    if n > 0 {
      FlatBookEarnsNothing(instruments, data, prev, p, q, n - 1);
    }
  }

  /** The term instrument `k` adds to `day_pnl`: zero unless it was held. */
  function PnlTerms(instruments: seq<string>, data: Columns, prev: Row, p: nat, q: nat, n: nat): (r: seq<Float>)
    requires Priced(instruments, data) && n <= |instruments| && |prev.units| == |instruments|
    ensures |r| == n
  {
    if n == 0 then []
    else PnlTerms(instruments, data, prev, p, q, n - 1) +
         [if Held(prev, n - 1) then InstPnl(instruments, data, prev, p, q, n - 1) else Fin(0.0)]
  }

  /** The term instrument `k` adds to `nominal_ret`: zero unless it was held. */
  function RetTerms(instruments: seq<string>, data: Columns, prev: Row, p: nat, n: nat): (r: seq<Float>)
    requires n <= |instruments| && |prev.units| == |instruments| && |prev.w| == |instruments|
    ensures |r| == n
  {
    if n == 0 then []
    else RetTerms(instruments, data, prev, p, n - 1) +
         [if Held(prev, n - 1) then InstRet(instruments, data, prev, p, n - 1) else Fin(0.0)]
  }

  /** Term `k` is instrument `k`'s profit when it was held, and zero otherwise. */
  lemma {:induction false} PnlTermsHeld(instruments: seq<string>, data: Columns, prev: Row, p: nat, q: nat, n: nat)
    requires Priced(instruments, data) && n <= |instruments| && |prev.units| == |instruments|
    ensures forall k :: 0 <= k < n ==>
      PnlTerms(instruments, data, prev, p, q, n)[k] == (if Held(prev, k) then InstPnl(instruments, data, prev, p, q, k) else Fin(0.0))
  {
    if n > 0 {
      PnlTermsHeld(instruments, data, prev, p, q, n - 1);
    }
  }

  /** Term `k` is instrument `k`'s weighted return when it was held, and zero otherwise. */
  lemma {:induction false} RetTermsHeld(instruments: seq<string>, data: Columns, prev: Row, p: nat, n: nat)
    requires n <= |instruments| && |prev.units| == |instruments| && |prev.w| == |instruments|
    ensures forall k :: 0 <= k < n ==>
      RetTerms(instruments, data, prev, p, n)[k] == (if Held(prev, k) then InstRet(instruments, data, prev, p, k) else Fin(0.0))
  {
    if n > 0 {
      RetTermsHeld(instruments, data, prev, p, n - 1);
    }
  }

  /** A flat instrument contributes nothing: `day_pnl` is the sum of the held instruments' profits. */
  lemma {:induction false} DayPnlSumsHeld(instruments: seq<string>, data: Columns, prev: Row, p: nat, q: nat, n: nat)
    requires Priced(instruments, data) && n <= |instruments| && |prev.units| == |instruments|
    ensures DayPnl(instruments, data, prev, p, q, n) == SumF(PnlTerms(instruments, data, prev, p, q, n))
  {
    if n > 0 {
      DayPnlSumsHeld(instruments, data, prev, p, q, n - 1);
      SumFStep(DayPnl(instruments, data, prev, p, q, n - 1), PnlTerms(instruments, data, prev, p, q, n - 1),
               InstPnl(instruments, data, prev, p, q, n - 1), Held(prev, n - 1));
    }
  }

  /** A flat instrument contributes nothing: `nominal_ret` is the sum over held instruments
      of the previous weight times today's return. */
  lemma {:induction false} NominalRetSumsHeld(instruments: seq<string>, data: Columns, prev: Row, p: nat, n: nat)
    requires n <= |instruments| && |prev.units| == |instruments| && |prev.w| == |instruments|
    ensures NominalRet(instruments, data, prev, p, n) == SumF(RetTerms(instruments, data, prev, p, n))
  {
    if n > 0 {
      NominalRetSumsHeld(instruments, data, prev, p, n - 1);
      SumFStep(NominalRet(instruments, data, prev, p, n - 1), RetTerms(instruments, data, prev, p, n - 1),
               InstRet(instruments, data, prev, p, n - 1), Held(prev, n - 1));
    }
  }

  /** `get_backtest_day_stats`: accumulates `day_pnl` and `nominal_ret` over the
      instruments held at row `idx - 1`, writes capital, daily pnl, nominal ret and
      capital ret into row `idx`, and returns `day_pnl`. Row `idx` lives at position
      `p` of the historical table and row `idx - 1` at position `q`. */
  method GetBacktestDayStats(portfolio: Portfolio, instruments: seq<string>, data: Columns, p: nat, q: nat, idx: nat)
      returns (dayPnl: Float)
    requires Priced(instruments, data)
    requires 0 < idx < |portfolio.rows|
    requires |portfolio.rows[idx - 1].units| == |instruments| && |portfolio.rows[idx - 1].w| == |instruments|
    modifies portfolio
    ensures var prev := old(portfolio.rows[idx - 1]);
      dayPnl == DayPnl(instruments, data, prev, p, q, |instruments|) &&
      portfolio.rows == old(portfolio.rows)[idx := WithDayStats(old(portfolio.rows[idx]), prev, dayPnl,
                                                                NominalRet(instruments, data, prev, p, |instruments|))]
  {
    var prev := portfolio.rows[idx - 1];
    dayPnl := Fin(0.0);
    var nominalRet := Fin(0.0);
    var k := 0;
    while k < |instruments|
      invariant k <= |instruments|
      invariant dayPnl == DayPnl(instruments, data, prev, p, q, k)
      invariant nominalRet == NominalRet(instruments, data, prev, p, k)
    {
      var inst := instruments[k];
      var previousHoldings := prev.units[k];
      if previousHoldings != Fin(0.0) {
        var priceChange := Sub(Cell(data, Col(inst, Close), p), Cell(data, Col(inst, Close), q));
        var dollarChange := UnitValChange(inst, priceChange, data, q).value;
        var instPnl := Mul(dollarChange, previousHoldings);
        dayPnl := Add(dayPnl, instPnl);
        nominalRet := Add(nominalRet, Mul(prev.w[k], Cell(data, Col(inst, Ret), p)));
      }
      k := k + 1;
    }
    var capitalRet := Mul(nominalRet, prev.leverage);
    var row := portfolio.rows[idx];
    portfolio.rows := portfolio.rows[idx := row.(capital := Add(prev.capital, dayPnl), dailyPnl := dayPnl,
                                                 nominalRet := nominalRet, capitalRet := capitalRet)];
  }

  // ---------------------------------------------------------------------------------
  // The strategy scalar

  /** `dropna()`: the rows without a NaN cell, in order. */
  function Clean(rows: seq<Row>): (r: seq<Row>)
    ensures |r| <= |rows|
    ensures forall i :: 0 <= i < |r| ==> NoNaN(r[i])
  {
    if |rows| == 0 then []
    else if NoNaN(rows[|rows| - 1]) then Clean(rows[..|rows| - 1]) + [rows[|rows| - 1]]
    else Clean(rows[..|rows| - 1])
  }

  /** `tail(n)`. */
  function Tail<T>(s: seq<T>, n: nat): (r: seq<T>)
    ensures |r| == if |s| < n then |s| else n
  {
    if |s| <= n then s else s[|s| - n..]
  }

  /** The `capital ret` column of NaN-free rows. */
  function CapitalRets(rows: seq<Row>): (r: seq<real>)
    ensures |r| == |rows|
  {
    seq(|rows|, i requires 0 <= i < |rows| => rows[i].capitalRet.Real())
  }

  /** The `strat scalar` column of NaN-free rows. */
  function Scalars(rows: seq<Row>): (r: seq<real>)
    ensures |r| == |rows|
  {
    seq(|rows|, i requires 0 <= i < |rows| => rows[i].stratScalar.Real())
  }

  /** The last `lookback` NaN-free rows up to and including row `idx`. */
  function ScalarWindow(rows: seq<Row>, lookback: nat, idx: nat): (r: seq<Row>)
    requires idx < |rows|
    ensures forall i :: 0 <= i < |r| ==> NoNaN(r[i])
  {
    Tail(Clean(rows[..idx + 1]), lookback)
  }

  /** The recalibrated scalar of a full window: its mean scalar times `volTarget` over
      the annualised standard deviation of its capital returns. */
  function Recalibrated(window: seq<Row>, volTarget: real, stdev: seq<real> -> real, sqrt253: real): Float
    requires |window| > 0
  {
    var annualizedVol := stdev(CapitalRets(window)) * sqrt253;
    Div(Fin(Mean(Scalars(window)) * volTarget), Fin(annualizedVol))
  }

  /** `get_strat_scalar`: with a full window, the window's mean scalar times `volTarget`
      over the annualised standard deviation of its capital returns; otherwise `default`.
      `stdev` is the sample standard deviation and `sqrt253` stands for the square root of 253. */
  function GetStratScalar(rows: seq<Row>, lookback: nat, volTarget: real, idx: nat, default: Float,
                          stdev: seq<real> -> real, sqrt253: real): Float
    requires idx < |rows|
  {
    var window := ScalarWindow(rows, lookback, idx);
    if |window| == lookback then
      if lookback == 0 then NaN
      else Recalibrated(window, volTarget, stdev, sqrt253)
    else default
  }

  /** The scalar keeps its default exactly while fewer than `lookback` NaN-free rows
      exist; from then on it is computed on the last `lookback` of them. */
  lemma StratScalarSwitch(rows: seq<Row>, lookback: nat, volTarget: real, idx: nat, default: Float,
                          stdev: seq<real> -> real, sqrt253: real)
    requires idx < |rows| && lookback > 0
    ensures |Clean(rows[..idx + 1])| < lookback ==>
      GetStratScalar(rows, lookback, volTarget, idx, default, stdev, sqrt253) == default
    ensures |Clean(rows[..idx + 1])| >= lookback ==>
      ScalarWindow(rows, lookback, idx) == Clean(rows[..idx + 1])[|Clean(rows[..idx + 1])| - lookback..] &&
      GetStratScalar(rows, lookback, volTarget, idx, default, stdev, sqrt253)
        == Recalibrated(ScalarWindow(rows, lookback, idx), volTarget, stdev, sqrt253)
  {
    var c := Clean(rows[..idx + 1]);
    if |c| == lookback {
      assert c[|c| - lookback..] == c;
    }
  }

  /** `dropna` removes a row with a NaN cell, so a row whose scalar is still NaN adds
      nothing to the history: the scalar of row `idx` is computed from rows before it. */
  lemma CurrentRowDropped(rows: seq<Row>, idx: nat)
    requires idx < |rows| && rows[idx].stratScalar.NaN?
    ensures Clean(rows[..idx + 1]) == Clean(rows[..idx])
  {
    assert rows[..idx + 1][..idx] == rows[..idx];
  }

  /** Adding a NaN-free row extends the history by that row; any other row does not. */
  lemma {:induction false} CleanCount(rows: seq<Row>)
    ensures |Clean(rows)| == |set i | 0 <= i < |rows| && NoNaN(rows[i])|
  {
    if |rows| > 0 {
      var n := |rows| - 1;
      CleanCount(rows[..n]);
      var before := set i | 0 <= i < n && NoNaN(rows[..n][i]);
      var now := set i | 0 <= i < |rows| && NoNaN(rows[i]);
      assert before == set i | 0 <= i < n && NoNaN(rows[i]);
      if NoNaN(rows[n]) {
        assert now == before + {n};
      } else {
        assert now == before;
      }
    }
  }

  /** With positive history scalars, a positive target and a positive annualised
      volatility, the recalibrated scalar is positive. */
  lemma StratScalarPositive(rows: seq<Row>, lookback: nat, volTarget: real, idx: nat, default: Float,
                            stdev: seq<real> -> real, sqrt253: real)
    requires idx < |rows| && lookback > 0 && volTarget > 0.0
    requires |Clean(rows[..idx + 1])| >= lookback
    requires forall i :: 0 <= i <= idx ==> rows[i].stratScalar.Fin? ==> rows[i].stratScalar.v > 0.0
    requires stdev(CapitalRets(ScalarWindow(rows, lookback, idx))) * sqrt253 > 0.0
    ensures GetStratScalar(rows, lookback, volTarget, idx, default, stdev, sqrt253).Fin?
    ensures GetStratScalar(rows, lookback, volTarget, idx, default, stdev, sqrt253).v > 0.0
  {
    var window := ScalarWindow(rows, lookback, idx);
    WindowScalarsPositive(rows, lookback, idx);
    var s := Scalars(window);
    SumPositive(s);
    var m := Mean(s);
    Positives(Sum(s), |s| as real, volTarget);
    var a := stdev(CapitalRets(window)) * sqrt253;
    Positives(m * volTarget, a, 1.0);
  }

  lemma Positives(x: real, y: real, z: real)
    requires x > 0.0 && y > 0.0 && z > 0.0
    ensures x / y > 0.0 && (x / y) * z > 0.0
  {
  }

  lemma WindowScalarsPositive(rows: seq<Row>, lookback: nat, idx: nat)
    requires idx < |rows| && lookback > 0
    requires |Clean(rows[..idx + 1])| >= lookback
    requires forall i :: 0 <= i <= idx ==> rows[i].stratScalar.Fin? ==> rows[i].stratScalar.v > 0.0
    ensures |Scalars(ScalarWindow(rows, lookback, idx))| == lookback
    ensures forall i :: 0 <= i < lookback ==> Scalars(ScalarWindow(rows, lookback, idx))[i] > 0.0
  {
    var c := Clean(rows[..idx + 1]);
    CleanKeepsPositiveScalars(rows[..idx + 1]);
    var window := ScalarWindow(rows, lookback, idx);
    forall i | 0 <= i < lookback ensures Scalars(window)[i] > 0.0 {
      assert window[i] == c[|c| - lookback + i];
    }
  }

  lemma {:induction false} CleanKeepsPositiveScalars(rows: seq<Row>)
    requires forall i :: 0 <= i < |rows| ==> rows[i].stratScalar.Fin? ==> rows[i].stratScalar.v > 0.0
    ensures forall i :: 0 <= i < |Clean(rows)| ==> Clean(rows)[i].stratScalar.v > 0.0
  {
    if |rows| > 0 {
      var n := |rows| - 1;
      CleanKeepsPositiveScalars(rows[..n]);
      if NoNaN(rows[n]) {
        assert Clean(rows) == Clean(rows[..n]) + [rows[n]];
      }
    }
  }

  lemma {:induction false} SumPositive(s: seq<real>)
    requires |s| > 0 && forall i :: 0 <= i < |s| ==> s[i] > 0.0
    ensures Sum(s) > 0.0
  {
    if |s| > 1 {
      SumPositive(s[..|s| - 1]);
    }
  }
}
