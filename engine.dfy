/** The daily backtest shared by the long/short (`Lsmom`) and long-only (`Lbmom`)
    momentum strategies: EMA-crossover votes gated by ADX, the halted-instrument rule,
    volatility-targeted sizing, absolute-notional weights, nominal and leverage, and the
    day loop that carries capital and the strategy scalar from row to row. The two
    strategies differ only where `Variant` says so. */
module Engine {
  import opened Numerics
  import opened Dates
  import opened Frames
  import opened BacktestUtils

  /** The 21 (fast, slow) EMA period pairs both strategies vote with. */
  const Pairs: seq<(nat, nat)> := [
    (32, 155), (218, 234), (29, 53), (51, 81), (204, 248), (76, 129), (48, 195),
    (99, 104), (94, 158), (56, 205), (103, 217), (21, 150), (117, 217), (270, 283),
    (154, 283), (129, 282), (29, 224), (31, 143), (103, 218), (153, 269), (42, 146)]

  const StartingCapital: real := 10000.0
  const DefaultScalar: real := 2.0
  const ScalarLookback: nat := 100
  const AdxThreshold: real := 25.0
  const FallbackVol: real := 0.025
  const HaltWindow: nat := 5
  const ActiveWindow: nat := 25

  /** Long/short votes `+1` per positive and `-1` per negative EMA difference and prices
      through the currency conversion; long-only counts positive differences and takes
      every price as USD. */
  datatype Variant = LongShort | LongOnly

  /** What one run reads: the extended historical table `data` with its `index`, the
      instrument universe in configuration order, the first simulated row `start`, the
      annualised volatility target, and the two abstract numerics: sample standard
      deviation and the square root of 253. */
  datatype Env = Env(variant: Variant, index: seq<Label>, data: Columns, instruments: seq<string>,
                     start: nat, volTarget: real, sqrt253: real, stdev: seq<real> -> real)

  function At(env: Env, inst: string, f: Field, p: nat): Float
  {
    Cell(env.data, Col(inst, f), p)
  }

  function EmaCol(j: nat): Field
    requires j < |Pairs|
  {
    Ema(Pairs[j].0, Pairs[j].1)
  }

  // ---------------------------------------------------------------------------------
  // Signal

  /** Pairs among the first `n` whose EMA difference is above 0 on row `p`. */
  function Ups(env: Env, inst: string, p: nat, n: nat): nat
    requires n <= |Pairs|
  {
    if n == 0 then 0 else Ups(env, inst, p, n - 1) + (if Gt(At(env, inst, EmaCol(n - 1), p), Fin(0.0)) then 1 else 0)
  }

  /** Pairs among the first `n` whose EMA difference is below 0 on row `p`. */
  function Downs(env: Env, inst: string, p: nat, n: nat): nat
    requires n <= |Pairs|
  {
    if n == 0 then 0 else Downs(env, inst, p, n - 1) + (if Lt(At(env, inst, EmaCol(n - 1), p), Fin(0.0)) then 1 else 0)
  }

  /** Pairs among the first `n` whose EMA difference is exactly 0 or NaN. */
  function Neutral(env: Env, inst: string, p: nat, n: nat): nat
    requires n <= |Pairs|
  {
    if n == 0 then 0
    else
      var d := At(env, inst, EmaCol(n - 1), p);
      Neutral(env, inst, p, n - 1) + (if !Gt(d, Fin(0.0)) && !Lt(d, Fin(0.0)) then 1 else 0)
  }

  function Votes(env: Env, inst: string, p: nat): int
  {
    match env.variant
    case LongShort => Ups(env, inst, p, |Pairs|) - Downs(env, inst, p, |Pairs|)
    case LongOnly => Ups(env, inst, p, |Pairs|)
  }

  /** `votes / len(pairs)`, forced to 0 when ADX on the row is below 25. */
  function Forecast(env: Env, inst: string, p: nat): real
  {
    if Lt(At(env, inst, Adx, p), Fin(AdxThreshold)) then 0.0 else (Votes(env, inst, p) as real) / (|Pairs| as real)
  }

  /** Every pair lands in exactly one of the three buckets: a zero difference counts
      neither for nor against. */
  lemma {:induction false} VoteBuckets(env: Env, inst: string, p: nat, n: nat)
    requires n <= |Pairs|
    ensures Ups(env, inst, p, n) + Downs(env, inst, p, n) + Neutral(env, inst, p, n) == n
  {
    if n > 0 {
      VoteBuckets(env, inst, p, n - 1);
    }
  }

  /** The long/short forecast lies in [-1, 1] and the long-only one in [0, 1]. */
  lemma ForecastBounds(env: Env, inst: string, p: nat)
    ensures -1.0 <= Forecast(env, inst, p) <= 1.0
    ensures env.variant == LongOnly ==> 0.0 <= Forecast(env, inst, p)
  {
    VoteBuckets(env, inst, p, |Pairs|);
  }

  /** Below the ADX threshold the forecast is 0 whatever the votes; at or above it, the
      forecast is the vote share. */
  lemma ForecastGate(env: Env, inst: string, p: nat)
    ensures Lt(At(env, inst, Adx, p), Fin(AdxThreshold)) ==> Forecast(env, inst, p) == 0.0
    ensures !Lt(At(env, inst, Adx, p), Fin(AdxThreshold)) ==>
      Forecast(env, inst, p) * 21.0 == (Votes(env, inst, p) as real)
  {
  }

  /** With every difference at 0 (or NaN) no vote is cast and the forecast is 0. */
  lemma {:induction false} NoTrendNoForecast(env: Env, inst: string, p: nat, n: nat)
    requires n <= |Pairs|
    requires forall j :: 0 <= j < n ==> !Gt(At(env, inst, EmaCol(j), p), Fin(0.0)) && !Lt(At(env, inst, EmaCol(j), p), Fin(0.0))
    ensures Ups(env, inst, p, n) == 0 && Downs(env, inst, p, n) == 0
    ensures n == |Pairs| ==> Forecast(env, inst, p) == 0.0
  {
    if n > 0 {
      NoTrendNoForecast(env, inst, p, n - 1);
    }
  }

  // ---------------------------------------------------------------------------------
  // Halted and tradable instruments

  function WindowStart(p: nat, width: nat): nat
    requires width > 0
  {
    if p + 1 >= width then p + 1 - width else 0
  }

  /** `historical_data[:date].tail(5)` shows only inactive days, and the flag on the date
      itself is not NaN. */
  predicate IsHalted(env: Env, inst: string, p: nat)
  {
    At(env, inst, Active, p).Fin? &&
    forall q :: WindowStart(p, HaltWindow) <= q <= p ==> At(env, inst, Active, q) == Fin(0.0)
  }

  /** The positions, in configuration order, of the first `n` instruments not halted on row `p`. */
  function TradableUpTo(env: Env, p: nat, n: nat): (r: seq<nat>)
    requires n <= |env.instruments|
    ensures forall j :: 0 <= j < |r| ==> r[j] < n
  {
    if n == 0 then []
    else TradableUpTo(env, p, n - 1) + (if IsHalted(env, env.instruments[n - 1], p) then [] else [n - 1])
  }

  /** The positions of the first `n` instruments halted on row `p`. */
  function HaltedUpTo(env: Env, p: nat, n: nat): (r: seq<nat>)
    requires n <= |env.instruments|
    ensures forall j :: 0 <= j < |r| ==> r[j] < n
  {
    if n == 0 then []
    else HaltedUpTo(env, p, n - 1) + (if IsHalted(env, env.instruments[n - 1], p) then [n - 1] else [])
  }

  function Tradable(env: Env, p: nat): seq<nat>
  {
    TradableUpTo(env, p, |env.instruments|)
  }

  function NonTradable(env: Env, p: nat): seq<nat>
  {
    HaltedUpTo(env, p, |env.instruments|)
  }

  /** The tradable list holds exactly the instruments not halted on row `p`, in
      configuration order. */
  lemma {:induction false} TradableMembers(env: Env, p: nat, n: nat)
    requires n <= |env.instruments|
    ensures forall k: nat :: k in TradableUpTo(env, p, n) <==> k < n && !IsHalted(env, env.instruments[k], p)
    ensures forall a, b :: 0 <= a < b < |TradableUpTo(env, p, n)| ==> TradableUpTo(env, p, n)[a] < TradableUpTo(env, p, n)[b]
  {
    if n > 0 {
      TradableMembers(env, p, n - 1);
    }
  }

  /** The non-tradable list holds exactly the halted instruments, in configuration order. */
  lemma {:induction false} HaltedMembers(env: Env, p: nat, n: nat)
    requires n <= |env.instruments|
    ensures forall k: nat :: k in HaltedUpTo(env, p, n) <==> k < n && IsHalted(env, env.instruments[k], p)
    ensures forall a, b :: 0 <= a < b < |HaltedUpTo(env, p, n)| ==> HaltedUpTo(env, p, n)[a] < HaltedUpTo(env, p, n)[b]
  {
    if n > 0 {
      HaltedMembers(env, p, n - 1);
    }
  }

  /** Together the two lists cover the universe, with no instrument in both. */
  lemma {:induction false} TradablePartition(env: Env, p: nat)
    ensures |Tradable(env, p)| + |NonTradable(env, p)| == |env.instruments|
    ensures forall k: nat :: k < |env.instruments| ==> (k in Tradable(env, p) <==> k !in NonTradable(env, p))
  {
    PartitionCount(env, p, |env.instruments|);
    TradableMembers(env, p, |env.instruments|);
    HaltedMembers(env, p, |env.instruments|);
  }

  lemma {:induction false} PartitionCount(env: Env, p: nat, n: nat)
    requires n <= |env.instruments|
    ensures |TradableUpTo(env, p, n)| + |HaltedUpTo(env, p, n)| == n
  {
    if n > 0 {
      PartitionCount(env, p, n - 1);
    }
  }

  /** `historical_data[:date].tail(25)["active"].all()`: NaN counts as true, as in pandas. */
  predicate FullyActive(env: Env, inst: string, p: nat)
  {
    forall q :: WindowStart(p, ActiveWindow) <= q <= p ==> Truthy(At(env, inst, Active, q))
  }

  /** The return volatility used for sizing: the rolling one only after 25 active days. */
  function RetVolUsed(env: Env, inst: string, p: nat): (r: Float)
    ensures !FullyActive(env, inst, p) ==> r == Fin(FallbackVol)
    ensures FullyActive(env, inst, p) ==> r == At(env, inst, RetVol, p)
  {
    if FullyActive(env, inst, p) then At(env, inst, RetVol, p) else Fin(FallbackVol)
  }

  // ---------------------------------------------------------------------------------
  // Sizing

  /** What a run assumes of its table: every price, return and conversion rate it reads
      exists, instruments are listed once, and the simulation starts inside the index. */
  predicate Ready(env: Env)
  {
    Priced(env.instruments, env.data) && env.start < |env.index| &&
    forall a, b :: 0 <= a < b < |env.instruments| ==> env.instruments[a] != env.instruments[b]
  }

  /** The USD value of one unit: through the currency conversion for long/short, the
      close itself for long-only. */
  function UnitValue(env: Env, k: nat, p: nat): Float
    requires Ready(env) && k < |env.instruments|
  {
    var inst := env.instruments[k];
    match env.variant
    case LongShort => UnitDollarValue(inst, env.data, p).value
    case LongOnly => At(env, inst, Close, p)
  }

  /** One day's expected move of one unit in USD: price times the volatility used,
      converted for long/short. */
  function DollarVolatility(env: Env, k: nat, p: nat): Float
    requires Ready(env) && k < |env.instruments|
  {
    var inst := env.instruments[k];
    var move := Mul(At(env, inst, Close, p), RetVolUsed(env, inst, p));
    match env.variant
    case LongShort => UnitValChange(inst, move, env.data, p).value
    case LongOnly => move
  }

  /** The daily USD volatility each of the `m` tradable instruments is allotted. */
  function PositionVolTarget(env: Env, capital: Float, m: nat): Float
    requires m > 0
  {
    Div(Mul(Mul(Fin(1.0 / (m as real)), capital), Fin(env.volTarget)), Fin(env.sqrt253))
  }

  /** Units of instrument `k`: scalar times forecast times the volatility target, over
      the dollar volatility of a unit. */
  function Position(env: Env, capital: Float, scalar: Float, m: nat, k: nat, p: nat): Float
    requires Ready(env) && k < |env.instruments| && m > 0
  {
    Div(Mul(Mul(scalar, Fin(Forecast(env, env.instruments[k], p))), PositionVolTarget(env, capital, m)),
        DollarVolatility(env, k, p))
  }

  /** The units column of a day: 0 for a halted instrument, the sized position otherwise. */
  function DayUnits(env: Env, capital: Float, scalar: Float, p: nat): (r: seq<Float>)
    requires Ready(env)
    ensures |r| == |env.instruments|
  {
    var n := |env.instruments|;
    seq(n, k requires 0 <= k < n =>
      if IsHalted(env, env.instruments[k], p) then Fin(0.0)
      else
        TradableMembers(env, p, n);
        assert k in Tradable(env, p);
        Position(env, capital, scalar, |Tradable(env, p)|, k, p))
  }

  /** `abs(units * unit value)`. */
  function Notional(env: Env, units: seq<Float>, k: nat, p: nat): Float
    requires Ready(env) && k < |env.instruments| == |units|
  {
    Abs(Mul(units[k], UnitValue(env, k, p)))
  }

  /** The notionals of the first `n` instruments' tradable ones, in the order they are summed. */
  function NotionalTerms(env: Env, units: seq<Float>, p: nat, n: nat): (r: seq<Float>)
    requires Ready(env) && n <= |env.instruments| == |units|
    ensures |r| == |TradableUpTo(env, p, n)|
  {
    var t := TradableUpTo(env, p, n);
    seq(|t|, j requires 0 <= j < |t| => Notional(env, units, t[j], p))
  }

  /** `nominal_total`: the notionals of the tradable instruments, added up in order. */
  function NominalTotal(env: Env, units: seq<Float>, p: nat): Float
    requires Ready(env) && |env.instruments| == |units|
  {
    SumF(NotionalTerms(env, units, p, |units|))
  }

  /** The weights column of a day: 0 for a halted instrument, the notional share otherwise. */
  function DayWeights(env: Env, units: seq<Float>, p: nat): (r: seq<Float>)
    requires Ready(env) && |env.instruments| == |units|
    ensures |r| == |units|
  {
    var total := NominalTotal(env, units, p);
    seq(|units|, k requires 0 <= k < |units| =>
      if IsHalted(env, env.instruments[k], p) then Fin(0.0) else Div(Notional(env, units, k, p), total))
  }

  /** Every instrument's notional, with 0 in place of a halted one. */
  function Spread(env: Env, units: seq<Float>, p: nat, n: nat): (r: seq<Float>)
    requires Ready(env) && n <= |env.instruments| == |units|
    ensures |r| == n
  {
    seq(n, k requires 0 <= k < n => if IsHalted(env, env.instruments[k], p) then Fin(0.0) else Notional(env, units, k, p))
  }

  lemma NotionalTermsStep(env: Env, units: seq<Float>, p: nat, n: nat)
    requires Ready(env) && 0 < n <= |env.instruments| == |units|
    ensures SumF(NotionalTerms(env, units, p, n)) ==
      if IsHalted(env, env.instruments[n - 1], p) then SumF(NotionalTerms(env, units, p, n - 1))
      else Add(SumF(NotionalTerms(env, units, p, n - 1)), Notional(env, units, n - 1, p))
  {
    var t := NotionalTerms(env, units, p, n);
    var t0 := NotionalTerms(env, units, p, n - 1);
    if IsHalted(env, env.instruments[n - 1], p) {
      assert t == t0;
    } else {
      assert t[..|t| - 1] == t0;
    }
  }

  lemma SpreadStep(env: Env, units: seq<Float>, p: nat, n: nat)
    requires Ready(env) && 0 < n <= |env.instruments| == |units|
    ensures SumF(Spread(env, units, p, n)) == Add(SumF(Spread(env, units, p, n - 1)), Spread(env, units, p, n)[n - 1])
  {
    assert Spread(env, units, p, n)[..n - 1] == Spread(env, units, p, n - 1);
  }

  /** Summing the tradable notionals is summing every notional with halted ones at 0. */
  lemma {:induction false} TermsSpread(env: Env, units: seq<Float>, p: nat, n: nat)
    requires Ready(env) && n <= |env.instruments| == |units|
    ensures SumF(NotionalTerms(env, units, p, n)) == SumF(Spread(env, units, p, n))
  {
    if n > 0 {
      TermsSpread(env, units, p, n - 1);
      NotionalTermsStep(env, units, p, n);
      SpreadStep(env, units, p, n);
      var x := SumF(NotionalTerms(env, units, p, n - 1));
      var last := Spread(env, units, p, n)[n - 1];
      if IsHalted(env, env.instruments[n - 1], p) {
        assert last == Fin(0.0);
        assert Add(x, Fin(0.0)) == x;
      } else {
        assert last == Notional(env, units, n - 1, p);
      }
    }
  }

  /** With a positive nominal total, weights are finite, nonnegative and add up to 1. */
  lemma WeightsSumToOne(env: Env, units: seq<Float>, p: nat)
    requires Ready(env) && |env.instruments| == |units|
    requires NominalTotal(env, units, p).Fin? && NominalTotal(env, units, p).v > 0.0
    ensures AllFin(DayWeights(env, units, p))
    ensures forall k :: 0 <= k < |units| ==> DayWeights(env, units, p)[k].v >= 0.0
    ensures Sum(Values(DayWeights(env, units, p))) == 1.0
  {
    var n := |units|;
    var total := NominalTotal(env, units, p);
    var s := Spread(env, units, p, n);
    TermsSpread(env, units, p, n);
    forall k | 0 <= k < n ensures (s[k].Fin? ==> s[k].v >= 0.0) && DayWeights(env, units, p)[k] == Div(s[k], total) {
    }
    SharesSumToOne(s, DayWeights(env, units, p), total);
  }

  /** The division is unguarded: with tradable instruments but a zero nominal total,
      every tradable weight is NaN. */
  lemma ZeroTotalWeights(env: Env, units: seq<Float>, p: nat, k: nat)
    requires Ready(env) && k < |env.instruments| == |units|
    requires NominalTotal(env, units, p) == Fin(0.0) && !IsHalted(env, env.instruments[k], p)
    ensures DayWeights(env, units, p)[k].NaN?
  {
  }

  /** `a * f * b / c` with `a`, `b`, `c` positive has the sign of `f`. */
  lemma SignOfScaled(a: Float, f: real, b: Float, c: Float)
    requires a.Fin? && a.v > 0.0 && b.Fin? && b.v > 0.0 && c.Fin? && c.v > 0.0
    ensures Div(Mul(Mul(a, Fin(f)), b), c).Fin?
    ensures f > 0.0 ==> Div(Mul(Mul(a, Fin(f)), b), c).v > 0.0
    ensures f < 0.0 ==> Div(Mul(Mul(a, Fin(f)), b), c).v < 0.0
    ensures f == 0.0 ==> Div(Mul(Mul(a, Fin(f)), b), c) == Fin(0.0)
  {
    var x := a.v * f;
    if f > 0.0 {
      assert x > 0.0;
      assert x * b.v > 0.0;
    } else if f < 0.0 {
      assert x < 0.0;
      assert x * b.v < 0.0;
    }
  }

  lemma PositiveTarget(env: Env, capital: Float, m: nat)
    requires m > 0 && capital.Fin? && capital.v > 0.0 && env.volTarget > 0.0 && env.sqrt253 > 0.0
    ensures PositionVolTarget(env, capital, m).Fin? && PositionVolTarget(env, capital, m).v > 0.0
  {
    var share := 1.0 / (m as real);
    assert share * capital.v > 0.0;
    assert share * capital.v * env.volTarget > 0.0;
  }

  /** With positive capital, scalar, target and dollar volatility, a position has the sign
      of its forecast: long/short goes short on a net downtrend, long-only never does. */
  lemma PositionSign(env: Env, capital: Float, scalar: Float, m: nat, k: nat, p: nat)
    requires Ready(env) && k < |env.instruments| && m > 0
    requires capital.Fin? && capital.v > 0.0 && scalar.Fin? && scalar.v > 0.0
    requires env.volTarget > 0.0 && env.sqrt253 > 0.0
    requires DollarVolatility(env, k, p).Fin? && DollarVolatility(env, k, p).v > 0.0
    ensures Position(env, capital, scalar, m, k, p).Fin?
    ensures Forecast(env, env.instruments[k], p) > 0.0 ==> Position(env, capital, scalar, m, k, p).v > 0.0
    ensures Forecast(env, env.instruments[k], p) < 0.0 ==> Position(env, capital, scalar, m, k, p).v < 0.0
    ensures Forecast(env, env.instruments[k], p) == 0.0 ==> Position(env, capital, scalar, m, k, p) == Fin(0.0)
    ensures env.variant == LongOnly ==> Position(env, capital, scalar, m, k, p).v >= 0.0
  {
    var f := Forecast(env, env.instruments[k], p);
    PositiveTarget(env, capital, m);
    ForecastBounds(env, env.instruments[k], p);
    SignOfScaled(scalar, f, PositionVolTarget(env, capital, m), DollarVolatility(env, k, p));
  }

  // ---------------------------------------------------------------------------------
  // The day loop

  /** A row of the portfolio table as the loop finds it: blank but for its date, with the
      starting capital on row 0. */
  function Initial(env: Env, i: nat): (r: Row)
    requires env.start + i < |env.index|
    ensures |r.units| == |env.instruments| && |r.w| == |env.instruments|
  {
    var blank := BlankRow(env.index[env.start + i], |env.instruments|);
    if i == 0 then blank.(capital := Fin(StartingCapital)) else blank
  }

  /** Row `|done|` once `get_backtest_day_stats` has written to it (from the second row on). */
  function DayStats(env: Env, done: seq<Row>, row: Row): (r: Row)
    requires Ready(env)
    requires |done| > 0 ==> |done[|done| - 1].units| == |env.instruments| && |done[|done| - 1].w| == |env.instruments|
    ensures r.units == row.units && r.w == row.w && r.stratScalar == row.stratScalar
  {
    var i := |done|;
    var p := env.start + i;
    if i == 0 then row
    else WithDayStats(row, done[i - 1], DayPnl(env.instruments, env.data, done[i - 1], p, p - 1, |env.instruments|),
                      NominalRet(env.instruments, env.data, done[i - 1], p, |env.instruments|))
  }

  /** The strategy scalar of row `|done|`: 2 on the first row, then `get_strat_scalar` on
      the table as it stands after the day's statistics. */
  function DayScalar(env: Env, done: seq<Row>, stats: Row): Float
  {
    if |done| == 0 then Fin(DefaultScalar)
    else GetStratScalar(done + [stats], ScalarLookback, env.volTarget, |done|, Fin(DefaultScalar), env.stdev, env.sqrt253)
  }

  /** Row `stats` once the day's positions are sized with `scalar`. */
  function Sized(env: Env, p: nat, stats: Row, scalar: Float): (r: Row)
    requires Ready(env)
    ensures |r.units| == |env.instruments| && |r.w| == |env.instruments|
  {
    var units := DayUnits(env, stats.capital, scalar, p);
    var nominal := NominalTotal(env, units, p);
    stats.(stratScalar := scalar, units := units, w := DayWeights(env, units, p), nominal := nominal,
           leverage := Div(nominal, stats.capital))
  }

  /** Row `|done|` after the loop body has run on it, given the finished rows before it:
      the day's statistics, the strategy scalar, the units and weights of every
      instrument, the nominal total and the leverage. */
  function DayRow(env: Env, done: seq<Row>, row: Row): (r: Row)
    requires Ready(env)
    requires |done| > 0 ==> |done[|done| - 1].units| == |env.instruments| && |done[|done| - 1].w| == |env.instruments|
    ensures |r.units| == |env.instruments| && |r.w| == |env.instruments|
  {
    var stats := DayStats(env, done, row);
    Sized(env, env.start + |done|, stats, DayScalar(env, done, stats))
  }

  /** The first `m` rows of the portfolio table once the loop has run over them. */
  function Rows(env: Env, m: nat): (r: seq<Row>)
    requires Ready(env) && env.start + m <= |env.index|
    ensures |r| == m
    ensures forall j :: 0 <= j < m ==> |r[j].units| == |env.instruments| && |r[j].w| == |env.instruments|
  {
    if m == 0 then []
    else
      var done := Rows(env, m - 1);
      done + [DayRow(env, done, Initial(env, m - 1))]
  }

  /** The whole table: one row per date from the simulation start on. */
  function Simulation(env: Env): seq<Row>
    requires Ready(env)
  {
    Rows(env, |env.index| - env.start)
  }

  /** One more day appends its row, computed on the rows before it. */
  lemma RowsNext(env: Env, i: nat)
    requires Ready(env) && env.start + i < |env.index|
    ensures Rows(env, i + 1) == Rows(env, i) + [DayRow(env, Rows(env, i), Initial(env, i))]
  {
  }

  /** Later days never rewrite earlier rows. */
  lemma {:induction false} RowsPrefix(env: Env, j: nat, m: nat)
    requires Ready(env) && j <= m && env.start + m <= |env.index|
    ensures Rows(env, m)[..j] == Rows(env, j)
    decreases m
  {
    if j < m {
      RowsPrefix(env, j, m - 1);
      RowsStep(env, j, m);
    }
  }

  /** The last day leaves every shorter prefix as it was. */
  lemma RowsStep(env: Env, j: nat, m: nat)
    requires Ready(env) && j < m && env.start + m <= |env.index|
    ensures Rows(env, m)[..j] == Rows(env, m - 1)[..j]
  {
    var r0 := Rows(env, m - 1);
    AppendKeepsPrefix(r0, DayRow(env, r0, Initial(env, m - 1)), j);
  }

  /** Row `i` of a longer run is the day row computed on the rows before it. */
  lemma RowAt(env: Env, i: nat, m: nat)
    requires Ready(env) && i < m && env.start + m <= |env.index|
    ensures Rows(env, m)[i] == DayRow(env, Rows(env, i), Initial(env, i))
  {
    RowsPrefix(env, i + 1, m);
    var r := Rows(env, i + 1);
    assert r == Rows(env, i) + [DayRow(env, Rows(env, i), Initial(env, i))];
    assert Rows(env, m)[i] == r[i];
  }

  /** The first row starts the book with 10000 of capital and the default scalar 2, and
      has no day statistics, so `dropna` never keeps it. */
  lemma FirstRow(env: Env, m: nat)
    requires Ready(env) && 0 < m && env.start + m <= |env.index|
    ensures Rows(env, m)[0].date == env.index[env.start]
    ensures Rows(env, m)[0].capital == Fin(StartingCapital)
    ensures Rows(env, m)[0].stratScalar == Fin(DefaultScalar)
    ensures Rows(env, m)[0].dailyPnl.NaN? && !NoNaN(Rows(env, m)[0])
  {
    RowAt(env, 0, m);
  }

  /** Capital compounds by the day's pnl, which is the sum over instruments held the day
      before of their profit from yesterday's close to today's. Leverage is nominal over
      capital on every row. */
  lemma CapitalRecurrence(env: Env, i: nat, m: nat)
    requires Ready(env) && 0 < i < m && env.start + m <= |env.index|
    ensures var rows := Rows(env, m);
      var p := env.start + i;
      rows[i].date == env.index[p] &&
      rows[i].dailyPnl == DayPnl(env.instruments, env.data, rows[i - 1], p, p - 1, |env.instruments|) &&
      rows[i].dailyPnl == SumF(PnlTerms(env.instruments, env.data, rows[i - 1], p, p - 1, |env.instruments|)) &&
      rows[i].capital == Add(rows[i - 1].capital, rows[i].dailyPnl) &&
      rows[i].nominalRet == SumF(RetTerms(env.instruments, env.data, rows[i - 1], p, |env.instruments|)) &&
      rows[i].capitalRet == Mul(rows[i].nominalRet, rows[i - 1].leverage)
  {
    var p := env.start + i;
    RowAt(env, i, m);
    RowAt(env, i - 1, m);
    RowsPrefix(env, i, m);
    assert Rows(env, i)[i - 1] == Rows(env, m)[i - 1];
    DayPnlSumsHeld(env.instruments, env.data, Rows(env, m)[i - 1], p, p - 1, |env.instruments|);
    NominalRetSumsHeld(env.instruments, env.data, Rows(env, m)[i - 1], p, |env.instruments|);
  }

  /** Each day the book is sized from that day's capital and scalar: halted instruments
      hold nothing, weights are the day's notional shares, and leverage is nominal over
      capital. */
  lemma DaySizing(env: Env, i: nat, m: nat, k: nat)
    requires Ready(env) && i < m && env.start + m <= |env.index| && k < |env.instruments|
    ensures var r := Rows(env, m)[i];
      var p := env.start + i;
      r.units == DayUnits(env, r.capital, r.stratScalar, p) &&
      r.w == DayWeights(env, r.units, p) &&
      r.nominal == NominalTotal(env, r.units, p) &&
      r.leverage == Div(r.nominal, r.capital) &&
      (IsHalted(env, env.instruments[k], p) ==> r.units[k] == Fin(0.0) && r.w[k] == Fin(0.0))
  {
    RowAt(env, i, m);
    var done := Rows(env, i);
    var stats := DayStats(env, done, Initial(env, i));
    assert Rows(env, m)[i] == Sized(env, env.start + i, stats, DayScalar(env, done, stats));
    SizedParts(env, env.start + i, stats, DayScalar(env, done, stats), k);
  }

  /** A sized row holds the day's units, weights, nominal total and leverage, with
      nothing in a halted instrument. */
  lemma SizedParts(env: Env, p: nat, stats: Row, scalar: Float, k: nat)
    requires Ready(env) && k < |env.instruments|
    ensures var r := Sized(env, p, stats, scalar);
      r.capital == stats.capital && r.stratScalar == scalar &&
      r.units == DayUnits(env, r.capital, r.stratScalar, p) &&
      r.w == DayWeights(env, r.units, p) &&
      r.nominal == NominalTotal(env, r.units, p) &&
      r.leverage == Div(r.nominal, r.capital) &&
      (IsHalted(env, env.instruments[k], p) ==> r.units[k] == Fin(0.0) && r.w[k] == Fin(0.0))
  {
  }

  // ---------------------------------------------------------------------------------
  // The strategy scalar over the run

  lemma {:induction false} CleanDropsFirst(rows: seq<Row>)
    requires |rows| > 0 && !NoNaN(rows[0])
    ensures |Clean(rows)| < |rows|
  {
    if |rows| > 1 {
      CleanDropsFirst(rows[..|rows| - 1]);
    }
  }

  /** `get_strat_scalar` reads the table only up to row `idx`. */
  lemma ScalarReadsPrefix(a: seq<Row>, b: seq<Row>, lookback: nat, volTarget: real, idx: nat, default: Float,
                          stdev: seq<real> -> real, sqrt253: real)
    requires idx < |a| && idx < |b| && a[..idx + 1] == b[..idx + 1]
    ensures GetStratScalar(a, lookback, volTarget, idx, default, stdev, sqrt253)
         == GetStratScalar(b, lookback, volTarget, idx, default, stdev, sqrt253)
  {
  }

  /** The scalar of a later row is 2 while fewer than 100 earlier rows are free of NaN,
      and otherwise is computed from the last 100 of them: today's row, whose scalar is
      not yet logged, never counts. */
  lemma DayScalarFromHistory(env: Env, done: seq<Row>, stats: Row)
    requires |done| > 0 && stats.stratScalar.NaN?
    ensures |Clean(done)| < ScalarLookback ==> DayScalar(env, done, stats) == Fin(DefaultScalar)
    ensures |Clean(done)| >= ScalarLookback ==>
      var window := Tail(Clean(done), ScalarLookback);
      DayScalar(env, done, stats) == Recalibrated(window, env.volTarget, env.stdev, env.sqrt253)
  {
    var rows := done + [stats];
    var idx := |done|;
    CurrentRowDropped(rows, idx);
    assert rows[..idx] == done;
    var c := Clean(done);
    assert Clean(rows[..idx + 1]) == c;
    assert ScalarWindow(rows, ScalarLookback, idx) == Tail(c, ScalarLookback);
    assert DayScalar(env, done, stats) ==
      GetStratScalar(rows, ScalarLookback, env.volTarget, idx, Fin(DefaultScalar), env.stdev, env.sqrt253);
    StratScalarSwitch(rows, ScalarLookback, env.volTarget, idx, Fin(DefaultScalar), env.stdev, env.sqrt253);
  }

  /** The scalar stays at its default of 2 for the first 101 rows: row 0 is never free of
      NaN, so at least 102 rows are needed before 100 of them can be. */
  lemma ScalarDefaultEarly(env: Env, i: nat, m: nat)
    requires Ready(env) && i < m && env.start + m <= |env.index| && i <= ScalarLookback
    ensures Rows(env, m)[i].stratScalar == Fin(DefaultScalar)
  {
    RowAt(env, i, m);
    if i > 0 {
      var done := Rows(env, i);
      FirstRow(env, i);
      CleanDropsFirst(done);
      DayScalarFromHistory(env, done, DayStats(env, done, Initial(env, i)));
    }
  }

  /** From the second row on, the scalar is recalibrated exactly when 100 finished rows
      are free of NaN, from the last 100 of them. */
  lemma ScalarOverRun(env: Env, i: nat, m: nat)
    requires Ready(env) && 0 < i < m && env.start + m <= |env.index|
    ensures var history := Clean(Rows(env, m)[..i]);
      (|history| < ScalarLookback ==> Rows(env, m)[i].stratScalar == Fin(DefaultScalar)) &&
      (|history| >= ScalarLookback ==>
        var window := Tail(history, ScalarLookback);
        Rows(env, m)[i].stratScalar == Recalibrated(window, env.volTarget, env.stdev, env.sqrt253))
  {
    RowAt(env, i, m);
    RowsPrefix(env, i, m);
    var done := Rows(env, i);
    DayScalarFromHistory(env, done, DayStats(env, done, Initial(env, i)));
  }

  // ---------------------------------------------------------------------------------
  // The loop body and the loop

  lemma DayRowParts(env: Env, done: seq<Row>, row: Row)
    requires Ready(env)
    requires |done| > 0 ==> |done[|done| - 1].units| == |env.instruments| && |done[|done| - 1].w| == |env.instruments|
    ensures DayRow(env, done, row) ==
      Sized(env, env.start + |done|, DayStats(env, done, row), DayScalar(env, done, DayStats(env, done, row)))
  {
  }

  /** `for inst in non_tradable`: units and weight 0 for every halted instrument. */
  method ZeroHalted(env: Env, p: nat, units0: seq<Float>, w0: seq<Float>) returns (units: seq<Float>, w: seq<Float>)
    requires Ready(env) && |units0| == |env.instruments| && |w0| == |env.instruments|
    ensures |units| == |env.instruments| && |w| == |env.instruments|
    ensures forall k :: 0 <= k < |env.instruments| ==>
      units[k] == (if IsHalted(env, env.instruments[k], p) then Fin(0.0) else units0[k]) &&
      w[k] == (if IsHalted(env, env.instruments[k], p) then Fin(0.0) else w0[k])
  {
    var n := |env.instruments|;
    var nonTradable := NonTradable(env, p);
    HaltedMembers(env, p, n);
    units, w := units0, w0;
    var j := 0;
    while j < |nonTradable|
      invariant j <= |nonTradable| && |units| == n && |w| == n
      invariant forall k :: 0 <= k < n ==> units[k] == (if k in nonTradable[..j] then Fin(0.0) else units0[k])
      invariant forall k :: 0 <= k < n ==> w[k] == (if k in nonTradable[..j] then Fin(0.0) else w0[k])
    {
      assert nonTradable[..j + 1] == nonTradable[..j] + [nonTradable[j]];
      units := units[nonTradable[j] := Fin(0.0)];
      w := w[nonTradable[j] := Fin(0.0)];
      j := j + 1;
    }
    assert nonTradable[..j] == nonTradable;
  }

  /** `for inst in tradable`: sizes each tradable instrument and adds its notional to
      `nominal_total` as it goes. */
  method SizePositions(env: Env, p: nat, capital: Float, scalar: Float, units0: seq<Float>)
      returns (units: seq<Float>, nominalTotal: Float)
    requires Ready(env) && |units0| == |env.instruments|
    requires forall k :: 0 <= k < |env.instruments| && IsHalted(env, env.instruments[k], p) ==> units0[k] == Fin(0.0)
    ensures units == DayUnits(env, capital, scalar, p)
    ensures nominalTotal == NominalTotal(env, units, p)
  {
    var tradable := Tradable(env, p);
    units := units0;
    nominalTotal := Fin(0.0);
    var j := 0;
    while j < |tradable|
      invariant j <= |tradable| && SizedThrough(env, p, capital, scalar, units0, units, nominalTotal, j)
    {
      SizeNext(env, p, capital, scalar, units0, units, nominalTotal, j);
      var k := tradable[j];
      var position := Position(env, capital, scalar, |tradable|, k, p);
      units := units[k := position];
      nominalTotal := Add(nominalTotal, Abs(Mul(position, UnitValue(env, k, p))));
      j := j + 1;
    }
    SizeDone(env, p, capital, scalar, units0, units, nominalTotal);
  }

  /** The sizing loop after `j` tradable instruments: those hold their sized units, the
      others what they held before, and the total is the sum of the first `j` notionals. */
  ghost predicate SizedThrough(env: Env, p: nat, capital: Float, scalar: Float, units0: seq<Float>,
                               units: seq<Float>, total: Float, j: nat)
  {
    Ready(env) && |units0| == |env.instruments| && |units| == |units0| && j <= |Tradable(env, p)| &&
    (forall k :: 0 <= k < |units| ==>
      units[k] == (if k in Tradable(env, p)[..j] then DayUnits(env, capital, scalar, p)[k] else units0[k])) &&
    total == SumF(NotionalTerms(env, DayUnits(env, capital, scalar, p), p, |units0|)[..j])
  }

  lemma SizeNext(env: Env, p: nat, capital: Float, scalar: Float, units0: seq<Float>,
                 units: seq<Float>, total: Float, j: nat)
    requires SizedThrough(env, p, capital, scalar, units0, units, total, j) && j < |Tradable(env, p)|
    ensures Tradable(env, p)[j] < |units|
    ensures var k := Tradable(env, p)[j];
      var position := Position(env, capital, scalar, |Tradable(env, p)|, k, p);
      SizedThrough(env, p, capital, scalar, units0, units[k := position],
                   Add(total, Abs(Mul(position, UnitValue(env, k, p)))), j + 1)
  {
    var n := |units0|;
    var tradable := Tradable(env, p);
    var target := DayUnits(env, capital, scalar, p);
    var terms := NotionalTerms(env, target, p, n);
    TradableMembers(env, p, n);
    var k := tradable[j];
    var position := Position(env, capital, scalar, |tradable|, k, p);
    assert k in tradable;
    assert target[k] == position;
    OverwriteNext(tradable, target, units0, units, j);
    SumFNext(terms, j);
    assert terms[j] == Notional(env, target, k, p);
  }

  /** Overwriting one more listed position with its target value. */
  lemma OverwriteNext<T>(t: seq<nat>, target: seq<T>, s0: seq<T>, s: seq<T>, j: nat)
    requires j < |t| && t[j] < |s| == |target| == |s0|
    requires forall k :: 0 <= k < |s| ==> s[k] == (if k in t[..j] then target[k] else s0[k])
    ensures forall k :: 0 <= k < |s| ==> s[t[j] := target[t[j]]][k] == (if k in t[..j + 1] then target[k] else s0[k])
  {
    assert t[..j + 1] == t[..j] + [t[j]];
  }

  lemma SizeDone(env: Env, p: nat, capital: Float, scalar: Float, units0: seq<Float>,
                 units: seq<Float>, total: Float)
    requires SizedThrough(env, p, capital, scalar, units0, units, total, |Tradable(env, p)|)
    requires forall k :: 0 <= k < |env.instruments| && IsHalted(env, env.instruments[k], p) ==> units0[k] == Fin(0.0)
    ensures units == DayUnits(env, capital, scalar, p)
    ensures total == NominalTotal(env, units, p)
  {
    var tradable := Tradable(env, p);
    var target := DayUnits(env, capital, scalar, p);
    TradableMembers(env, p, |units0|);
    assert tradable[..|tradable|] == tradable;
    forall k | 0 <= k < |units| ensures units[k] == target[k] {
    }
    var terms := NotionalTerms(env, target, p, |units0|);
    assert terms[..|tradable|] == terms;
  }

  /** The second `for inst in tradable`: each tradable instrument's notional share. */
  method Weigh(env: Env, p: nat, units: seq<Float>, nominalTotal: Float, w0: seq<Float>) returns (w: seq<Float>)
    requires Ready(env) && |units| == |env.instruments| && |w0| == |env.instruments|
    requires nominalTotal == NominalTotal(env, units, p)
    requires forall k :: 0 <= k < |env.instruments| && IsHalted(env, env.instruments[k], p) ==> w0[k] == Fin(0.0)
    ensures w == DayWeights(env, units, p)
  {
    var n := |env.instruments|;
    var tradable := Tradable(env, p);
    TradableMembers(env, p, n);
    ghost var target := DayWeights(env, units, p);
    w := w0;
    var j := 0;
    while j < |tradable|
      invariant j <= |tradable| && |w| == n
      invariant forall k :: 0 <= k < n ==> w[k] == (if k in tradable[..j] then target[k] else w0[k])
    {
      var k := tradable[j];
      var nominalInst := Abs(Mul(units[k], UnitValue(env, k, p)));
      assert Div(nominalInst, nominalTotal) == target[k];
      w := w[k := Div(nominalInst, nominalTotal)];
      assert tradable[..j + 1] == tradable[..j] + [k];
      j := j + 1;
    }
    assert tradable[..j] == tradable;
  }

  /** One pass of the simulation loop on row `i`: day statistics and scalar, zero
      positions for halted instruments, sized positions and the nominal total for the
      tradable ones, their weights, then nominal and leverage. */
  method SimulateDay(env: Env, portfolio: Portfolio, i: nat)
    requires Ready(env)
    requires i < |portfolio.rows| && env.start + i < |env.index|
    requires forall j :: 0 <= j < |portfolio.rows| ==>
      |portfolio.rows[j].units| == |env.instruments| && |portfolio.rows[j].w| == |env.instruments|
    requires portfolio.rows[i].stratScalar.NaN?
    modifies portfolio
    ensures portfolio.rows == old(portfolio.rows)[i := DayRow(env, old(portfolio.rows)[..i], old(portfolio.rows)[i])]
  {
    ghost var oldRows := portfolio.rows;
    ghost var done := oldRows[..i];
    ghost var stats := DayStats(env, done, oldRows[i]);
    DayRowParts(env, done, oldRows[i]);
    var stratScalar := OpenDay(env, portfolio, i);
    var newRow := SizeRow(env, env.start + i, portfolio.rows[i], stratScalar);
    UpdateOverwrites(oldRows, i, stats, newRow);
    portfolio.rows := portfolio.rows[i := newRow];
  }

  /** The first half of the loop body: `get_backtest_day_stats` from the second row on,
      then the strategy scalar, 2 on the first row. */
  method OpenDay(env: Env, portfolio: Portfolio, i: nat) returns (stratScalar: Float)
    requires Ready(env)
    requires i < |portfolio.rows| && env.start + i < |env.index|
    requires i > 0 ==> |portfolio.rows[i - 1].units| == |env.instruments| && |portfolio.rows[i - 1].w| == |env.instruments|
    requires portfolio.rows[i].stratScalar.NaN?
    modifies portfolio
    ensures portfolio.rows == old(portfolio.rows)[i := DayStats(env, old(portfolio.rows)[..i], old(portfolio.rows)[i])]
    ensures stratScalar == DayScalar(env, old(portfolio.rows)[..i], DayStats(env, old(portfolio.rows)[..i], old(portfolio.rows)[i]))
  {
    var p := env.start + i;
    ghost var oldRows := portfolio.rows;
    ghost var done := oldRows[..i];
    ghost var stats := DayStats(env, done, oldRows[i]);
    stratScalar := Fin(DefaultScalar);
    if i != 0 {
      var _ := GetBacktestDayStats(portfolio, env.instruments, env.data, p, p - 1, i);
      StatsWritten(env, oldRows, i, portfolio.rows);
      ScalarReadsPrefix(portfolio.rows, done + [stats], ScalarLookback, env.volTarget, i, stratScalar, env.stdev, env.sqrt253);
      stratScalar := GetStratScalar(portfolio.rows, ScalarLookback, env.volTarget, i, stratScalar, env.stdev, env.sqrt253);
    } else {
      UpdateSame(oldRows, i);
    }
  }

  /** The second half of the loop body: zero positions for halted instruments, sized
      positions and the nominal total for the tradable ones, their weights, then nominal
      and leverage. */
  method SizeRow(env: Env, p: nat, stats: Row, stratScalar: Float) returns (r: Row)
    requires Ready(env) && |stats.units| == |env.instruments| && |stats.w| == |env.instruments|
    ensures r == Sized(env, p, stats, stratScalar)
  {
    var units, w := ZeroHalted(env, p, stats.units, stats.w);
    var nominalTotal;
    units, nominalTotal := SizePositions(env, p, stats.capital, stratScalar, units);
    w := Weigh(env, p, units, nominalTotal, w);
    r := stats.(stratScalar := stratScalar, units := units, w := w,
                nominal := nominalTotal, leverage := Div(nominalTotal, stats.capital));
    SizedFrom(env, p, stats, stratScalar, units, w, nominalTotal);
  }

  /** The row the loop body writes is the sized row. */
  lemma SizedFrom(env: Env, p: nat, stats: Row, scalar: Float, units: seq<Float>, w: seq<Float>, total: Float)
    requires Ready(env) && units == DayUnits(env, stats.capital, scalar, p)
    requires w == DayWeights(env, units, p) && total == NominalTotal(env, units, p)
    ensures stats.(stratScalar := scalar, units := units, w := w, nominal := total, leverage := Div(total, stats.capital))
         == Sized(env, p, stats, scalar)
  {
  }

  /** What `get_backtest_day_stats` leaves in row `i` is the day's statistics row. */
  lemma StatsWritten(env: Env, rows: seq<Row>, i: nat, after: seq<Row>)
    requires Ready(env) && 0 < i < |rows|
    requires |rows[i - 1].units| == |env.instruments| && |rows[i - 1].w| == |env.instruments|
    requires var p, prev := env.start + i, rows[i - 1];
      after == rows[i := WithDayStats(rows[i], prev, DayPnl(env.instruments, env.data, prev, p, p - 1, |env.instruments|),
                                      NominalRet(env.instruments, env.data, prev, p, |env.instruments|))]
    ensures after == rows[i := DayStats(env, rows[..i], rows[i])]
    ensures after[..i + 1] == rows[..i] + [DayStats(env, rows[..i], rows[i])]
  {
    UpdateTakes(rows, i, DayStats(env, rows[..i], rows[i]));
  }

  /** `for i in portfolio_df.index`: runs the loop body on every row in order, leaving the
      table the simulation spells out. */
  method RunDays(env: Env, portfolio: Portfolio)
    requires Ready(env)
    requires |portfolio.rows| == |env.index| - env.start
    requires forall j :: 0 <= j < |portfolio.rows| ==> portfolio.rows[j] == Initial(env, j)
    modifies portfolio
    ensures portfolio.rows == Simulation(env)
  {
    var total := |portfolio.rows|;
    var i := 0;
    while i < total
      invariant i <= total && |portfolio.rows| == total
      invariant Progress(env, portfolio.rows, i)
    {
      ghost var before := portfolio.rows;
      SimulateDay(env, portfolio, i);
      ProgressNext(env, before, i);
      i := i + 1;
    }
    ProgressDone(env, portfolio.rows);
  }

  /** The table after the loop has run over its first `i` rows: those are the simulation's,
      the rest are still as the loop found them. */
  ghost predicate Progress(env: Env, rows: seq<Row>, i: nat)
  {
    Ready(env) && i <= |rows| && env.start + |rows| == |env.index| &&
    rows[..i] == Rows(env, i) &&
    (forall j :: i <= j < |rows| ==> rows[j] == Initial(env, j)) &&
    forall j :: 0 <= j < |rows| ==> |rows[j].units| == |env.instruments| && |rows[j].w| == |env.instruments|
  }

  /** Once every row is done, the table is the simulation. */
  lemma ProgressDone(env: Env, rows: seq<Row>)
    requires Progress(env, rows, |rows|)
    ensures rows == Simulation(env)
  {
    assert rows == rows[..|rows|];
  }

  /** One pass of the loop body keeps `Progress`, one row further on. */
  lemma ProgressNext(env: Env, rows: seq<Row>, i: nat)
    requires Progress(env, rows, i) && i < |rows|
    ensures rows[..i] == Rows(env, i) && rows[i] == Initial(env, i)
    ensures forall j :: 0 <= j < |rows| ==> |rows[j].units| == |env.instruments| && |rows[j].w| == |env.instruments|
    ensures Progress(env, rows[i := DayRow(env, rows[..i], rows[i])], i + 1)
  {
    var row := DayRow(env, Rows(env, i), Initial(env, i));
    UpdateTakes(rows, i, row);
    RowsNext(env, i);
  }

  // ---------------------------------------------------------------------------------
  // The run

  /** A label at or after date `d`; a label that is not a date never is. */
  predicate OnOrAfter(entry: Label, d: Date)
  {
    entry.Day? && !Before(entry.date, d)
  }

  /** Where `historical_data[simulation_start:]` begins: the first label at or after
      the start date, or the end of the index when there is none. */
  function StartRow(index: seq<Label>, d: Date): (p: nat)
    ensures p <= |index|
    ensures forall q :: 0 <= q < p ==> !OnOrAfter(index[q], d)
    ensures p < |index| ==> OnOrAfter(index[p], d)
  {
    if |index| == 0 then 0
    else if OnOrAfter(index[0], d) then 0
    else 1 + StartRow(index[1..], d)
  }

  /** An index of dates in calendar order, as the downloaded tables have. */
  predicate Chronological(index: seq<Label>)
  {
    (forall i :: 0 <= i < |index| ==> index[i].Day?) &&
    forall a, b :: 0 <= a < b < |index| ==> !Before(index[b].date, index[a].date)
  }

  /** On a chronological index the slice from `StartRow` holds exactly the labels at or
      after the start date. */
  lemma StartRowSlices(index: seq<Label>, d: Date)
    requires Chronological(index)
    ensures forall q :: 0 <= q < |index| ==> (OnOrAfter(index[q], d) <==> StartRow(index, d) <= q)
  {
    var p := StartRow(index, d);
    forall q | p < q < |index| ensures OnOrAfter(index[q], d) {
      assert !Before(index[q].date, index[p].date);
    }
  }

  datatype SimError = MissingColumns | EmptyRange

  /** The result of `run_simulation`: the portfolio table, or the point where pandas
      raises. */
  datatype Run = Ran(portfolio: Portfolio) | Failed(error: SimError)

  /** Every column the loop reads: the currency-conversion columns, the return
      volatility, the activity flag, the ADX and the 21 EMA differences of each
      instrument. */
  predicate Readable(instruments: seq<string>, data: Columns)
  {
    Priced(instruments, data) &&
    forall k :: 0 <= k < |instruments| ==>
      Col(instruments[k], RetVol) in data && Col(instruments[k], Active) in data &&
      Col(instruments[k], Adx) in data && forall j :: 0 <= j < |Pairs| ==> Col(instruments[k], EmaCol(j)) in data
  }

  /** The outcome of the day loop on `env`: a missing column or an empty simulation
      range fails, and otherwise the portfolio table is the simulation. */
  ghost predicate Outcome(env: Env, r: Run)
    reads if r.Ran? then {r.portfolio} else {}
  {
    if !Readable(env.instruments, env.data) then r == Failed(MissingColumns)
    else if env.start >= |env.index| then r == Failed(EmptyRange)
    else r.Ran? && Ready(env) && r.portfolio.rows == Simulation(env)
  }

  /** `portfolio_df = pd.DataFrame(index=...).reset_index()`, `loc[0, "capital"] = 10000`
      and the day loop, on the prepared table of `env`. */
  method Simulate(env: Env) returns (r: Run)
    requires forall a, b :: 0 <= a < b < |env.instruments| ==> env.instruments[a] != env.instruments[b]
    ensures Outcome(env, r) && (r.Ran? ==> fresh(r.portfolio))
  {
    if !Readable(env.instruments, env.data) {
      return Failed(MissingColumns);
    }
    if env.start >= |env.index| {
      return Failed(EmptyRange);
    }
    var portfolio := new Portfolio(env.index[env.start..], |env.instruments|);
    assert forall j :: 0 <= j < |portfolio.rows| ==> portfolio.rows[j] == Initial(env, j);
    RunDays(env, portfolio);
    r := Ran(portfolio);
  }
}
