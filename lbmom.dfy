/** The long-biased momentum strategy: it adds each instrument's ADX and 21 EMA
    differences to the historical table in place and runs the long-only day loop on it,
    without back-filling. As written it never records the strategy scalar and its
    `get_subsys_pos` returns nothing; the run here records the scalar, as the long/short
    strategy does, and `GetSubsysPos` returns the table and the instruments. */
module Lbmom {
  import opened Numerics
  import opened Dates
  import opened Frames
  import opened BacktestUtils
  import opened Engine
  import opened Indicators

  /** The long-only run on the extended table, from the first date at or after `start`. */
  function SimEnv(instruments: seq<string>, index: seq<Label>, data: Columns, start: Date, volTarget: real,
                  tk: Toolkit): Env
    requires HasPrices(instruments, data)
  {
    Env(LongOnly, index, WithIndicators(instruments, data, tk, |instruments|), instruments, StartRow(index, start),
        volTarget, tk.sqrt253, tk.stdev)
  }

  /** What `run_simulation` yields on a table with this index and these columns. */
  ghost predicate Simulated(instruments: seq<string>, index: seq<Label>, data: Columns, start: Date,
                            volTarget: real, tk: Toolkit, r: Run)
    reads if r.Ran? then {r.portfolio} else {}
  {
    if !HasPrices(instruments, data) then r == Failed(MissingColumns)
    else Outcome(SimEnv(instruments, index, data, start, volTarget, tk), r)
  }

  /** What a Python function hands its caller: nothing, or a pair. */
  datatype Returned = NoneValue | Tuple(run: Run, instruments: seq<string>)

  /** `portfolio_df, instruments = value`: unpacking `None` raises a TypeError, which
      is `None` here. */
  function Unpack(value: Returned): (r: Option<(Run, seq<string>)>)
    ensures r.Some? <==> value.Tuple?
    ensures r.Some? ==> r.value == (value.run, value.instruments)
  {
    match value
    case NoneValue => None
    case Tuple(run, instruments) => Some((run, instruments))
  }

  datatype Option<T> = None | Some(value: T)

  class Lbmom {
    /** `instruments_config["instruments"]`. */
    const instruments: seq<string>
    const historical: Frame
    const simulationStart: Date
    const volTarget: real
    const tk: Toolkit
    const sysname: string

    constructor (instruments: seq<string>, historical: Frame, simulationStart: Date, volTarget: real, tk: Toolkit)
      ensures this.instruments == instruments && this.historical == historical
      ensures this.simulationStart == simulationStart && this.volTarget == volTarget && this.tk == tk
      ensures sysname == "LBMOM"
    {
      this.instruments := instruments;
      this.historical := historical;
      this.simulationStart := simulationStart;
      this.volTarget := volTarget;
      this.tk := tk;
      sysname := "LBMOM";
    }

    /** `extend_historicals`: sets each instrument's ADX column on `historicalData`
        itself, then one column per EMA pair, and returns that same table. A column
        already present is replaced where it stands. */
    method ExtendHistoricals(instruments: seq<string>, historicalData: Frame) returns (r: Frame)
      requires historicalData.Valid() && HasPrices(instruments, historicalData.data)
      modifies historicalData
      ensures r == historicalData && r.Valid() && r.index == old(historicalData.index)
      ensures r.columns == AddedColumns(old(historicalData.columns), IndicatorCols(instruments, |instruments|))
      ensures r.data == WithIndicators(instruments, old(historicalData.data), tk, |instruments|)
    {
      ghost var data := historicalData.data;
      ghost var columns := historicalData.columns;
      var i := 0;
      while i < |instruments|
        invariant i <= |instruments| && historicalData.Valid() && historicalData.index == old(historicalData.index)
        invariant historicalData.columns == AddedColumns(columns, IndicatorCols(instruments, i))
        invariant historicalData.data == WithIndicators(instruments, data, tk, i)
      {
        AddIndicators(instruments, i, historicalData, data, columns);
        i := i + 1;
      }
      r := historicalData;
    }

    /** Instrument `i`'s turn, in place: its ADX column, then its EMA differences one
        pair at a time, all from its prices in the table, which are still those of `data`. */
    method AddIndicators(instruments: seq<string>, i: nat, table: Frame, ghost data: Columns, ghost columns: seq<Col>)
      requires i < |instruments| && HasPrices(instruments, data) && table.Valid()
      requires table.columns == AddedColumns(columns, IndicatorCols(instruments, i))
      requires table.data == WithIndicators(instruments, data, tk, i)
      modifies table
      ensures table.Valid() && table.index == old(table.index)
      ensures table.columns == AddedColumns(columns, IndicatorCols(instruments, i + 1))
      ensures table.data == WithIndicators(instruments, data, tk, i + 1)
    {
      var inst := instruments[i];
      PricesKept(instruments, data, tk, i);
      var close := table.data[Col(inst, Close)];
      ghost var cols0, data0 := table.columns, table.data;
      table.SetColumn(Col(inst, Adx), tk.adx(table.data[Col(inst, High)], table.data[Col(inst, Low)], close, AdxPeriod));
      ghost var cols1, data1 := table.columns, table.data;
      SetEmaColumns(inst, table, close);
      IndicatorStep(instruments, data, tk, i, columns, cols0, data0, cols1, data1, table.columns, table.data);
    }

    /** The inner loop: one column per EMA pair, set in place, in the order of the pairs. */
    method SetEmaColumns(inst: string, table: Frame, close: seq<Float>)
      requires table.Valid()
      modifies table
      ensures table.Valid() && table.index == old(table.index)
      ensures table.columns == AddedColumns(old(table.columns), EmaCols(inst))
      ensures table.data == WithColumns(old(table.data), EmaCols(inst), EmaDiffs(close, tk.ema))
    {
      ghost var columns := table.columns;
      ghost var start := table.data;
      ghost var cols := EmaCols(inst);
      ghost var diffs := EmaDiffs(close, tk.ema);
      var j := 0;
      while j < |Pairs|
        invariant j <= |Pairs| && table.Valid() && table.index == old(table.index)
        invariant table.columns == AddedColumns(columns, cols[..j])
        invariant table.data == WithColumns(start, cols[..j], diffs[..j])
      {
        assert cols[j] == Col(inst, EmaCol(j)) && diffs[j] == EmaDiff(close, tk.ema, Pairs[j]);
        assert cols[j] in table.data <==> cols[j] in table.columns;
        table.SetColumn(Col(inst, EmaCol(j)), EmaDiff(close, tk.ema, Pairs[j]));
        AddedColumnsNext(columns, cols, j);
        WithColumnsNext(start, cols, diffs, j);
        j := j + 1;
      }
      assert cols[..j] == cols && diffs[..j] == diffs;
    }

    /** `run_simulation`: extends the table in place and runs the long-only day loop
        on it, recording the strategy scalar of each day. */
    method RunSimulation(historicalData: Frame) returns (r: Run)
      requires historicalData.Valid() && Distinct(instruments)
      modifies historicalData
      ensures historicalData.Valid() && historicalData.index == old(historicalData.index)
      ensures HasPrices(instruments, old(historicalData.data)) ==>
        historicalData.data == WithIndicators(instruments, old(historicalData.data), tk, |instruments|) &&
        historicalData.columns == AddedColumns(old(historicalData.columns), IndicatorCols(instruments, |instruments|))
      ensures !HasPrices(instruments, old(historicalData.data)) ==> unchanged(historicalData)
      ensures Simulated(instruments, old(historicalData.index), old(historicalData.data), simulationStart, volTarget, tk, r)
      ensures r.Ran? ==> fresh(r.portfolio)
    {
      if !HasPrices(instruments, historicalData.data) {
        return Failed(MissingColumns);
      }
      var table := ExtendHistoricals(instruments, historicalData);
      var env := Env(LongOnly, table.index, table.data, instruments, StartRow(table.index, simulationStart),
                     volTarget, tk.sqrt253, tk.stdev);
      r := Simulate(env);
    }

    /** `get_subsys_pos` as written: it runs the simulation on the strategy's table and
        hands back nothing. */
    method GetSubsysPosAsWritten() returns (value: Returned)
      requires historical.Valid() && Distinct(instruments)
      modifies historical
      ensures historical.Valid() && historical.index == old(historical.index)
      ensures HasPrices(instruments, old(historical.data)) ==>
        historical.data == WithIndicators(instruments, old(historical.data), tk, |instruments|) &&
        historical.columns == AddedColumns(old(historical.columns), IndicatorCols(instruments, |instruments|))
      ensures !HasPrices(instruments, old(historical.data)) ==> unchanged(historical)
      ensures value == NoneValue && Unpack(value) == None
    {
      var _ := RunSimulation(historical);
      value := NoneValue;
    }

    /** `get_subsys_pos` as its callers use it: the portfolio table and the instruments. */
    method GetSubsysPos() returns (value: Returned)
      requires historical.Valid() && Distinct(instruments)
      modifies historical
      ensures historical.Valid() && historical.index == old(historical.index)
      ensures HasPrices(instruments, old(historical.data)) ==>
        historical.data == WithIndicators(instruments, old(historical.data), tk, |instruments|) &&
        historical.columns == AddedColumns(old(historical.columns), IndicatorCols(instruments, |instruments|))
      ensures !HasPrices(instruments, old(historical.data)) ==> unchanged(historical)
      ensures value.Tuple? && value.instruments == instruments && Unpack(value) == Some((value.run, instruments))
      ensures Simulated(instruments, old(historical.index), old(historical.data), simulationStart, volTarget, tk, value.run)
      ensures value.run.Ran? ==> fresh(value.run.portfolio)
    {
      var r := RunSimulation(historical);
      value := Tuple(r, instruments);
    }
  }

  /** Before instrument `i`'s turn its prices are still those of `data`. */
  lemma PricesKept(instruments: seq<string>, data: Columns, tk: Toolkit, i: nat)
    requires i < |instruments| && HasPrices(instruments, data)
    ensures var d, inst := WithIndicators(instruments, data, tk, i), instruments[i];
      Col(inst, High) in d && d[Col(inst, High)] == data[Col(inst, High)] &&
      Col(inst, Low) in d && d[Col(inst, Low)] == data[Col(inst, Low)] &&
      Col(inst, Close) in d && d[Col(inst, Close)] == data[Col(inst, Close)] &&
      AdxColumn(data, inst, tk) == tk.adx(d[Col(inst, High)], d[Col(inst, Low)], d[Col(inst, Close)], AdxPeriod)
  {
    IndicatorsKeepOthers(instruments, data, tk, i);
    assert !IsIndicator(High) && !IsIndicator(Low) && !IsIndicator(Close);
  }

  /** One instrument's turn in place: the ADX column set, then the EMA columns, takes
      the table from `i` instruments' indicators to `i + 1`. */
  lemma IndicatorStep(instruments: seq<string>, data: Columns, tk: Toolkit, i: nat, columns: seq<Col>,
                      cols0: seq<Col>, data0: Columns, cols1: seq<Col>, data1: Columns, cols2: seq<Col>, data2: Columns)
    requires i < |instruments| && HasPrices(instruments, data)
    requires cols0 == AddedColumns(columns, IndicatorCols(instruments, i))
    requires data0 == WithIndicators(instruments, data, tk, i)
    requires forall c :: c in data0 <==> c in cols0
    requires var adx := Col(instruments[i], Adx);
      data1 == data0[adx := AdxColumn(data, instruments[i], tk)] &&
      cols1 == if adx in data0 then cols0 else cols0 + [adx]
    requires cols2 == AddedColumns(cols1, EmaCols(instruments[i]))
    requires data2 == WithColumns(data1, EmaCols(instruments[i]), EmaDiffs(data[Col(instruments[i], Close)], tk.ema))
    ensures cols2 == AddedColumns(columns, IndicatorCols(instruments, i + 1))
    ensures data2 == WithIndicators(instruments, data, tk, i + 1)
  {
    var inst := instruments[i];
    var adx := Col(inst, Adx);
    AddedColumnsNext(cols0, [adx], 0);
    assert [adx][..1] == [adx];
    assert adx in cols0 <==> adx in data0;
    assert cols1 == AddedColumns(cols0, [adx]);
    AddedColumnsAppend(cols0, [adx], EmaCols(inst));
    AddedColumnsAppend(columns, IndicatorCols(instruments, i), [adx] + EmaCols(inst));
    IndicatorsNext(instruments, data, tk, i);
  }

  /** On a table without indicator columns, adding them in place lays out the columns
      as the long/short strategy's concatenation does: appended, in order. */
  lemma InPlaceAppends(instruments: seq<string>, columns: seq<Col>, data: Columns)
    requires Distinct(instruments) && NoIndicators(data) && forall c :: c in columns ==> c in data
    ensures AddedColumns(columns, IndicatorCols(instruments, |instruments|)) == columns + IndicatorCols(instruments, |instruments|)
  {
    IndicatorColsDistinct(instruments, |instruments|);
    IndicatorColsMembers(instruments, |instruments|);
    AddedColumnsFresh(columns, IndicatorCols(instruments, |instruments|));
  }

  // ---------------------------------------------------------------------------------
  // The scalar column the loop never writes

  /** The columns of the portfolio table. */
  datatype LogColumn = DateLabel | Capital | DailyPnl | NominalRet | CapitalRet | StratScalar
                     | Units(inst: string) | Weight(inst: string) | Nominal | Leverage

  /** The elements of a sequence of writes. */
  function Elems(writes: seq<LogColumn>): set<LogColumn>
  {
    set c | c in writes
  }

  /** The columns `get_backtest_day_stats` writes on a row, in order. */
  function StatsWrites(): seq<LogColumn>
  {
    [Capital, DailyPnl, NominalRet, CapitalRet]
  }

  /** A loop over the instruments at positions `ks`, writing `cols(inst)` for each in turn. */
  function EachWrites(instruments: seq<string>, ks: seq<nat>, cols: string -> seq<LogColumn>): seq<LogColumn>
    requires forall j :: 0 <= j < |ks| ==> ks[j] < |instruments|
  {
    if ks == [] then [] else cols(instruments[ks[0]]) + EachWrites(instruments, ks[1..], cols)
  }

  /** The columns one pass of the loop body writes, in order: the day statistics unless
      it is the first row, the strategy scalar only if the body logs it, units and weight 0
      for each halted instrument, the units of each tradable one, then their weights, then
      nominal and leverage. */
  function DayWrites(instruments: seq<string>, stats: bool, logsScalar: bool, halted: seq<nat>, tradable: seq<nat>)
    : seq<LogColumn>
    requires forall j :: 0 <= j < |halted| ==> halted[j] < |instruments|
    requires forall j :: 0 <= j < |tradable| ==> tradable[j] < |instruments|
  {
    (if stats then StatsWrites() else []) + (if logsScalar then [StratScalar] else []) +
    EachWrites(instruments, halted, inst => [Units(inst), Weight(inst)]) +
    EachWrites(instruments, tradable, inst => [Units(inst)]) +
    EachWrites(instruments, tradable, inst => [Weight(inst)]) +
    [Nominal, Leverage]
  }

  /** The columns the loop body writes on row `i`, with the halted and tradable lists of
      that row. */
  function BodyWrites(env: Env, logsScalar: bool, i: nat): seq<LogColumn>
  {
    var p := env.start + i;
    TradableMembers(env, p, |env.instruments|);
    HaltedMembers(env, p, |env.instruments|);
    DayWrites(env.instruments, i != 0, logsScalar, NonTradable(env, p), Tradable(env, p))
  }

  /** The columns of the portfolio table once the loop body has run on its first `i` rows:
      `date` and `capital` from its construction, then every column a body wrote. */
  function TableColumns(env: Env, logsScalar: bool, i: nat): set<LogColumn>
  {
    if i == 0 then {DateLabel, Capital}
    else TableColumns(env, logsScalar, i - 1) + Elems(BodyWrites(env, logsScalar, i - 1))
  }

  /** The columns `get_strat_scalar` sees on row `i > 0`: those of the finished rows and
      the day statistics just written. */
  function ColumnsAtScalar(env: Env, logsScalar: bool, i: nat): set<LogColumn>
  {
    TableColumns(env, logsScalar, i) + Elems(StatsWrites())
  }

  /** The date and capital, the day statistics, each instrument's units and weight,
      nominal and leverage, and the strategy scalar if it is logged. */
  function Logged(instruments: seq<string>, logsScalar: bool): set<LogColumn>
  {
    {DateLabel, Capital, DailyPnl, NominalRet, CapitalRet, Nominal, Leverage} +
    (set inst | inst in instruments :: Units(inst)) + (set inst | inst in instruments :: Weight(inst)) +
    (if logsScalar then {StratScalar} else {})
  }

  /** An instrument loop writes only the columns of the instruments it visits. */
  lemma {:induction false} EachWritesOnly(instruments: seq<string>, ks: seq<nat>, cols: string -> seq<LogColumn>, c: LogColumn)
    requires forall j :: 0 <= j < |ks| ==> ks[j] < |instruments|
    requires c in EachWrites(instruments, ks, cols)
    ensures exists j :: 0 <= j < |ks| && c in cols(instruments[ks[j]])
    decreases |ks|
  {
    if c !in cols(instruments[ks[0]]) {
      EachWritesOnly(instruments, ks[1..], cols, c);
      var j :| 0 <= j < |ks[1..]| && c in cols(instruments[ks[1..][j]]);
      assert ks[1..][j] == ks[j + 1];
    }
  }

  /** An instrument loop writes every column of every instrument it visits. */
  lemma {:induction false} EachWritesAll(instruments: seq<string>, ks: seq<nat>, cols: string -> seq<LogColumn>, j: nat)
    requires forall j :: 0 <= j < |ks| ==> ks[j] < |instruments|
    requires j < |ks|
    ensures forall c :: c in cols(instruments[ks[j]]) ==> c in EachWrites(instruments, ks, cols)
    decreases |ks|
  {
    if j > 0 {
      EachWritesAll(instruments, ks[1..], cols, j - 1);
      assert ks[1..][j - 1] == ks[j];
    }
  }

  /** The columns of `Logged` a loop over instrument positions can write. */
  predicate InstrumentColumn(instruments: seq<string>, c: LogColumn)
  {
    (c.Units? || c.Weight?) && c.inst in instruments
  }

  /** A pass writes only columns of `Logged`. */
  lemma DayWithin(instruments: seq<string>, stats: bool, logsScalar: bool, halted: seq<nat>, tradable: seq<nat>)
    requires forall j :: 0 <= j < |halted| ==> halted[j] < |instruments|
    requires forall j :: 0 <= j < |tradable| ==> tradable[j] < |instruments|
    ensures Elems(DayWrites(instruments, stats, logsScalar, halted, tradable)) <= Logged(instruments, logsScalar)
  {
    var zero: string -> seq<LogColumn> := inst => [Units(inst), Weight(inst)];
    var units: string -> seq<LogColumn> := inst => [Units(inst)];
    var weights: string -> seq<LogColumn> := inst => [Weight(inst)];
    forall c | c in DayWrites(instruments, stats, logsScalar, halted, tradable)
      ensures c in Logged(instruments, logsScalar)
    {
      if c in EachWrites(instruments, halted, zero) {
        EachWritesOnly(instruments, halted, zero, c);
      } else if c in EachWrites(instruments, tradable, units) {
        EachWritesOnly(instruments, tradable, units, c);
      } else if c in EachWrites(instruments, tradable, weights) {
        EachWritesOnly(instruments, tradable, weights, c);
      }
    }
  }

  /** When every instrument is halted or tradable, a pass writes the units and weight of
      each one, and nominal and leverage. */
  lemma DayCovers(instruments: seq<string>, stats: bool, logsScalar: bool, halted: seq<nat>, tradable: seq<nat>)
    requires forall j :: 0 <= j < |halted| ==> halted[j] < |instruments|
    requires forall j :: 0 <= j < |tradable| ==> tradable[j] < |instruments|
    requires forall k: nat :: k < |instruments| ==> k in halted || k in tradable
    ensures Logged(instruments, logsScalar) - Elems(StatsWrites()) - {DateLabel, Capital} <=
      Elems(DayWrites(instruments, stats, logsScalar, halted, tradable))
  {
    forall c | c in Logged(instruments, logsScalar) - Elems(StatsWrites()) - {DateLabel, Capital}
      ensures c in DayWrites(instruments, stats, logsScalar, halted, tradable)
    {
      if c.Units? || c.Weight? {
        var k :| 0 <= k < |instruments| && instruments[k] == c.inst;
        InstrumentWritten(instruments, stats, logsScalar, halted, tradable, k, c);
      }
    }
  }

  /** The units and weight of instrument `k` are among a pass's writes. */
  lemma InstrumentWritten(instruments: seq<string>, stats: bool, logsScalar: bool, halted: seq<nat>, tradable: seq<nat>,
                          k: nat, c: LogColumn)
    requires forall j :: 0 <= j < |halted| ==> halted[j] < |instruments|
    requires forall j :: 0 <= j < |tradable| ==> tradable[j] < |instruments|
    requires k < |instruments| && (k in halted || k in tradable)
    requires c == Units(instruments[k]) || c == Weight(instruments[k])
    ensures c in DayWrites(instruments, stats, logsScalar, halted, tradable)
  {
    var zero: string -> seq<LogColumn> := inst => [Units(inst), Weight(inst)];
    var units: string -> seq<LogColumn> := inst => [Units(inst)];
    var weights: string -> seq<LogColumn> := inst => [Weight(inst)];
    if k in halted {
      var j :| 0 <= j < |halted| && halted[j] == k;
      EachWritesAll(instruments, halted, zero, j);
      assert c in zero(instruments[k]);
      assert c in EachWrites(instruments, halted, zero);
    } else if c.Units? {
      var j :| 0 <= j < |tradable| && tradable[j] == k;
      EachWritesAll(instruments, tradable, units, j);
      assert c in units(instruments[k]);
      assert c in EachWrites(instruments, tradable, units);
    } else {
      var j :| 0 <= j < |tradable| && tradable[j] == k;
      EachWritesAll(instruments, tradable, weights, j);
      assert c in weights(instruments[k]);
      assert c in EachWrites(instruments, tradable, weights);
    }
  }

  /** The halted and tradable lists of row `p` point into the universe and cover it. */
  lemma DayLists(env: Env, p: nat)
    ensures forall j :: 0 <= j < |NonTradable(env, p)| ==> NonTradable(env, p)[j] < |env.instruments|
    ensures forall j :: 0 <= j < |Tradable(env, p)| ==> Tradable(env, p)[j] < |env.instruments|
    ensures forall k: nat :: k < |env.instruments| ==> k in NonTradable(env, p) || k in Tradable(env, p)
  {
    TradableMembers(env, p, |env.instruments|);
    HaltedMembers(env, p, |env.instruments|);
    TradablePartition(env, p);
  }

  /** On every row the body writes only `Logged` columns, and all of them but the day
      statistics, the date and the capital. */
  lemma BodyLogged(env: Env, logsScalar: bool, i: nat)
    ensures Elems(BodyWrites(env, logsScalar, i)) <= Logged(env.instruments, logsScalar)
    ensures Logged(env.instruments, logsScalar) - Elems(StatsWrites()) - {DateLabel, Capital} <=
      Elems(BodyWrites(env, logsScalar, i))
  {
    var p := env.start + i;
    var halted, tradable := NonTradable(env, p), Tradable(env, p);
    DayLists(env, p);
    assert BodyWrites(env, logsScalar, i) == DayWrites(env.instruments, i != 0, logsScalar, halted, tradable);
    DayWithin(env.instruments, i != 0, logsScalar, halted, tradable);
    DayCovers(env.instruments, i != 0, logsScalar, halted, tradable);
  }

  /** The set algebra of one more row: the columns written so far and the statistics fill
      `l` once a body adds its own. */
  lemma CoverStep<T>(t: set<T>, b: set<T>, s: set<T>, l: set<T>)
    requires t <= l && s <= l && b <= l && l - s - t <= b
    ensures t + b + s == l
  {
  }

  /** On every row after the first, `get_strat_scalar` sees exactly the `Logged` columns. */
  lemma {:induction false} ScalarColumns(env: Env, logsScalar: bool, i: nat)
    requires 0 < i
    ensures ColumnsAtScalar(env, logsScalar, i) == Logged(env.instruments, logsScalar)
  {
    var l, s := Logged(env.instruments, logsScalar), Elems(StatsWrites());
    var t, b := TableColumns(env, logsScalar, i - 1), Elems(BodyWrites(env, logsScalar, i - 1));
    BodyLogged(env, logsScalar, i - 1);
    assert s <= l;
    if i > 1 {
      ScalarColumns(env, logsScalar, i - 1);
    } else {
      assert t <= l;
    }
    CoverStep(t, b, s, l);
  }

  /** `capital ret` is always among the `Logged` columns, `strat scalar` only when logged. */
  lemma LoggedScalar(instruments: seq<string>, logsScalar: bool)
    ensures CapitalRet in Logged(instruments, logsScalar)
    ensures StratScalar in Logged(instruments, logsScalar) <==> logsScalar
  {
  }

  datatype Selection = Selected | KeyError(column: LogColumn)

  /** `get_strat_scalar` selects `capital ret`, then `strat scalar`; the first missing
      one raises. */
  function ScalarLookup(columns: set<LogColumn>): (r: Selection)
    ensures r == Selected <==> CapitalRet in columns && StratScalar in columns
    ensures r == KeyError(StratScalar) <==> CapitalRet in columns && StratScalar !in columns
  {
    if CapitalRet !in columns then KeyError(CapitalRet)
    else if StratScalar !in columns then KeyError(StratScalar)
    else Selected
  }

  /** As written, the loop body never logs the scalar, so the lookup on every row after
      the first raises a KeyError on `strat scalar`. */
  lemma ScalarLookupFailsAsWritten(env: Env, i: nat)
    requires 0 < i
    ensures ScalarLookup(ColumnsAtScalar(env, false, i)) == KeyError(StratScalar)
  {
    ScalarColumns(env, false, i);
    LoggedScalar(env.instruments, false);
  }

  /** Logging the scalar on each row, as the long/short loop does, lets every lookup succeed. */
  lemma ScalarLookupSucceedsWhenLogged(env: Env, i: nat)
    requires 0 < i
    ensures ScalarLookup(ColumnsAtScalar(env, true, i)) == Selected
  {
    ScalarColumns(env, true, i);
    LoggedScalar(env.instruments, true);
  }
}
