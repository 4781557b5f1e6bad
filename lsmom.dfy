/** The long/short momentum strategy: it copies the historical table, adds each
    instrument's ADX and 21 EMA differences to the copy, back-fills it, and runs the
    long/short day loop from the simulation start on. */
module Lsmom {
  import opened Numerics
  import opened Dates
  import opened Frames
  import opened BacktestUtils
  import opened Engine
  import opened Indicators

  /** The table the day loop reads: the indicators added, then back-filled. */
  function Prepared(instruments: seq<string>, data: Columns, tk: Toolkit): Columns
    requires HasPrices(instruments, data)
  {
    BFillAll(WithIndicators(instruments, data, tk, |instruments|))
  }

  /** The long/short run on the prepared table, from the first date at or after `start`. */
  function SimEnv(instruments: seq<string>, index: seq<Label>, data: Columns, start: Date, volTarget: real,
                  tk: Toolkit): Env
    requires HasPrices(instruments, data)
  {
    Env(LongShort, index, Prepared(instruments, data, tk), instruments, StartRow(index, start), volTarget,
        tk.sqrt253, tk.stdev)
  }

  /** What `run_simulation` yields on a table with this index and these columns. */
  ghost predicate Simulated(instruments: seq<string>, index: seq<Label>, data: Columns, start: Date,
                            volTarget: real, tk: Toolkit, r: Run)
    reads if r.Ran? then {r.portfolio} else {}
  {
    if !HasPrices(instruments, data) then r == Failed(MissingColumns)
    else Outcome(SimEnv(instruments, index, data, start, volTarget, tk), r)
  }

  class Lsmom {
    /** `instruments_config["instruments"]`. */
    const instruments: seq<string>
    const historical: Frame
    const simulationStart: Date
    const volTarget: real
    const tk: Toolkit
    const sysname: string

    constructor (instruments: seq<string>, historical: Frame, simulationStart: Date, volTarget: real, tk: Toolkit)
      ensures this.instruments == instruments && this.historical == historical
      ensures this.simulationStart == simulationStart && this.volTarget == volTarget && this.tk == tk
      ensures sysname == "LSMOM"
    {
      this.instruments := instruments;
      this.historical := historical;
      this.simulationStart := simulationStart;
      this.volTarget := volTarget;
      this.tk := tk;
      sysname := "LSMOM";
    }

    /** `extend_historicals`: a copy of `historicalData` with each instrument's ADX set,
        then its 21 EMA differences concatenated on; `historicalData` is not changed. */
    method ExtendHistoricals(instruments: seq<string>, historicalData: Frame) returns (r: Frame)
      requires historicalData.Valid() && Distinct(instruments)
      requires HasPrices(instruments, historicalData.data) && NoIndicators(historicalData.data)
      ensures fresh(r) && r.Valid() && r.index == historicalData.index
      ensures r.columns == historicalData.columns + IndicatorCols(instruments, |instruments|)
      ensures r.data == WithIndicators(instruments, historicalData.data, tk, |instruments|)
    {
      var data := historicalData.data;
      r := historicalData.Copy();
      var i := 0;
      while i < |instruments|
        invariant i <= |instruments| && fresh(r) && r.Valid() && r.index == historicalData.index
        invariant r.columns == historicalData.columns + IndicatorCols(instruments, i)
        invariant r.data == WithIndicators(instruments, data, tk, i)
      {
        var inst := instruments[i];
        NewIndicatorCols(instruments, data, tk, i);
        r := AddIndicators(inst, data, r);
        IndicatorsNext(instruments, data, tk, i);
        AppendAssociates(historicalData.columns, IndicatorCols(instruments, i), [Col(inst, Adx)] + EmaCols(inst));
        i := i + 1;
      }
    }

    /** One instrument's turn: its ADX column set on `table`, then its EMA differences
        concatenated on, which gives a new table. */
    method AddIndicators(inst: string, data: Columns, table: Frame) returns (r: Frame)
      requires table.Valid()
      requires Col(inst, High) in data && Col(inst, Low) in data && Col(inst, Close) in data
      requires Col(inst, Adx) !in table.data && forall c :: c in EmaCols(inst) ==> c !in table.data && c != Col(inst, Adx)
      modifies table
      ensures fresh(r) && r.Valid() && r.index == old(table.index)
      ensures r.columns == old(table.columns) + ([Col(inst, Adx)] + EmaCols(inst))
      ensures r.data == WithColumns(old(table.data)[Col(inst, Adx) := AdxColumn(data, inst, tk)],
                                    EmaCols(inst), EmaDiffs(data[Col(inst, Close)], tk.ema))
    {
      table.SetColumn(Col(inst, Adx), AdxColumn(data, inst, tk));
      var diffs := EmaDifferences(data[Col(inst, Close)]);
      EmaColsDistinct(inst);
      r := table.Concat(EmaCols(inst), diffs);
      AppendAssociates(old(table.columns), [Col(inst, Adx)], EmaCols(inst));
    }

    /** The list `ema_differences`: fast minus slow EMA of `close` for each pair, in order. */
    method EmaDifferences(close: seq<Float>) returns (diffs: seq<seq<Float>>)
      ensures diffs == EmaDiffs(close, tk.ema)
    {
      diffs := [];
      var j := 0;
      while j < |Pairs|
        invariant j <= |Pairs| && diffs == EmaDiffs(close, tk.ema)[..j]
      {
        diffs := diffs + [EmaDiff(close, tk.ema, Pairs[j])];
        j := j + 1;
      }
    }

    /** `run_simulation`: extends a copy of the table, back-fills it and runs the
        long/short day loop; returns the portfolio table and the instruments. */
    method RunSimulation(historicalData: Frame) returns (r: Run, traded: seq<string>)
      requires historicalData.Valid() && Distinct(instruments) && NoIndicators(historicalData.data)
      ensures traded == instruments
      ensures Simulated(instruments, historicalData.index, historicalData.data, simulationStart, volTarget, tk, r)
      ensures r.Ran? ==> fresh(r.portfolio)
    {
      traded := instruments;
      if !HasPrices(instruments, historicalData.data) {
        r := Failed(MissingColumns);
        return;
      }
      var table := ExtendHistoricals(instruments, historicalData);
      table.FillBackward();
      var env := Env(LongShort, table.index, table.data, instruments, StartRow(table.index, simulationStart),
                     volTarget, tk.sqrt253, tk.stdev);
      assert env == SimEnv(instruments, historicalData.index, historicalData.data, simulationStart, volTarget, tk);
      r := Simulate(env);
    }

    /** `get_subsys_pos`: the simulation on the table the strategy was built with. */
    method GetSubsysPos() returns (r: Run, traded: seq<string>)
      requires historical.Valid() && Distinct(instruments) && NoIndicators(historical.data)
      ensures traded == instruments
      ensures Simulated(instruments, historical.index, historical.data, simulationStart, volTarget, tk, r)
      ensures r.Ran? ==> fresh(r.portfolio)
    {
      r, traded := RunSimulation(historical);
    }
  }

  /** Before instrument `i`'s turn none of its indicator columns exists yet. */
  lemma NewIndicatorCols(instruments: seq<string>, data: Columns, tk: Toolkit, i: nat)
    requires Distinct(instruments) && i < |instruments|
    requires HasPrices(instruments, data) && NoIndicators(data)
    ensures var d, inst := WithIndicators(instruments, data, tk, i), instruments[i];
      Col(inst, Adx) !in d && forall c :: c in EmaCols(inst) ==> c !in d && c != Col(inst, Adx)
  {
    IndicatorsDomain(instruments, data, tk, i);
    IndicatorColsMembers(instruments, i);
    assert instruments[i] !in instruments[..i];
  }
}
