/** The indicator columns both strategies add to the historical table before the
    backtest: for each instrument its 14-period ADX and, for each of the 21 period pairs,
    the fast EMA of the close minus the slow one. The TA-Lib routines, the pandas
    sample standard deviation and the square root of 253 are given, not defined. */
module Indicators {
  import opened Numerics
  import opened Frames
  import opened Engine

  /** `talib.EMA(series, n)`, `talib.ADX(high, low, close, n)`, `Series.std()` and
      `np.sqrt(253)`. */
  datatype Toolkit = Toolkit(ema: (seq<Float>, nat) -> seq<Float>,
                             adx: (seq<Float>, seq<Float>, seq<Float>, nat) -> seq<Float>,
                             stdev: seq<real> -> real, sqrt253: real)

  const AdxPeriod: nat := 14

  /** Series arithmetic aligns on the index: a row past the end of a series reads as NaN. */
  function Aligned(s: seq<Float>, t: nat): Float
  {
    if t < |s| then s[t] else NaN
  }

  /** `ema_series(close, fast) - ema_series(close, slow)`. */
  function EmaDiff(close: seq<Float>, ema: (seq<Float>, nat) -> seq<Float>, pair: (nat, nat)): (r: seq<Float>)
    ensures |r| == |close|
  {
    seq(|close|, t requires 0 <= t < |close| => Sub(Aligned(ema(close, pair.0), t), Aligned(ema(close, pair.1), t)))
  }

  /** The list `ema_differences`, one column per pair. */
  function EmaDiffs(close: seq<Float>, ema: (seq<Float>, nat) -> seq<Float>): (r: seq<seq<Float>>)
    ensures |r| == |Pairs|
  {
    seq(|Pairs|, j requires 0 <= j < |Pairs| => EmaDiff(close, ema, Pairs[j]))
  }

  /** `[f"{inst} ema{str(pair)}" for pair in pairs]`. */
  function EmaCols(inst: string): (r: seq<Col>)
    ensures |r| == |Pairs| && forall j :: 0 <= j < |Pairs| ==> r[j] == Col(inst, EmaCol(j))
  {
    seq(|Pairs|, j requires 0 <= j < |Pairs| => Col(inst, EmaCol(j)))
  }

  /** No period pair is listed twice, so no EMA column name repeats. */
  lemma EmaColsDistinct(inst: string)
    ensures Distinct(EmaCols(inst))
  {
    forall a, b | 0 <= a < b < |Pairs| ensures EmaCols(inst)[a] != EmaCols(inst)[b] {
      assert Pairs[a] != Pairs[b];
    }
  }

  /** The price columns the indicators read. */
  predicate HasPrices(instruments: seq<string>, data: Columns)
  {
    forall k :: 0 <= k < |instruments| ==>
      Col(instruments[k], High) in data && Col(instruments[k], Low) in data && Col(instruments[k], Close) in data
  }

  /** A table without indicator columns, as `extend_dataframe` leaves it. */
  predicate NoIndicators(data: Columns)
  {
    forall c :: c in data ==> c.field != Adx && !c.field.Ema?
  }

  function AdxColumn(data: Columns, inst: string, tk: Toolkit): seq<Float>
    requires Col(inst, High) in data && Col(inst, Low) in data && Col(inst, Close) in data
  {
    tk.adx(data[Col(inst, High)], data[Col(inst, Low)], data[Col(inst, Close)], AdxPeriod)
  }

  /** The indicators of the first `n` instruments, computed from the prices of `data`:
      each instrument's ADX column is set, then its 21 EMA differences. */
  function WithIndicators(instruments: seq<string>, data: Columns, tk: Toolkit, n: nat): Columns
    requires n <= |instruments| && HasPrices(instruments, data)
  {
    if n == 0 then data
    else
      var inst := instruments[n - 1];
      WithColumns(WithIndicators(instruments, data, tk, n - 1)[Col(inst, Adx) := AdxColumn(data, inst, tk)],
                  EmaCols(inst), EmaDiffs(data[Col(inst, Close)], tk.ema))
  }

  /** The indicator column names of the first `n` instruments, in the order they are added. */
  function IndicatorCols(instruments: seq<string>, n: nat): seq<Col>
    requires n <= |instruments|
  {
    if n == 0 then []
    else IndicatorCols(instruments, n - 1) + [Col(instruments[n - 1], Adx)] + EmaCols(instruments[n - 1])
  }

  /** One more instrument: its ADX column, then its EMA differences. */
  lemma IndicatorsNext(instruments: seq<string>, data: Columns, tk: Toolkit, i: nat)
    requires i < |instruments| && HasPrices(instruments, data)
    ensures var inst := instruments[i];
      WithIndicators(instruments, data, tk, i + 1) ==
        WithColumns(WithIndicators(instruments, data, tk, i)[Col(inst, Adx) := AdxColumn(data, inst, tk)],
                    EmaCols(inst), EmaDiffs(data[Col(inst, Close)], tk.ema))
    ensures IndicatorCols(instruments, i + 1) == IndicatorCols(instruments, i) + ([Col(instruments[i], Adx)] + EmaCols(instruments[i]))
  {
    AppendAssociates(IndicatorCols(instruments, i), [Col(instruments[i], Adx)], EmaCols(instruments[i]));
  }

  /** The ADX field, or the EMA field of a configured period pair. */
  predicate IsIndicator(f: Field)
  {
    f == Adx || (f.Ema? && (f.fast, f.slow) in Pairs)
  }

  /** The indicator columns are the ADX and EMA columns of the visited instruments. */
  lemma {:induction false} IndicatorColsMembers(instruments: seq<string>, n: nat)
    requires n <= |instruments|
    ensures forall c: Col :: c in IndicatorCols(instruments, n) <==> c.inst in instruments[..n] && IsIndicator(c.field)
  {
    if n > 0 {
      IndicatorColsMembers(instruments, n - 1);
      var inst := instruments[n - 1];
      assert instruments[..n] == instruments[..n - 1] + [inst];
      forall c: Col ensures c in EmaCols(inst) <==> c.inst == inst && c.field != Adx && IsIndicator(c.field) {
        if c.inst == inst && c.field != Adx && IsIndicator(c.field) {
          var j :| 0 <= j < |Pairs| && Pairs[j] == (c.field.fast, c.field.slow);
          assert c == EmaCols(inst)[j];
        }
      }
    }
  }

  /** With distinct instruments no indicator column is added twice. */
  lemma {:induction false} IndicatorColsDistinct(instruments: seq<string>, n: nat)
    requires Distinct(instruments) && n <= |instruments|
    ensures Distinct(IndicatorCols(instruments, n))
  {
    if n > 0 {
      var inst := instruments[n - 1];
      IndicatorColsDistinct(instruments, n - 1);
      IndicatorColsMembers(instruments, n - 1);
      assert inst !in instruments[..n - 1];
      var prev, tail := IndicatorCols(instruments, n - 1), [Col(inst, Adx)] + EmaCols(inst);
      EmaColsDistinct(inst);
      DistinctJoin([Col(inst, Adx)], EmaCols(inst));
      OwnColumns(inst);
      forall c | c in prev ensures c !in tail {
        assert c.inst in instruments[..n - 1];
      }
      DistinctJoin(prev, tail);
      AppendAssociates(prev, [Col(inst, Adx)], EmaCols(inst));
    }
  }

  /** An instrument's own indicator columns all carry its name. */
  lemma OwnColumns(inst: string)
    ensures forall c :: c in EmaCols(inst) ==> c.inst == inst && c.field.Ema? && IsIndicator(c.field)
  {
    forall c | c in EmaCols(inst) ensures c.inst == inst && c.field.Ema? && IsIndicator(c.field) {
      var j :| 0 <= j < |Pairs| && EmaCols(inst)[j] == c;
    }
  }

  /** The indicators add exactly the indicator columns of the visited instruments. */
  lemma {:induction false} IndicatorsDomain(instruments: seq<string>, data: Columns, tk: Toolkit, n: nat)
    requires n <= |instruments| && HasPrices(instruments, data)
    ensures forall c: Col :: c in WithIndicators(instruments, data, tk, n) <==> c in data || c in IndicatorCols(instruments, n)
  {
    if n > 0 {
      IndicatorsDomain(instruments, data, tk, n - 1);
      var inst := instruments[n - 1];
      var withAdx := WithIndicators(instruments, data, tk, n - 1)[Col(inst, Adx) := AdxColumn(data, inst, tk)];
      WithColumnsDomain(withAdx, EmaCols(inst), EmaDiffs(data[Col(inst, Close)], tk.ema));
    }
  }

  /** and leave every other column as it was, prices included. */
  lemma {:induction false} IndicatorsKeepOthers(instruments: seq<string>, data: Columns, tk: Toolkit, n: nat)
    requires n <= |instruments| && HasPrices(instruments, data)
    ensures forall c: Col :: c in data && !IsIndicator(c.field) ==>
      c in WithIndicators(instruments, data, tk, n) && WithIndicators(instruments, data, tk, n)[c] == data[c]
  {
    if n > 0 {
      IndicatorsKeepOthers(instruments, data, tk, n - 1);
      var inst := instruments[n - 1];
      var prev := WithIndicators(instruments, data, tk, n - 1);
      forall c: Col | c in data && !IsIndicator(c.field)
        ensures c in WithIndicators(instruments, data, tk, n) && WithIndicators(instruments, data, tk, n)[c] == data[c]
      {
        KeepsOther(prev, data[c], inst, AdxColumn(data, inst, tk), EmaDiffs(data[Col(inst, Close)], tk.ema), c);
      }
    }
  }

  /** One instrument's indicators leave a column that is not an indicator as it was. */
  lemma KeepsOther(prev: Columns, values: seq<Float>, inst: string, adx: seq<Float>, diffs: seq<seq<Float>>, c: Col)
    requires |diffs| == |Pairs| && !IsIndicator(c.field) && c in prev && prev[c] == values
    ensures c in WithColumns(prev[Col(inst, Adx) := adx], EmaCols(inst), diffs)
    ensures WithColumns(prev[Col(inst, Adx) := adx], EmaCols(inst), diffs)[c] == values
  {
    EmaColsDistinct(inst);
    OwnColumns(inst);
    WithColumnsValues(prev[Col(inst, Adx) := adx], EmaCols(inst), diffs);
  }

  /** Each instrument's ADX column is the ADX of its own high, low and close, and its
      column for pair `j` is its fast EMA minus its slow EMA, fast being the pair's first
      period. */
  lemma {:induction false} IndicatorsValues(instruments: seq<string>, data: Columns, tk: Toolkit, n: nat, k: nat)
    requires Distinct(instruments) && k < n <= |instruments| && HasPrices(instruments, data)
    ensures var d, inst := WithIndicators(instruments, data, tk, n), instruments[k];
      Col(inst, Adx) in d && d[Col(inst, Adx)] == AdxColumn(data, inst, tk)
    ensures var d, inst := WithIndicators(instruments, data, tk, n), instruments[k];
      forall j :: 0 <= j < |Pairs| ==>
        Col(inst, EmaCol(j)) in d && d[Col(inst, EmaCol(j))] == EmaDiff(data[Col(inst, Close)], tk.ema, Pairs[j])
  {
    var inst := instruments[n - 1];
    var other := instruments[k];
    var before := WithIndicators(instruments, data, tk, n - 1);
    var withAdx := before[Col(inst, Adx) := AdxColumn(data, inst, tk)];
    var diffs := EmaDiffs(data[Col(inst, Close)], tk.ema);
    var d := WithColumns(withAdx, EmaCols(inst), diffs);
    assert d == WithIndicators(instruments, data, tk, n);
    EmaColsDistinct(inst);
    WithColumnsValues(withAdx, EmaCols(inst), diffs);
    assert Col(other, Adx) !in EmaCols(inst);
    if k == n - 1 {
      forall j | 0 <= j < |Pairs|
        ensures Col(other, EmaCol(j)) in d && d[Col(other, EmaCol(j))] == EmaDiff(data[Col(other, Close)], tk.ema, Pairs[j])
      {
        assert EmaCols(inst)[j] == Col(other, EmaCol(j));
      }
    } else {
      IndicatorsValues(instruments, data, tk, n - 1, k);
      assert other != inst;
      forall j | 0 <= j < |Pairs|
        ensures Col(other, EmaCol(j)) in d && d[Col(other, EmaCol(j))] == EmaDiff(data[Col(other, Close)], tk.ema, Pairs[j])
      {
        assert Col(other, EmaCol(j)) !in EmaCols(inst);
        var c := Col(other, EmaCol(j));
        assert c in before && before[c] == EmaDiff(data[Col(other, Close)], tk.ema, Pairs[j]);
        assert c != Col(inst, Adx);
        assert c in withAdx && withAdx[c] == before[c];
      }
    }
  }
}
