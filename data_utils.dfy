/** Preparing a downloaded OHLCV table for the strategies: the index labels become
    dates, the traded instruments' price columns are selected and forward-filled, each
    instrument gains its percent return, 25-day return volatility and activity flag, and
    the table is back-filled. */
module DataUtils {
  import opened Numerics
  import opened Dates
  import opened Frames

  // ---------------------------------------------------------------------------------
  // Dates in the index

  /** `format_date`: the date part of an index label's text, `YYYY-MM-DD`, as a date. A
      label that is already a date prints as such. */
  function FormatDate(entry: Label): (r: Parsed<Date>)
    ensures r.Ok? ==> IsValid(r.value)
  {
    match entry
    case Raw(text) => ParseDateText(text)
    case Day(d) => if IsValid(d) then ParseDateText(Render(d)) else Err(NoSuchDate(d.year, d.month, d.day))
  }

  /** A date, or a timestamp printed as its date followed by a space and a time, formats
      to that date. */
  lemma FormatDateReadsDates(d: Date, rest: string)
    requires IsValid(d)
    requires |rest| == 0 || rest[0] == ' '
    ensures FormatDate(Day(d)) == Ok(d)
    ensures FormatDate(Raw(Render(d) + rest)) == Ok(d)
  {
    RenderParses(d, rest);
    RenderParses(d, "");
    assert Render(d) + "" == Render(d);
  }

  /** Formatting is idempotent: a formatted label formats to itself. */
  lemma FormatDateIdempotent(entry: Label)
    requires FormatDate(entry).Ok?
    ensures FormatDate(Day(FormatDate(entry).value)) == FormatDate(entry)
  {
    FormatDateReadsDates(FormatDate(entry).value, "");
  }

  /** `pd.Series(df.index).apply(format_date)`: every label formatted, or the first
      bad label's error. */
  function FormatIndex(index: seq<Label>): (r: Parsed<seq<Label>>)
    ensures r.Ok? <==> forall i :: 0 <= i < |index| ==> FormatDate(index[i]).Ok?
    ensures r.Ok? ==> |r.value| == |index|
    ensures r.Ok? ==> forall i :: 0 <= i < |index| ==> r.value[i] == Day(FormatDate(index[i]).value)
    ensures r.Err? ==>
      exists i :: 0 <= i < |index| && FormatDate(index[i]) == Err(r.error) && forall j :: 0 <= j < i ==> FormatDate(index[j]).Ok?
  {
    if |index| == 0 then Ok([])
    else match FormatDate(index[0])
      case Err(e) => Err(e)
      case Ok(d) =>
        match FormatIndex(index[1..])
        case Err(e) =>
          ghost var i :| 0 <= i < |index[1..]| && FormatDate(index[1..][i]) == Err(e) &&
            forall j :: 0 <= j < i ==> FormatDate(index[1..][j]).Ok?;
          assert FormatDate(index[i + 1]) == Err(e);
          Err(e)
        case Ok(rest) =>
          assert forall i :: 1 <= i < |index| ==> index[i] == index[1..][i - 1];
          Ok([Day(d)] + rest)
  }

  // ---------------------------------------------------------------------------------
  // Column selection

  const PriceFields: seq<Field> := [Open, High, Low, Close, Volume]

  /** `list(map(lambda x: str(x) + " <field>", traded))`. */
  function FieldCols(traded: seq<string>, f: Field): (r: seq<Col>)
    ensures |r| == |traded| && forall i :: 0 <= i < |traded| ==> r[i] == Col(traded[i], f)
  {
    seq(|traded|, i requires 0 <= i < |traded| => Col(traded[i], f))
  }

  /** `open_cols + high_cols + low_cols + close_cols + volume_cols`. */
  function SelectedColumns(traded: seq<string>): seq<Col>
  {
    FieldCols(traded, Open) + FieldCols(traded, High) + FieldCols(traded, Low) +
    FieldCols(traded, Close) + FieldCols(traded, Volume)
  }

  /** The selection holds exactly the price columns of the traded instruments. */
  lemma SelectedMembers(traded: seq<string>)
    ensures forall c: Col :: c in SelectedColumns(traded) <==> c.inst in traded && c.field in PriceFields
  {
    forall c: Col | c.inst in traded && c.field in PriceFields ensures c in SelectedColumns(traded) {
      var i :| 0 <= i < |traded| && traded[i] == c.inst;
      assert c == Col(traded[i], c.field);
      assert c in FieldCols(traded, c.field);
    }
  }

  lemma FieldColsDistinct(traded: seq<string>, f: Field)
    requires Distinct(traded)
    ensures Distinct(FieldCols(traded, f))
  {
  }

  /** With distinct instruments, no column is selected twice. */
  lemma SelectedDistinct(traded: seq<string>)
    requires Distinct(traded)
    ensures Distinct(SelectedColumns(traded))
  {
    var o, h, l, c, v := FieldCols(traded, Open), FieldCols(traded, High), FieldCols(traded, Low),
                         FieldCols(traded, Close), FieldCols(traded, Volume);
    FieldColsDistinct(traded, Open);
    FieldColsDistinct(traded, High);
    FieldColsDistinct(traded, Low);
    FieldColsDistinct(traded, Close);
    FieldColsDistinct(traded, Volume);
    DistinctJoin(o, h);
    DistinctJoin(o + h, l);
    DistinctJoin(o + h + l, c);
    DistinctJoin(o + h + l + c, v);
  }

  // ---------------------------------------------------------------------------------
  // Statistics

  /** `close / close.shift(1) - 1`: NaN on the first row. */
  function PctRet(close: seq<Float>): (r: seq<Float>)
    ensures |r| == |close|
  {
    seq(|close|, t requires 0 <= t < |close| => if t == 0 then NaN else Sub(Div(close[t], close[t - 1]), Fin(1.0)))
  }

  /** The return compounds the previous close into today's: where both closes are values
      and yesterday's is nonzero, today's close is yesterday's times one plus the return;
      elsewhere the return is NaN. */
  lemma PctRetCompounds(close: seq<Float>, t: nat)
    requires 0 < t < |close|
    ensures PctRet(close)[t].Fin? <==> close[t].Fin? && close[t - 1].Fin? && close[t - 1].v != 0.0
    ensures PctRet(close)[t].Fin? ==> close[t].v == close[t - 1].v * (1.0 + PctRet(close)[t].v)
  {
    if PctRet(close)[t].Fin? {
      var a, b := close[t].v, close[t - 1].v;
      assert PctRet(close)[t].v == a / b - 1.0;
      calc {
        b * (1.0 + (a / b - 1.0));
        b * (a / b);
        a;
      }
    }
  }

  /** `close != close.shift(1)`: true on the first row, and wherever either side is NaN. */
  function ActiveFlags(close: seq<Float>): (r: seq<Float>)
    ensures |r| == |close|
  {
    seq(|close|, t requires 0 <= t < |close| => if t == 0 then FromBool(true) else FromBool(Ne(close[t], close[t - 1])))
  }

  /** An instrument is inactive on a day exactly when its close repeats yesterday's value. */
  lemma ActiveMeansMoved(close: seq<Float>, t: nat)
    requires t < |close|
    ensures ActiveFlags(close)[t].Fin?
    ensures ActiveFlags(close)[t] == Fin(0.0) <==> t > 0 && close[t].Fin? && close[t] == close[t - 1]
  {
    var r := ActiveFlags(close);
    if t > 0 {
      assert r[t] == FromBool(Ne(close[t], close[t - 1]));
    } else {
      assert r[t] == FromBool(true);
      assert FromBool(true) == Fin(1.0);
    }
  }

  const VolWindow: nat := 25

  /** `ret.rolling(25).std()`: the sample standard deviation `stdev` of the window of 25
      rows ending at each row, NaN while the window is short or holds a NaN. */
  function RollingStd(ret: seq<Float>, stdev: seq<real> -> real): (r: seq<Float>)
    ensures |r| == |ret|
  {
    seq(|ret|, t requires 0 <= t < |ret| =>
      if t + 1 < VolWindow then NaN
      else if AllFin(ret[t + 1 - VolWindow..t + 1]) then Fin(stdev(Values(ret[t + 1 - VolWindow..t + 1])))
      else NaN)
  }

  /** The return volatility needs 25 returns and the first row has none, so it is NaN
      on the first 25 rows; from there on it is finite exactly when the 25 closes before
      the row and the row's own are values with nonzero divisors. */
  lemma RetVolStart(close: seq<Float>, stdev: seq<real> -> real, t: nat)
    requires t < |close|
    ensures t < VolWindow ==> RollingStd(PctRet(close), stdev)[t].NaN?
    ensures RollingStd(PctRet(close), stdev)[t].Fin? <==>
      t >= VolWindow && forall u :: t + 1 - VolWindow <= u <= t ==> PctRet(close)[u].Fin?
  {
    var ret := PctRet(close);
    var vol := RollingStd(ret, stdev);
    if t + 1 >= VolWindow {
      var lo := t + 1 - VolWindow;
      assert vol[t].Fin? <==> AllFin(ret[lo..t + 1]);
      WindowAllFin(ret, lo, t + 1);
      if lo == 0 {
        assert ret[0].NaN?;
      }
    }
  }

  lemma WindowAllFin(s: seq<Float>, lo: nat, hi: nat)
    requires lo <= hi <= |s|
    ensures AllFin(s[lo..hi]) <==> forall u :: lo <= u < hi ==> s[u].Fin?
  {
    forall u | lo <= u < hi ensures s[u] == s[lo..hi][u - lo] {
    }
  }

  // ---------------------------------------------------------------------------------
  // The extended table

  const StatFields: seq<Field> := [Ret, RetVol, Active]

  /** The columns of `cols` missing from `data`, in order: what `df[cols]` complains of. */
  function Absent(cols: seq<Col>, data: Columns): (r: seq<Col>)
    ensures forall c :: c in r <==> c in cols && c !in data
  {
    if |cols| == 0 then []
    else (if cols[0] in data then [] else [cols[0]]) + Absent(cols[1..], data)
  }

  /** `df[cols]` once every column is present. */
  function Restrict(data: Columns, cols: seq<Col>): (r: Columns)
    ensures r.Keys == data.Keys * set c | c in cols
    ensures forall c :: c in r ==> r[c] == data[c]
  {
    map c | c in data && c in cols :: data[c]
  }

  /** The statistics columns of the first `n` instruments, in the order they are appended. */
  function StatCols(traded: seq<string>, n: nat): seq<Col>
    requires n <= |traded|
  {
    if n == 0 then []
    else StatCols(traded, n - 1) + [Col(traded[n - 1], Ret), Col(traded[n - 1], RetVol), Col(traded[n - 1], Active)]
  }

  /** `data` with the return, return volatility and activity flag of `inst`, whose
      close is `close`. */
  function WithStats(data: Columns, inst: string, close: seq<Float>, stdev: seq<real> -> real): Columns
  {
    data[Col(inst, Ret) := PctRet(close)][Col(inst, RetVol) := RollingStd(PctRet(close), stdev)]
      [Col(inst, Active) := ActiveFlags(close)]
  }

  /** The forward-filled selection `data` once the loop has added the first `n`
      instruments' return, return volatility and activity flag. */
  function Stats(traded: seq<string>, data: Columns, stdev: seq<real> -> real, n: nat): Columns
    requires n <= |traded| && forall i :: 0 <= i < n ==> Col(traded[i], Close) in data
  {
    if n == 0 then data
    else
      var inst := traded[n - 1];
      WithStats(Stats(traded, data, stdev, n - 1), inst, data[Col(inst, Close)], stdev)
  }

  /** `extend_dataframe`'s result: the selected price columns forward-filled, the
      statistics added, then everything back-filled. */
  function ExtendedColumns(traded: seq<string>, data: Columns, stdev: seq<real> -> real): Columns
    requires forall c :: c in SelectedColumns(traded) ==> c in data
  {
    var filled := FFillAll(Restrict(data, SelectedColumns(traded)));
    SelectedMembers(traded);
    BFillAll(Stats(traded, filled, stdev, |traded|))
  }

  /** The statistics loop only adds the statistics columns of the instruments it has
      visited. */
  lemma {:induction false} StatsDomain(traded: seq<string>, data: Columns, stdev: seq<real> -> real, n: nat)
    requires n <= |traded| && forall i :: 0 <= i < n ==> Col(traded[i], Close) in data
    ensures forall c: Col :: c in Stats(traded, data, stdev, n) <==> c in data || (c.field in StatFields && c.inst in traded[..n])
  {
    if n > 0 {
      StatsDomain(traded, data, stdev, n - 1);
      assert traded[..n] == traded[..n - 1] + [traded[n - 1]];
    }
  }

  /** and leaves every other column as it was. */
  lemma {:induction false} StatsKeepsPrices(traded: seq<string>, data: Columns, stdev: seq<real> -> real, n: nat)
    requires n <= |traded| && forall i :: 0 <= i < n ==> Col(traded[i], Close) in data
    ensures forall c: Col :: c in data && c.field !in StatFields ==>
      c in Stats(traded, data, stdev, n) && Stats(traded, data, stdev, n)[c] == data[c]
  {
    if n > 0 {
      StatsKeepsPrices(traded, data, stdev, n - 1);
    }
  }

  lemma {:induction false} StatColsMembers(traded: seq<string>, n: nat)
    requires n <= |traded|
    ensures forall c: Col :: c in StatCols(traded, n) <==> c.field in StatFields && c.inst in traded[..n]
  {
    if n > 0 {
      StatColsMembers(traded, n - 1);
      assert traded[..n] == traded[..n - 1] + [traded[n - 1]];
    }
  }

  /** Each instrument's statistics are its own close's, whatever order they were added in. */
  lemma {:induction false} StatsValues(traded: seq<string>, data: Columns, stdev: seq<real> -> real, n: nat, k: nat)
    requires Distinct(traded) && k < n <= |traded| && forall i :: 0 <= i < n ==> Col(traded[i], Close) in data
    ensures Col(traded[k], Ret) in Stats(traded, data, stdev, n)
    ensures Col(traded[k], RetVol) in Stats(traded, data, stdev, n)
    ensures Col(traded[k], Active) in Stats(traded, data, stdev, n)
    ensures var s, close := Stats(traded, data, stdev, n), data[Col(traded[k], Close)];
      s[Col(traded[k], Ret)] == PctRet(close) &&
      s[Col(traded[k], RetVol)] == RollingStd(PctRet(close), stdev) &&
      s[Col(traded[k], Active)] == ActiveFlags(close)
  {
    if k < n - 1 {
      StatsValues(traded, data, stdev, n - 1, k);
      assert traded[k] != traded[n - 1];
    }
  }

  lemma {:induction false} StatColsDistinct(traded: seq<string>, n: nat)
    requires Distinct(traded) && n <= |traded|
    ensures Distinct(StatCols(traded, n))
  {
    if n > 0 {
      StatColsDistinct(traded, n - 1);
      StatColsMembers(traded, n - 1);
      var tail := [Col(traded[n - 1], Ret), Col(traded[n - 1], RetVol), Col(traded[n - 1], Active)];
      assert traded[n - 1] !in traded[..n - 1];
      forall c | c in StatCols(traded, n - 1) ensures c !in tail {
        assert c.inst in traded[..n - 1];
      }
      DistinctJoin(StatCols(traded, n - 1), tail);
    }
  }

  /** The filled selection the statistics are computed from. */
  lemma FilledSelection(traded: seq<string>, data: Columns)
    requires forall c :: c in SelectedColumns(traded) ==> c in data
    ensures var filled := FFillAll(Restrict(data, SelectedColumns(traded)));
      (filled.Keys == set c | c in SelectedColumns(traded)) &&
      forall c :: c in filled ==> filled[c] == FFilled(data[c])
  {
  }

  /** The extended table holds the five price columns and the three statistics of each
      traded instrument, and no other column. */
  lemma ExtendedKeys(traded: seq<string>, data: Columns, stdev: seq<real> -> real)
    requires forall c :: c in SelectedColumns(traded) ==> c in data
    ensures forall c: Col :: c in ExtendedColumns(traded, data, stdev) <==>
      c.inst in traded && (c.field in PriceFields || c.field in StatFields)
  {
    var filled := FFillAll(Restrict(data, SelectedColumns(traded)));
    FilledSelection(traded, data);
    SelectedMembers(traded);
    SelectedPrices(traded, filled);
    StatsDomain(traded, filled, stdev, |traded|);
    assert traded[..|traded|] == traded;
  }

  /** Each price column is the downloaded one forward- then back-filled. */
  lemma ExtendedPrices(traded: seq<string>, data: Columns, stdev: seq<real> -> real, k: nat)
    requires k < |traded|
    requires forall c :: c in SelectedColumns(traded) ==> c in data
    ensures var ext, inst := ExtendedColumns(traded, data, stdev), traded[k];
      forall f :: f in PriceFields ==>
        Col(inst, f) in data && Col(inst, f) in ext && ext[Col(inst, f)] == BFilled(FFilled(data[Col(inst, f)]))
  {
    var inst := traded[k];
    var filled := FFillAll(Restrict(data, SelectedColumns(traded)));
    FilledSelection(traded, data);
    SelectedMembers(traded);
    SelectedPrices(traded, filled);
    var s := Stats(traded, filled, stdev, |traded|);
    StatsKeepsPrices(traded, filled, stdev, |traded|);
    var ext := ExtendedColumns(traded, data, stdev);
    assert ext == BFillAll(s);
    forall f | f in PriceFields
      ensures Col(inst, f) in data && Col(inst, f) in ext && ext[Col(inst, f)] == BFilled(FFilled(data[Col(inst, f)]))
    {
      var c := Col(inst, f);
      assert c in SelectedColumns(traded);
      assert c in filled && filled[c] == FFilled(data[c]);
      assert f !in StatFields;
      assert c in s && s[c] == filled[c];
    }
  }

  /** The statistics are computed from the forward-filled close and then back-filled;
      the activity flag has no gap, so back-filling leaves it as computed. */
  lemma ExtendedStats(traded: seq<string>, data: Columns, stdev: seq<real> -> real, k: nat)
    requires Distinct(traded) && k < |traded|
    requires forall c :: c in SelectedColumns(traded) ==> c in data
    ensures var ext, inst := ExtendedColumns(traded, data, stdev), traded[k];
      Col(inst, Close) in data && Col(inst, Ret) in ext && Col(inst, RetVol) in ext && Col(inst, Active) in ext &&
      var close := FFilled(data[Col(inst, Close)]);
      ext[Col(inst, Ret)] == BFilled(PctRet(close)) &&
      ext[Col(inst, RetVol)] == BFilled(RollingStd(PctRet(close), stdev)) &&
      ext[Col(inst, Active)] == ActiveFlags(close)
  {
    var inst := traded[k];
    var filled := FFillAll(Restrict(data, SelectedColumns(traded)));
    FilledSelection(traded, data);
    SelectedMembers(traded);
    SelectedPrices(traded, filled);
    StatsValues(traded, filled, stdev, |traded|, k);
    var close := FFilled(data[Col(inst, Close)]);
    assert filled[Col(inst, Close)] == close;
    forall t | 0 <= t < |close| ensures ActiveFlags(close)[t].Fin? {
      ActiveMeansMoved(close, t);
    }
    BFilledNoGaps(ActiveFlags(close));
  }

  /** A close column holding at least one value has no gap once extended. */
  lemma ExtendedCloseHasNoGaps(traded: seq<string>, data: Columns, stdev: seq<real> -> real, k: nat, j: nat)
    requires Distinct(traded) && k < |traded|
    requires forall c :: c in SelectedColumns(traded) ==> c in data
    requires Col(traded[k], Close) in data
    requires j < |data[Col(traded[k], Close)]| && data[Col(traded[k], Close)][j].Fin?
    ensures var ext := ExtendedColumns(traded, data, stdev);
      Col(traded[k], Close) in ext &&
      forall t :: 0 <= t < |ext[Col(traded[k], Close)]| ==> ext[Col(traded[k], Close)][t].Fin?
  {
    ExtendedPrices(traded, data, stdev, k);
    assert Close in PriceFields;
    FillsCloseAllGaps(data[Col(traded[k], Close)], j);
  }

  /** A day whose close is missing repeats the last close before it, so the instrument
      counts as inactive that day exactly when some close was recorded before it. */
  lemma GapIsInactive(raw: seq<Float>, t: nat)
    requires 0 < t < |raw| && raw[t].NaN?
    ensures ActiveFlags(FFilled(raw))[t] == Fin(0.0) <==> exists u :: 0 <= u < t && raw[u].Fin?
  {
    var close := FFilled(raw);
    ActiveMeansMoved(close, t);
    FFilledRepeats(raw, t);
    LastObsIsLastValue(raw, t - 1);
    assert close[t - 1] == LastObs(raw, t - 1);
    if close[t - 1].Fin? {
      var u :| 0 <= u <= t - 1 && raw[u] == LastObs(raw, t - 1) && forall v :: u < v <= t - 1 ==> raw[v].NaN?;
      assert raw[u].Fin?;
    } else {
      assert forall u :: 0 <= u <= t - 1 ==> raw[u].NaN?;
    }
  }

  /** In the extended table, then, a missing close marks the day inactive exactly when
      an earlier close exists. */
  lemma MissingCloseIsInactive(traded: seq<string>, data: Columns, stdev: seq<real> -> real, k: nat, t: nat)
    requires Distinct(traded) && k < |traded|
    requires forall c :: c in SelectedColumns(traded) ==> c in data
    requires Col(traded[k], Close) in data
    requires 0 < t < |data[Col(traded[k], Close)]| && data[Col(traded[k], Close)][t].NaN?
    ensures var ext := ExtendedColumns(traded, data, stdev);
      Col(traded[k], Active) in ext && |ext[Col(traded[k], Active)]| == |data[Col(traded[k], Close)]| &&
      (ext[Col(traded[k], Active)][t] == Fin(0.0) <==>
        exists u :: 0 <= u < t && data[Col(traded[k], Close)][u].Fin?)
  {
    var ext, inst := ExtendedColumns(traded, data, stdev), traded[k];
    ExtendedStats(traded, data, stdev, k);
    assert ext[Col(inst, Active)] == ActiveFlags(FFilled(data[Col(inst, Close)]));
    GapIsInactive(data[Col(inst, Close)], t);
  }

  datatype ExtendError = BadLabel(error: ParseError) | MissingColumns(cols: seq<Col>)

  datatype Extension = Extended(table: Frame) | Failed(reason: ExtendError)

  /** Before instrument `j`'s turn its statistics columns are absent and its close is
      the one the loop started with. */
  lemma StatsStep(traded: seq<string>, data: Columns, stdev: seq<real> -> real, j: nat)
    requires Distinct(traded) && j < |traded|
    requires forall c: Col :: c in data ==> c.field !in StatFields
    requires forall i :: 0 <= i < |traded| ==> Col(traded[i], Close) in data
    ensures var s, inst := Stats(traded, data, stdev, j), traded[j];
      Col(inst, Ret) !in s && Col(inst, RetVol) !in s && Col(inst, Active) !in s &&
      Col(inst, Close) in s && s[Col(inst, Close)] == data[Col(inst, Close)]
  {
    StatsDomain(traded, data, stdev, j);
    StatsKeepsPrices(traded, data, stdev, j);
    assert traded[j] !in traded[..j];
  }

  lemma PriceNotStat(f: Field)
    requires f in PriceFields
    ensures f !in StatFields
  {
  }

  lemma SelectedPrices(traded: seq<string>, data: Columns)
    requires data.Keys == set c | c in SelectedColumns(traded)
    ensures forall c: Col :: c in data ==> c.field !in StatFields
    ensures forall i :: 0 <= i < |traded| ==> Col(traded[i], Close) in data
  {
    SelectedMembers(traded);
    forall c: Col | c in data ensures c.field !in StatFields {
      assert c in SelectedColumns(traded);
      PriceNotStat(c.field);
    }
    forall i | 0 <= i < |traded| ensures Col(traded[i], Close) in data {
      assert Col(traded[i], Close) in SelectedColumns(traded);
    }
  }

  lemma StatsNext(traded: seq<string>, data: Columns, stdev: seq<real> -> real, j: nat)
    requires j < |traded| && forall i :: 0 <= i < |traded| ==> Col(traded[i], Close) in data
    ensures Stats(traded, data, stdev, j + 1) ==
      WithStats(Stats(traded, data, stdev, j), traded[j], data[Col(traded[j], Close)], stdev)
    ensures StatCols(traded, j + 1) ==
      StatCols(traded, j) + [Col(traded[j], Ret), Col(traded[j], RetVol), Col(traded[j], Active)]
  {
  }

  /** One turn of the loop: the three statistics of `inst`, from its close. */
  method AddInstrumentStats(inst: string, table: Frame, stdev: seq<real> -> real)
    requires table.Valid() && Col(inst, Close) in table.data
    requires Col(inst, Ret) !in table.data && Col(inst, RetVol) !in table.data && Col(inst, Active) !in table.data
    modifies table
    ensures table.Valid() && table.index == old(table.index)
    ensures table.columns == old(table.columns) + [Col(inst, Ret), Col(inst, RetVol), Col(inst, Active)]
    ensures table.data == WithStats(old(table.data), inst, old(table.data)[Col(inst, Close)], stdev)
  {
    ghost var cols0 := table.columns;
    var close := table.data[Col(inst, Close)];
    var ret := PctRet(close);
    table.SetColumn(Col(inst, Ret), ret);
    table.SetColumn(Col(inst, RetVol), RollingStd(ret, stdev));
    table.SetColumn(Col(inst, Active), ActiveFlags(close));
    AppendThree(cols0, Col(inst, Ret), Col(inst, RetVol), Col(inst, Active));
  }

  lemma AppendThree<T>(s: seq<T>, a: T, b: T, c: T)
    ensures s + [a] + [b] + [c] == s + [a, b, c]
  {
  }

  /** `for inst in traded`: appends each instrument's percent return, return volatility
      and activity flag, computed from its close. */
  method AddStatistics(traded: seq<string>, table: Frame, stdev: seq<real> -> real)
    requires table.Valid() && Distinct(traded)
    requires forall c: Col :: c in table.data ==> c.field !in StatFields
    requires forall i :: 0 <= i < |traded| ==> Col(traded[i], Close) in table.data
    modifies table
    ensures table.Valid() && table.index == old(table.index)
    ensures table.columns == old(table.columns) + StatCols(traded, |traded|)
    ensures table.data == Stats(traded, old(table.data), stdev, |traded|)
  {
    ghost var start := table.data;
    ghost var columns := table.columns;
    var j := 0;
    while j < |traded|
      invariant j <= |traded| && table.index == old(table.index)
      invariant table.Valid()
      invariant table.columns == columns + StatCols(traded, j)
      invariant table.data == Stats(traded, start, stdev, j)
    {
      var inst := traded[j];
      StatsStep(traded, start, stdev, j);
      ghost var tail := [Col(inst, Ret), Col(inst, RetVol), Col(inst, Active)];
      AddInstrumentStats(inst, table, stdev);
      StatsNext(traded, start, stdev, j);
      AppendAssociates(columns, StatCols(traded, j), tail);
      j := j + 1;
    }
  }

  /** `extend_dataframe(traded, df)`: replaces `df`'s index by the formatted dates, then
      builds the new table from the traded instruments' price columns. A label that does
      not format, or a price column that is missing, ends it with that error; the index
      is replaced before the columns are selected, so only the first leaves `df`
      untouched. `stdev` is the sample standard deviation. */
  method ExtendDataframe(traded: seq<string>, df: Frame, stdev: seq<real> -> real) returns (r: Extension)
    requires df.Valid() && Distinct(traded)
    modifies df
    ensures df.Valid() && df.columns == old(df.columns) && df.data == old(df.data)
    ensures FormatIndex(old(df.index)).Err? ==>
      df.index == old(df.index) && r == Failed(BadLabel(FormatIndex(old(df.index)).error))
    ensures FormatIndex(old(df.index)).Ok? ==> df.index == FormatIndex(old(df.index)).value
    ensures FormatIndex(old(df.index)).Ok? && |Absent(SelectedColumns(traded), old(df.data))| > 0 ==>
      r == Failed(MissingColumns(Absent(SelectedColumns(traded), old(df.data))))
    ensures FormatIndex(old(df.index)).Ok? && |Absent(SelectedColumns(traded), old(df.data))| == 0 ==>
      r.Extended? && fresh(r.table) && r.table.Valid() && r.table.index == df.index &&
      r.table.columns == SelectedColumns(traded) + StatCols(traded, |traded|) &&
      r.table.data == ExtendedColumns(traded, old(df.data), stdev)
  {
    var formatted := FormatIndex(df.index);
    if formatted.Err? {
      return Failed(BadLabel(formatted.error));
    }
    df.index := formatted.value;

    var selected := SelectedColumns(traded);
    var missing := Absent(selected, df.data);
    if |missing| > 0 {
      return Failed(MissingColumns(missing));
    }
    var table := SelectAndExtend(traded, df, stdev);
    r := Extended(table);
  }

  /** `extend_dataframe` once the columns are known to exist: a copy of `df` cut down to
      the selected columns, forward-filled, given its statistics and back-filled. */
  method SelectAndExtend(traded: seq<string>, df: Frame, stdev: seq<real> -> real) returns (table: Frame)
    requires df.Valid() && Distinct(traded)
    requires forall c :: c in SelectedColumns(traded) ==> c in df.data
    ensures fresh(table) && table.Valid() && table.index == df.index
    ensures table.columns == SelectedColumns(traded) + StatCols(traded, |traded|)
    ensures table.data == ExtendedColumns(traded, df.data, stdev)
  {
    var selected := SelectedColumns(traded);
    var copy := df.Copy();
    SelectedDistinct(traded);
    table := Select(copy, selected);
    table.FillForward();
    ghost var filled := FFillAll(Restrict(df.data, selected));
    assert table.data == filled && table.index == df.index && table.columns == selected;
    SelectedPrices(traded, filled);
    AddStatistics(traded, table, stdev);
    assert table.data == Stats(traded, filled, stdev, |traded|);
    table.FillBackward();
  }

  /** `df[cols]` with every column present: a new table holding those columns, in that order. */
  method Select(df: Frame, cols: seq<Col>) returns (table: Frame)
    requires df.Valid() && Distinct(cols) && forall c :: c in cols ==> c in df.data
    ensures fresh(table) && table.Valid() && table.index == df.index
    ensures table.columns == cols && table.data == Restrict(df.data, cols)
  {
    var data := Restrict(df.data, cols);
    assert forall c :: c in data ==> c in cols;
    table := new Frame(df.index, cols, data);
  }
}
