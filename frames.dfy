/** A wide, date-indexed table in the manner of a pandas DataFrame.

    The column names `"{inst} {field}"` become structured keys `Col(inst, field)`; a
    column is a sequence of cells indexed by row position. The table also keeps its
    column order, since the source selects and appends columns in a definite order. */
module Frames {
  import opened Numerics
  import opened Dates

  /** The field part of a column name; `Ema(fast, slow)` is `"ema(fast, slow)"`. */
  datatype Field = Open | High | Low | Close | Volume | Ret | RetVol | Active | Adx | Ema(fast: nat, slow: nat)

  datatype Col = Col(inst: string, field: Field)

  /** An index label: the raw value of a downloaded table (seen through `str`), or a date. */
  datatype Label = Raw(text: string) | Day(date: Date)

  type Columns = map<Col, seq<Float>>

  /** `table.loc[p, c]` for a present column; a row past the column's end reads as NaN. */
  function Cell(data: Columns, c: Col, p: nat): Float
  {
    if c in data && p < |data[c]| then data[c][p] else NaN
  }

  /** The value `ffill` leaves at row `i`: the nearest non-NaN value at or above it. */
  function LastObs(s: seq<Float>, i: nat): Float
    requires i < |s|
  {
    if s[i].Fin? then s[i] else if i == 0 then NaN else LastObs(s, i - 1)
  }

  /** The value `bfill` leaves at row `i`: the nearest non-NaN value at or below it. */
  function NextObs(s: seq<Float>, i: nat): Float
    requires i < |s|
    decreases |s| - i
  {
    if s[i].Fin? then s[i] else if i == |s| - 1 then NaN else NextObs(s, i + 1)
  }

  function FFilled(s: seq<Float>): (r: seq<Float>)
    ensures |r| == |s|
  {
    seq(|s|, i requires 0 <= i < |s| => LastObs(s, i))
  }

  function BFilled(s: seq<Float>): (r: seq<Float>)
    ensures |r| == |s|
  {
    seq(|s|, i requires 0 <= i < |s| => NextObs(s, i))
  }

  function FFillAll(data: Columns): (r: Columns)
    ensures r.Keys == data.Keys
  {
    map c | c in data :: FFilled(data[c])
  }

  function BFillAll(data: Columns): (r: Columns)
    ensures r.Keys == data.Keys
  {
    map c | c in data :: BFilled(data[c])
  }

  /** After `ffill`, a cell is NaN exactly when no value lies at or above it; otherwise it
      holds the last value at or above it, with only NaN cells in between. */
  lemma {:induction false} LastObsIsLastValue(s: seq<Float>, i: nat)
    requires i < |s|
    ensures LastObs(s, i).NaN? <==> forall k :: 0 <= k <= i ==> s[k].NaN?
    ensures LastObs(s, i).Fin? ==>
      exists j :: 0 <= j <= i && s[j] == LastObs(s, i) && forall k :: j < k <= i ==> s[k].NaN?
  {
    if s[i].NaN? && i > 0 {
      LastObsIsLastValue(s, i - 1);
      if LastObs(s, i).Fin? {
        var j :| 0 <= j <= i - 1 && s[j] == LastObs(s, i - 1) && forall k :: j < k <= i - 1 ==> s[k].NaN?;
        assert forall k :: j < k <= i ==> s[k].NaN?;
      }
    }
  }

  /** After `bfill`, a cell is NaN exactly when no value lies at or below it; otherwise it
      holds the next value at or below it, with only NaN cells in between. */
  lemma {:induction false} NextObsIsNextValue(s: seq<Float>, i: nat)
    requires i < |s|
    ensures NextObs(s, i).NaN? <==> forall k :: i <= k < |s| ==> s[k].NaN?
    ensures NextObs(s, i).Fin? ==>
      exists j :: i <= j < |s| && s[j] == NextObs(s, i) && forall k :: i <= k < j ==> s[k].NaN?
    decreases |s| - i
  {
    if s[i].NaN? && i < |s| - 1 {
      NextObsIsNextValue(s, i + 1);
      if NextObs(s, i).Fin? {
        var j :| i + 1 <= j < |s| && s[j] == NextObs(s, i + 1) && forall k :: i + 1 <= k < j ==> s[k].NaN?;
        assert forall k :: i <= k < j ==> s[k].NaN?;
      }
    }
  }

  /** Forward-fill then back-fill leaves no gap in a column holding at least one value. */
  lemma FillsCloseAllGaps(s: seq<Float>, j: nat)
    requires j < |s| && s[j].Fin?
    ensures forall i :: 0 <= i < |s| ==> BFilled(FFilled(s))[i].Fin?
  {
    var f := FFilled(s);
    assert f[j].Fin?;
    forall i | 0 <= i < |s| ensures BFilled(f)[i].Fin? {
      if i <= j {
        NextObsIsNextValue(f, i);
      } else {
        LastObsIsLastValue(s, i);
        assert f[i] == LastObs(s, i);
        assert NextObs(f, i) == f[i];
      }
    }
  }

  /** Back-filling a column without gaps changes nothing. */
  lemma BFilledNoGaps(s: seq<Float>)
    requires forall i :: 0 <= i < |s| ==> s[i].Fin?
    ensures BFilled(s) == s
  {
  }

  /** Forward-filling a gap repeats the value above it. */
  lemma FFilledRepeats(s: seq<Float>, t: nat)
    requires 0 < t < |s| && s[t].NaN?
    ensures FFilled(s)[t] == FFilled(s)[t - 1]
  {
  }

  /** No element is listed twice. */
  predicate Distinct<T(==)>(s: seq<T>)
  {
    forall a, b :: 0 <= a < b < |s| ==> s[a] != s[b]
  }

  lemma DistinctJoin<T>(s: seq<T>, t: seq<T>)
    requires Distinct(s) && Distinct(t) && forall x :: x in s ==> x !in t
    ensures Distinct(s + t)
  {
    forall a, b | 0 <= a < b < |s + t| ensures (s + t)[a] != (s + t)[b] {
      if a < |s| && b >= |s| {
        assert (s + t)[a] in s && (s + t)[b] in t;
      }
    }
  }

  /** `(a + b) + c == a + (b + c)`. */
  lemma AppendAssociates<T>(a: seq<T>, b: seq<T>, c: seq<T>)
    ensures (a + b) + c == a + (b + c)
  {
  }

  /** Replacing element `i` and keeping the first `i + 1` is keeping the first `i`, then the new element. */
  lemma UpdateOverwrites<T>(s: seq<T>, i: nat, x: T, y: T)
    requires i < |s|
    ensures s[i := x][i := y] == s[i := y]
  {
    var a, b := s[i := x][i := y], s[i := y];
    assert forall k :: 0 <= k < |s| ==> a[k] == b[k];
  }

  lemma AppendKeepsPrefix<T>(s: seq<T>, x: T, j: nat)
    requires j <= |s|
    ensures (s + [x])[..j] == s[..j]
  {
  }

  lemma UpdateSame<T>(s: seq<T>, i: nat)
    requires i < |s|
    ensures s[i := s[i]] == s
  {
    assert forall k :: 0 <= k < |s| ==> s[i := s[i]][k] == s[k];
  }

  lemma UpdateTakes<T>(s: seq<T>, i: nat, x: T)
    requires i < |s|
    ensures s[i := x][..i + 1] == s[..i] + [x]
  {
    assert s[i := x][..i + 1] == s[..i] + [x];
  }

  /** The columns `cols` set, in order, to `values`, as repeated `df[c] = v` does. */
  function WithColumns(data: Columns, cols: seq<Col>, values: seq<seq<Float>>): Columns
    requires |values| == |cols|
    decreases |cols|
  {
    if |cols| == 0 then data
    else WithColumns(data, cols[..|cols| - 1], values[..|cols| - 1])[cols[|cols| - 1] := values[|cols| - 1]]
  }

  /** Setting columns adds exactly their names. */
  lemma {:induction false} WithColumnsDomain(data: Columns, cols: seq<Col>, values: seq<seq<Float>>)
    requires |values| == |cols|
    ensures forall c :: c in WithColumns(data, cols, values) <==> c in data || c in cols
    decreases |cols|
  {
    if |cols| > 0 {
      var n := |cols| - 1;
      WithColumnsDomain(data, cols[..n], values[..n]);
      assert cols == cols[..n] + [cols[n]];
    }
  }

  /** With distinct names, each set column holds its own values, and every other column
      is left as it was. */
  lemma {:induction false} WithColumnsValues(data: Columns, cols: seq<Col>, values: seq<seq<Float>>)
    requires |values| == |cols| && Distinct(cols)
    ensures forall j :: 0 <= j < |cols| ==>
      cols[j] in WithColumns(data, cols, values) && WithColumns(data, cols, values)[cols[j]] == values[j]
    ensures forall c :: c in data && c !in cols ==>
      c in WithColumns(data, cols, values) && WithColumns(data, cols, values)[c] == data[c]
    decreases |cols|
  {
    WithColumnsDomain(data, cols, values);
    if |cols| > 0 {
      var n := |cols| - 1;
      WithColumnsValues(data, cols[..n], values[..n]);
      forall j | 0 <= j < n ensures cols[j] != cols[n] && cols[..n][j] == cols[j] && values[..n][j] == values[j] {
      }
    }
  }

  /** One more column set: the first `j + 1` of `cols` are the first `j`, then `cols[j]`. */
  lemma WithColumnsNext(data: Columns, cols: seq<Col>, values: seq<seq<Float>>, j: nat)
    requires |values| == |cols| && j < |cols|
    ensures WithColumns(data, cols[..j + 1], values[..j + 1]) == WithColumns(data, cols[..j], values[..j])[cols[j] := values[j]]
  {
    assert cols[..j + 1][..j] == cols[..j] && values[..j + 1][..j] == values[..j];
  }

  /** The column order after setting `cols` one by one: a name already present keeps its
      place, a new one is appended. */
  function AddedColumns(columns: seq<Col>, cols: seq<Col>): seq<Col>
    decreases |cols|
  {
    if |cols| == 0 then columns
    else
      var prior := AddedColumns(columns, cols[..|cols| - 1]);
      if cols[|cols| - 1] in prior then prior else prior + [cols[|cols| - 1]]
  }

  /** One more name set: it is appended only if it is not there yet. */
  lemma AddedColumnsNext(columns: seq<Col>, cols: seq<Col>, j: nat)
    requires j < |cols|
    ensures var prior := AddedColumns(columns, cols[..j]);
      AddedColumns(columns, cols[..j + 1]) == if cols[j] in prior then prior else prior + [cols[j]]
  {
    assert cols[..j + 1][..j] == cols[..j];
  }

  /** Setting only new names appends them all, in order. */
  lemma {:induction false} AddedColumnsFresh(columns: seq<Col>, cols: seq<Col>)
    requires Distinct(cols) && forall c :: c in cols ==> c !in columns
    ensures AddedColumns(columns, cols) == columns + cols
    decreases |cols|
  {
    if |cols| > 0 {
      var n := |cols| - 1;
      AddedColumnsFresh(columns, cols[..n]);
      assert cols[n] !in cols[..n];
      assert (columns + cols[..n]) + [cols[n]] == columns + cols;
    }
  }

  /** Setting `a` then `b` is setting `a + b`. */
  lemma {:induction false} AddedColumnsAppend(columns: seq<Col>, a: seq<Col>, b: seq<Col>)
    ensures AddedColumns(columns, a + b) == AddedColumns(AddedColumns(columns, a), b)
    decreases |b|
  {
    if |b| == 0 {
      assert a + b == a;
    } else {
      var n := |b| - 1;
      AddedColumnsAppend(columns, a, b[..n]);
      assert (a + b)[..|a + b| - 1] == a + b[..n];
      assert (a + b)[|a + b| - 1] == b[n];
    }
  }

  class Frame {
    var index: seq<Label>
    var columns: seq<Col>
    var data: Columns

    /** The column order lists every column once. */
    ghost predicate Valid()
      reads this
    {
      (forall i :: 0 <= i < |columns| ==> columns[i] in data) &&
      (forall c :: c in data ==> c in columns) &&
      (forall i, j :: 0 <= i < j < |columns| ==> columns[i] != columns[j])
    }

    constructor (index: seq<Label>, columns: seq<Col>, data: Columns)
      requires forall i :: 0 <= i < |columns| ==> columns[i] in data
      requires forall c :: c in data ==> c in columns
      requires forall i, j :: 0 <= i < j < |columns| ==> columns[i] != columns[j]
      ensures Valid()
      ensures this.index == index && this.columns == columns && this.data == data
    {
      this.index := index;
      this.columns := columns;
      this.data := data;
    }

    /** `df.copy()`: a new table with the same index and columns. */
    method Copy() returns (f: Frame)
      requires Valid()
      ensures fresh(f) && f.Valid()
      ensures f.index == index && f.columns == columns && f.data == data
    {
      f := new Frame(index, columns, data);
    }

    /** `df[name] = values`: replaces a present column in place, else appends it. */
    method SetColumn(c: Col, values: seq<Float>)
      requires Valid()
      modifies this
      ensures Valid()
      ensures index == old(index) && data == old(data)[c := values]
      ensures columns == if c in old(data) then old(columns) else old(columns) + [c]
    {
      if c !in data {
        columns := columns + [c];
      }
      data := data[c := values];
    }

    /** `pd.concat([df, extra], axis=1)` with columns `cols` that `df` lacks: a new table
        with them appended. */
    method Concat(cols: seq<Col>, values: seq<seq<Float>>) returns (f: Frame)
      requires Valid() && |values| == |cols| && Distinct(cols)
      requires forall c :: c in cols ==> c !in data
      ensures fresh(f) && f.Valid()
      ensures f.index == index && f.columns == columns + cols && f.data == WithColumns(data, cols, values)
    {
      DistinctJoin(columns, cols);
      WithColumnsDomain(data, cols, values);
      f := new Frame(index, columns + cols, WithColumns(data, cols, values));
    }

    /** `df.ffill(inplace=True)`. */
    method FillForward()
      requires Valid()
      modifies this
      ensures Valid()
      ensures index == old(index) && columns == old(columns) && data == FFillAll(old(data))
    {
      data := FFillAll(data);
    }

    /** `df.bfill(inplace=True)`. */
    method FillBackward()
      requires Valid()
      modifies this
      ensures Valid()
      ensures index == old(index) && columns == old(columns) && data == BFillAll(old(data))
    {
      data := BFillAll(data);
    }
  }
}
