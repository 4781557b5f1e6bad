/** The second copy of the data preparation, whose `extend_dataframe` takes no
    currency codes; its `format_date` and its steps are those of `DataUtils`. */
module Data {
  import opened Frames
  import opened DataUtils

  /** `extend_dataframe(traded, df)`: the same preparation as `DataUtils.ExtendDataframe`. */
  method ExtendDataframe(traded: seq<string>, df: Frame, stdev: seq<real> -> real) returns (r: Extension)
    requires df.Valid() && Distinct(traded)
    modifies df
    ensures df.Valid() && df.columns == old(df.columns) && df.data == old(df.data)
    ensures FormatIndex(old(df.index)).Err? ==>
      df.index == old(df.index) && r == Failed(BadLabel(FormatIndex(old(df.index)).error))
    ensures FormatIndex(old(df.index)).Ok? ==> df.index == FormatIndex(old(df.index)).value
    ensures FormatIndex(old(df.index)).Ok? && |Absent(SelectedColumns(traded), old(df.data))| > 0 ==>
      r == Failed(MissingColumns(Absent(SelectedColumns(traded), old(df.data))))
    ensures FormatIndex(old(df.index)).Ok? && |Absent(SelectedColumns(traded), old(df.data))| == 0 ==>
      r.Extended? && fresh(r.table) && r.table.Valid() && r.table.index == df.index &&
      r.table.columns == SelectedColumns(traded) + StatCols(traded, |traded|) &&
      r.table.data == ExtendedColumns(traded, old(df.data), stdev)
  {
    r := DataUtils.ExtendDataframe(traded, df, stdev);
  }
}
