/** The comparison page's pipeline (app/pages/comparison.py), with every widget answer and
    every session value as an input: the rows kept by the day-type/time-of-day filter and the
    city filter, the relabelling of codes, the year-over-year ratio table, the zoom level, and
    how `step_2` ends for each dataset. */
module Comparison {
  import opened Options
  import opened PyDict
  import opened Strings
  import opened Seqs
  import opened Frames
  import opened Merge
  import opened Polygons
  import Const
  import Fetch
  import Regions

  // ---------------------------------------------------------------------------------------
  // _filter

  /** `cell == sel`: a cell equals the selected code; no cell equals a cleared selection. */
  predicate Matches(sel: Option<int>, v: Value) {
    sel.Some? && v == Num(sel.value as real)
  }

  function Is(sel: Option<int>): Value -> bool {
    v => Matches(sel, v)
  }

  predicate HasFlags(f: Table) {
    "dayflag" in Names(f.columns) && "timezone" in Names(f.columns)
  }

  /** `_filter(df)`: the rows of the selected day type, then of those the rows of the selected
      time of day; None when a column is missing (KeyError). */
  function Filter(f: Table, day: Option<int>, tz: Option<int>): (r: Option<Table>)
    ensures r.Some? <==> HasFlags(f)
    ensures r.Some? ==> Names(r.value.columns) == Names(f.columns) && r.value.height <= f.height
  {
    if !HasFlags(f) then None
    else Some(Where(Where(f, "dayflag", Is(day)), "timezone", Is(tz)))
  }

  /** The input rows `_filter` keeps, in order. */
  function FilterIndex(f: Table, day: Option<int>, tz: Option<int>): seq<nat>
    requires HasFlags(f)
  {
    var m1 := Matching(Cells(f, "dayflag"), Is(day));
    var g := SelectRows(f, m1);
    Gather(m1, Matching(Cells(g, "timezone"), Is(tz)))
  }

  /** `_filter` keeps exactly the rows with both the selected day type and the selected time
      of day, in their original order. */
  lemma FilterKeepsExactly(f: Table, day: Option<int>, tz: Option<int>)
    requires HasFlags(f)
    ensures var idx := FilterIndex(f, day, tz);
      && Increasing(idx)
      && (forall k :: 0 <= k < |idx| ==> idx[k] < f.height)
      && Filter(f, day, tz) == Some(SelectRows(f, idx))
      && (forall k :: 0 <= k < |idx| ==>
            Matches(day, Cells(f, "dayflag")[idx[k]]) && Matches(tz, Cells(f, "timezone")[idx[k]]))
      && (forall i :: 0 <= i < f.height && Matches(day, Cells(f, "dayflag")[i]) && Matches(tz, Cells(f, "timezone")[i])
            ==> i in idx)
  {
    FilterSelects(f, day, tz);
    FilterKeptMatch(f, day, tz);
    FilterComplete(f, day, tz);
  }

  /** `_filter` selects the rows of `FilterIndex`, in increasing order. */
  lemma FilterSelects(f: Table, day: Option<int>, tz: Option<int>)
    requires HasFlags(f)
    ensures var idx := FilterIndex(f, day, tz);
      && Increasing(idx)
      && (forall k :: 0 <= k < |idx| ==> idx[k] < f.height)
      && Filter(f, day, tz) == Some(SelectRows(f, idx))
  {
    var m1 := Matching(Cells(f, "dayflag"), Is(day));
    var g := SelectRows(f, m1);
    CellsSelect(f, m1, "timezone");
    var m2 := Matching(Cells(g, "timezone"), Is(tz));
    GatherIncreasing(m1, m2);
    SelectSelect(f, m1, m2);
    assert Filter(f, day, tz) == Some(SelectRows(g, m2));
  }

  /** Every row `_filter` keeps has both selected codes. */
  lemma FilterKeptMatch(f: Table, day: Option<int>, tz: Option<int>)
    requires HasFlags(f)
    ensures var idx := FilterIndex(f, day, tz);
      forall k :: 0 <= k < |idx| ==>
        (idx[k] < f.height && Matches(day, Cells(f, "dayflag")[idx[k]]) && Matches(tz, Cells(f, "timezone")[idx[k]]))
  {
    var m1 := Matching(Cells(f, "dayflag"), Is(day));
    var g := SelectRows(f, m1);
    CellsSelect(f, m1, "timezone");
    var m2 := Matching(Cells(g, "timezone"), Is(tz));
    var idx := Gather(m1, m2);
    forall k | 0 <= k < |idx|
      ensures idx[k] < f.height
      ensures Matches(day, Cells(f, "dayflag")[idx[k]]) && Matches(tz, Cells(f, "timezone")[idx[k]])
    {
      assert idx[k] == m1[m2[k]];
      assert Cells(g, "timezone")[m2[k]] == Cells(f, "timezone")[m1[m2[k]]];
    }
  }

  /** Every row with both selected codes is among the rows `_filter` keeps. */
  lemma FilterComplete(f: Table, day: Option<int>, tz: Option<int>)
    requires HasFlags(f)
    ensures forall i :: (0 <= i < f.height && Matches(day, Cells(f, "dayflag")[i]) &&
                         Matches(tz, Cells(f, "timezone")[i])) ==> i in FilterIndex(f, day, tz)
  {
    var m1 := Matching(Cells(f, "dayflag"), Is(day));
    var g := SelectRows(f, m1);
    CellsSelect(f, m1, "timezone");
    var m2 := Matching(Cells(g, "timezone"), Is(tz));
    var idx := Gather(m1, m2);
    forall i | 0 <= i < f.height && Matches(day, Cells(f, "dayflag")[i]) && Matches(tz, Cells(f, "timezone")[i])
      ensures i in idx
    {
      assert i in m1;
      var p :| 0 <= p < |m1| && m1[p] == i;
      assert Cells(g, "timezone")[p] == Cells(f, "timezone")[i];
      assert p in m2;
      var q :| 0 <= q < |m2| && m2[q] == p;
      assert idx[q] == i;
    }
  }

  /** Filtering an already filtered table changes nothing. */
  lemma FilterIdempotent(f: Table, day: Option<int>, tz: Option<int>)
    requires HasFlags(f)
    ensures HasFlags(Filter(f, day, tz).value)
    ensures Filter(Filter(f, day, tz).value, day, tz) == Filter(f, day, tz)
  {
    var r := Filter(f, day, tz).value;
    FilterKeepsExactly(f, day, tz);
    var idx := FilterIndex(f, day, tz);
    CellsSelect(f, idx, "dayflag");
    CellsSelect(f, idx, "timezone");
    WhereAll(r, "dayflag", Is(day));
    WhereAll(r, "timezone", Is(tz));
  }

  /** A cleared day-type selection leaves no row. */
  lemma ClearedFlagKeepsNothing(f: Table, tz: Option<int>)
    requires HasFlags(f)
    ensures Filter(f, None, tz).value.height == 0
  {
    MatchingNone(Cells(f, "dayflag"), Is(None));
  }

  // ---------------------------------------------------------------------------------------
  // The city filter

  /** `cell in codes` as `Series.isin` decides it: a whole number equal to one of the codes. */
  predicate IsCode(v: Value, codes: seq<int>) {
    v.Num? && v.n == v.n.Floor as real && v.n.Floor in codes
  }

  function InCodes(codes: seq<int>): Value -> bool {
    v => IsCode(v, codes)
  }

  /** `df[df["citycode"].isin(codes)]` when some city is selected, the table itself otherwise;
      None when a filter is due and there is no `citycode` column (KeyError). */
  function CityFilter(f: Table, codes: seq<int>): (r: Option<Table>)
    ensures |codes| == 0 ==> r == Some(f)
    ensures |codes| > 0 ==> (r.Some? <==> "citycode" in Names(f.columns))
    ensures r.Some? ==> Names(r.value.columns) == Names(f.columns) && r.value.height <= f.height
  {
    if |codes| == 0 then Some(f)
    else if "citycode" !in Names(f.columns) then None
    else Some(Where(f, "citycode", InCodes(codes)))
  }

  /** With a selection, the city filter keeps exactly the rows whose `citycode` was selected,
      in their original order. */
  lemma CityFilterKeepsExactly(f: Table, codes: seq<int>)
    requires |codes| > 0 && "citycode" in Names(f.columns)
    ensures var r := CityFilter(f, codes).value; var idx := Matching(Cells(f, "citycode"), InCodes(codes));
      && Increasing(idx)
      && r == SelectRows(f, idx)
      && "citycode" in Names(r.columns)
      && (forall k :: 0 <= k < r.height ==> IsCode(Cells(r, "citycode")[k], codes))
      && (forall i :: 0 <= i < f.height && IsCode(Cells(f, "citycode")[i], codes) ==> i in idx)
  {
    WhereRows(f, "citycode", InCodes(codes));
  }

  // ---------------------------------------------------------------------------------------
  // The zoom level

  const MinZoom := 9
  const MaxZoom := 14

  /** `zoom_start`: 9 with no city selected, 11 for one city, 10 for several; always within
      the bounds the map builders set. */
  function Zoom(selected: nat): (z: int)
    ensures selected == 0 ==> z == 9
    ensures selected == 1 ==> z == 11
    ensures selected > 1 ==> z == 10
    ensures MinZoom <= z <= MaxZoom
  {
    if selected == 0 then 9 else if selected > 1 then 10 else 11
  }

  // ---------------------------------------------------------------------------------------
  // The ratio table

  /** `a / b - 1` on two cells with numpy's float rules: a zero baseline gives an infinity when
      the count is not zero and NaN when it is; NaN spreads; text raises TypeError (None). */
  function Ratio(a: Value, b: Value): (r: Option<Value>)
    ensures r.None? <==> a.Text? || b.Text?
    ensures !a.Text? && !b.Text? && (a.Missing? || b.Missing?) ==> r == Some(Missing)
    ensures a.Num? && b.Num? && b.n != 0.0 ==> r == Some(Num(a.n / b.n - 1.0))
    ensures a.Num? && b.Num? && b.n == 0.0 && a.n != 0.0 ==> r == Some(Infinite(a.n > 0.0))
    ensures a.Num? && b.Num? && b.n == 0.0 && a.n == 0.0 ==> r == Some(Missing)
  {
    if a.Text? || b.Text? then None
    else if a.Missing? || b.Missing? then Some(Missing)
    else match (a, b)
      case (Num(x), Num(y)) =>
        if y != 0.0 then Some(Num(x / y - 1.0))
        else if x == 0.0 then Some(Missing)
        else Some(Infinite(x > 0.0))
      case (Num(_), Infinite(_)) => Some(Num(-1.0))
      case (Infinite(p), Num(y)) => Some(Infinite(if y < 0.0 then !p else p))
      case (Infinite(_), Infinite(_)) => Some(Missing)
  }

  /** The ratio of two columns, cell by cell; None when a cell is text. */
  function RatioColumn(xs: seq<Value>, ys: seq<Value>): (r: Option<seq<Value>>)
    requires |xs| == |ys|
    ensures r.Some? <==> forall i :: 0 <= i < |xs| ==> !xs[i].Text? && !ys[i].Text?
    ensures r.Some? ==> |r.value| == |xs| && forall i :: 0 <= i < |xs| ==> Some(r.value[i]) == Ratio(xs[i], ys[i])
  {
    if |xs| == 0 then Some([])
    else
      var head := Ratio(xs[0], ys[0]);
      var rest := RatioColumn(xs[1..], ys[1..]);
      assert forall i :: 1 <= i < |xs| ==> xs[i] == xs[1..][i - 1] && ys[i] == ys[1..][i - 1];
      if head.None? || rest.None? then None else Some([head.value] + rest.value)
  }

  const Key := "mesh1kmid"
  const Count := "population"
  const Count2021 := "population_2021"
  const Count2020 := "population_2020"

  predicate HasCounts(m: Table) {
    Count2021 in Names(m.columns) && Count2020 in Names(m.columns) && Key in Names(m.columns)
  }

  /** `df_diff["diff"] = df_diff["population_2021"] / df_diff["population_2020"] - 1` and then
      `df_diff[["mesh1kmid", "diff"]]`; None when a column is missing or a count is text. */
  function DiffTable(m: Table): (d: Option<Table>)
    ensures d.Some? <==> HasCounts(m) && RatioColumn(Cells(m, Count2021), Cells(m, Count2020)).Some?
    ensures d.Some? ==>
      && Names(d.value.columns) == [Key, "diff"]
      && d.value.height == m.height
      && Cells(d.value, Key) == Cells(m, Key)
      && forall i :: 0 <= i < m.height ==>
           Some(Cells(d.value, "diff")[i]) == Ratio(Cells(m, Count2021)[i], Cells(m, Count2020)[i])
  {
    if !HasCounts(m) then None
    else
      var q := RatioColumn(Cells(m, Count2021), Cells(m, Count2020));
      if q.None? then None
      else
        var g := SetColumn(m, "diff", q.value);
        var d := Project(g, [Key, "diff"]);
        assert IndexOf(d.columns, "diff") == 1 by { assert d.columns[0].name == Key; }
        Some(d)
  }

  /** `df.dropna(subset=[name])`: the rows whose `name` cell is not NaN; None when the column
      is missing (KeyError). */
  function DropNa(f: Table, name: string): (r: Option<Table>)
    ensures r.Some? <==> name in Names(f.columns)
    ensures r.Some? ==> Names(r.value.columns) == Names(f.columns) && r.value.height <= f.height
    ensures r.Some? ==> forall k :: 0 <= k < r.value.height ==> !Cells(r.value, name)[k].Missing?
  {
    if name !in Names(f.columns) then None
    else
      WhereRows(f, name, Present);
      Some(Where(f, name, Present))
  }

  function Present(v: Value): bool {
    !v.Missing?
  }

  /** `dropna` removes exactly the NaN rows: every row with a number or an infinity stays, in
      order. A zero baseline with a non-zero count is an infinity, so it is kept. */
  lemma DropNaKeeps(f: Table, name: string, i: nat)
    requires name in Names(f.columns) && i < f.height
    ensures var idx := Matching(Cells(f, name), Present);
      && DropNa(f, name) == Some(SelectRows(f, idx))
      && Increasing(idx)
      && (i in idx <==> !Cells(f, name)[i].Missing?)
  {
  }

  /** A 2021 mesh without a 2020 row gets no 2020 count in the joined table (a missing cell of
      a right column), so its ratio is NaN, as long as the 2021 table has no column of that
      name itself. */
  lemma UnmatchedRatioMissing(fa: Table, fb: Table, k: nat)
    requires Key in Names(fa.columns) && Key in Names(fb.columns)
    requires Count2020 !in Names(fa.columns)
    requires DiffTable(Merged(fa, fb, Key, "_2021", "_2020", false)).Some?
    requires k < |JoinPairs(Cells(fa, Key), Cells(fb, Key))|
    requires JoinPairs(Cells(fa, Key), Cells(fb, Key))[k].1.None?
    ensures Cells(DiffTable(Merged(fa, fb, Key, "_2021", "_2020", false)).value, "diff")[k] == Missing
  {
    var j := LeftJoin(fa, fb, Key, "_2021", "_2020");
    var m := Finish(j, "_2020", false);
    assert m == Merged(fa, fb, Key, "_2021", "_2020", false);
    JoinedCountMissing(fa, fb, k);
    FinishKeeps(j, "_2020", false, Count2020);
    assert Cells(m, Count2020) == Cells(j, Count2020);
    DiffCellMissing(m, k);
  }

  /** A NaN baseline gives a NaN ratio. */
  lemma DiffCellMissing(m: Table, k: nat)
    requires DiffTable(m).Some? && k < m.height
    requires Cells(m, Count2020)[k] == Missing
    ensures Cells(DiffTable(m).value, "diff")[k] == Missing
  {
    var xs, ys := Cells(m, Count2021), Cells(m, Count2020);
    assert !xs[k].Text?;
  }

  /** In the join itself, the 2020 count column, when there is one, is a right column, missing
      at every unmatched row. */
  lemma JoinedCountMissing(fa: Table, fb: Table, k: nat)
    requires Key in Names(fa.columns) && Key in Names(fb.columns)
    requires Count2020 !in Names(fa.columns)
    requires k < |JoinPairs(Cells(fa, Key), Cells(fb, Key))|
    requires JoinPairs(Cells(fa, Key), Cells(fb, Key))[k].1.None?
    ensures var j := LeftJoin(fa, fb, Key, "_2021", "_2020");
      Count2020 in Names(j.columns) ==> Cells(j, Count2020)[k] == Missing
  {
    var ps := JoinPairs(Cells(fa, Key), Cells(fb, Key));
    var j := LeftJoin(fa, fb, Key, "_2021", "_2020");
    var left := LeftColumns(fa.columns, Key, Names(fb.columns), "_2021", ps);
    var right := RightColumns(fb.columns, Key, Names(fa.columns), "_2020", ps);
    assert j.columns == left + right;
    LeftNamesAvoid(fa, fb, ps);
    LookupAppend(left, right, Count2020);
    if Count2020 in Names(right) {
      assert right[IndexOf(right, Count2020)] in right;
    }
  }

  /** No left column of the join is called `population_2020`: a suffixed name ends in 1. */
  lemma LeftNamesAvoid(fa: Table, fb: Table, ps: seq<Pair>)
    requires Count2020 !in Names(fa.columns)
    ensures Count2020 !in Names(LeftColumns(fa.columns, Key, Names(fb.columns), "_2021", ps))
  {
    var left := LeftColumns(fa.columns, Key, Names(fb.columns), "_2021", ps);
    forall i | 0 <= i < |left| ensures left[i].name != Count2020 {
      var n := fa.columns[i].name;
      assert Names(fa.columns)[i] == n;
      assert (n + "_2021")[|n| + 4] == '1';
      assert Count2020[14] == '0';
    }
  }

  /** A 2021 mesh with a 2020 row gets as its ratio that of its own count and the matched
      row's count, as long as neither table already has a column named like a suffixed count. */
  lemma MatchedRatio(fa: Table, fb: Table, k: nat)
    requires Key in Names(fa.columns) && Key in Names(fb.columns)
    requires Count in Names(fa.columns) && Count in Names(fb.columns)
    requires Count2021 !in Names(fa.columns) && Count2020 !in Names(fa.columns)
    requires Count2020 !in Names(fb.columns)
    requires k < |JoinPairs(Cells(fa, Key), Cells(fb, Key))|
    requires JoinPairs(Cells(fa, Key), Cells(fb, Key))[k].1.Some?
    ensures var ps := JoinPairs(Cells(fa, Key), Cells(fb, Key));
      var m := Merged(fa, fb, Key, "_2021", "_2020", false);
      && HasCounts(m)
      && Cells(m, Count2021)[k] == Cells(fa, Count)[ps[k].0]
      && Cells(m, Count2020)[k] == Cells(fb, Count)[ps[k].1.value]
      && (DiffTable(m).Some? ==>
            Some(Cells(DiffTable(m).value, "diff")[k]) ==
            Ratio(Cells(fa, Count)[ps[k].0], Cells(fb, Count)[ps[k].1.value]))
  {
    var j := LeftJoin(fa, fb, Key, "_2021", "_2020");
    var m := Finish(j, "_2020", false);
    assert m == Merged(fa, fb, Key, "_2021", "_2020", false);
    JoinedCount2021(fa, fb, k);
    JoinedCount2020(fa, fb, k);
    FinishKeeps(j, "_2020", false, Count2021);
    FinishKeeps(j, "_2020", false, Count2020);
    FinishKeeps(j, "_2020", false, Key);
    assert Cells(m, Count2021) == Cells(j, Count2021);
    assert Cells(m, Count2020) == Cells(j, Count2020);
  }

  /** `MatchedRatio` applies to a mesh counted 3 in 2021 and 2 in 2020: its preconditions hold,
      and the ratio it gives is 0.5. */
  lemma MatchedRatioExample(fa: Table, fb: Table)
    requires fa == Frame(1, [Column(Key, [Num(1.0)]), Column(Count, [Num(3.0)])])
    requires fb == Frame(1, [Column(Key, [Num(1.0)]), Column(Count, [Num(2.0)])])
    ensures Key in Names(fa.columns) && Key in Names(fb.columns)
    ensures Count in Names(fa.columns) && Count in Names(fb.columns)
    ensures Count2021 !in Names(fa.columns) && Count2020 !in Names(fa.columns) && Count2020 !in Names(fb.columns)
    ensures JoinPairs(Cells(fa, Key), Cells(fb, Key)) == [(0, Some(0))]
    ensures Ratio(Cells(fa, Count)[0], Cells(fb, Count)[0]) == Some(Num(0.5))
  {
    assert Names(fa.columns) == [Key, Count] && Names(fb.columns) == [Key, Count];
    assert Cells(fa, Key) == [Num(1.0)] && Cells(fb, Key) == [Num(1.0)];
    assert Cells(fa, Count) == [Num(3.0)] && Cells(fb, Count) == [Num(2.0)];
    OneRowPairs();
  }

  /** A single left key matching a single right key gives the one pair of their rows. */
  lemma OneRowPairs()
    ensures JoinPairs([Num(1.0)], [Num(1.0)]) == [(0, Some(0))]
  {
    var m := KeyMatches([Num(1.0)], Num(1.0));
    assert 0 in m;
    assert m == [0];
  }

  /** In the join, the 2021 count of a join row is the `population` cell of its left row. */
  lemma JoinedCount2021(fa: Table, fb: Table, k: nat)
    requires Key in Names(fa.columns) && Key in Names(fb.columns)
    requires Count in Names(fa.columns) && Count in Names(fb.columns)
    requires Count2021 !in Names(fa.columns)
    requires k < |JoinPairs(Cells(fa, Key), Cells(fb, Key))|
    ensures var j := LeftJoin(fa, fb, Key, "_2021", "_2020");
      && Count2021 in Names(j.columns) && Key in Names(j.columns)
      && Cells(j, Count2021)[k] == Cells(fa, Count)[JoinPairs(Cells(fa, Key), Cells(fb, Key))[k].0]
  {
    var ps := JoinPairs(Cells(fa, Key), Cells(fb, Key));
    var j := LeftJoin(fa, fb, Key, "_2021", "_2020");
    var left := LeftColumns(fa.columns, Key, Names(fb.columns), "_2021", ps);
    var right := RightColumns(fb.columns, Key, Names(fa.columns), "_2020", ps);
    assert j.columns == left + right;
    LeftCount2021(fa, Names(fb.columns), ps);
    LookupFront(left, right, Count2021);
    LookupFront(left, right, Key);
  }

  /** The left column called `population_2021` holds the `population` cells of the left rows. */
  lemma LeftCount2021(fa: Table, rn: seq<string>, ps: seq<Pair>)
    requires Key in Names(fa.columns) && Count in Names(fa.columns) && Count in rn
    requires Count2021 !in Names(fa.columns)
    requires forall k :: 0 <= k < |ps| ==> ps[k].0 < fa.height
    ensures var left := LeftColumns(fa.columns, Key, rn, "_2021", ps);
      && Key in Names(left) && Count2021 in Names(left)
      && Lookup(left, Count2021) == Some(Gather(Cells(fa, Count), Lefts(ps)))
  {
    var cols := fa.columns;
    var left := LeftColumns(cols, Key, rn, "_2021", ps);
    LeftNames2021(cols, rn, ps);
    LookupCorresponding(cols, left, Count, Count2021);
    LookupCorresponding(cols, left, Key, Key);
    var p := IndexOf(cols, Count);
    assert |cols[p].values| == fa.height;
    assert left[p].values == Gather(cols[p].values, Lefts(ps));
  }

  /** The left columns called `population_2021` are those from `population`; the key keeps its
      name. */
  lemma LeftNames2021(cols: seq<Column>, rn: seq<string>, ps: seq<Pair>)
    requires Count in rn && Count2021 !in Names(cols)
    ensures var left := LeftColumns(cols, Key, rn, "_2021", ps);
      && (forall i :: 0 <= i < |cols| ==> (left[i].name == Count2021 <==> cols[i].name == Count))
      && (forall i :: 0 <= i < |cols| ==> (left[i].name == Key <==> cols[i].name == Key))
  {
    var left := LeftColumns(cols, Key, rn, "_2021", ps);
    forall i | 0 <= i < |cols|
      ensures left[i].name == Count2021 <==> cols[i].name == Count
      ensures left[i].name == Key <==> cols[i].name == Key
    {
      SuffixedCount2021(cols[i].name, Names(cols)[i], rn);
    }
  }

  /** A left column is called `population_2021` exactly when it comes from `population`. */
  lemma SuffixedCount2021(n: string, named: string, rn: seq<string>)
    requires n == named && Count in rn && n != Count2021
    ensures (if n == Key then Key else Suffixed(n, rn, "_2021")) == Count2021 <==> n == Count
    ensures (if n == Key then Key else Suffixed(n, rn, "_2021")) == Key <==> n == Key
  {
    assert Key[0] != Count2021[0];
    if n != Key && n in rn {
      assert (n + "_2021")[|n|] == '_' && '_' !in Key;
      if n + "_2021" == Count2021 {
        assert n == (n + "_2021")[..|n|] == Count2021[..10];
      }
    }
  }

  /** In the join, the 2020 count of a matched join row is the `population` cell of its right
      row. */
  lemma JoinedCount2020(fa: Table, fb: Table, k: nat)
    requires Key in Names(fa.columns) && Key in Names(fb.columns)
    requires Count in Names(fa.columns) && Count in Names(fb.columns)
    requires Count2020 !in Names(fa.columns) && Count2020 !in Names(fb.columns)
    requires k < |JoinPairs(Cells(fa, Key), Cells(fb, Key))|
    requires JoinPairs(Cells(fa, Key), Cells(fb, Key))[k].1.Some?
    ensures var j := LeftJoin(fa, fb, Key, "_2021", "_2020");
      && Count2020 in Names(j.columns)
      && Cells(j, Count2020)[k] == Cells(fb, Count)[JoinPairs(Cells(fa, Key), Cells(fb, Key))[k].1.value]
  {
    var ps := JoinPairs(Cells(fa, Key), Cells(fb, Key));
    var j := LeftJoin(fa, fb, Key, "_2021", "_2020");
    var left := LeftColumns(fa.columns, Key, Names(fb.columns), "_2021", ps);
    var right := RightColumns(fb.columns, Key, Names(fa.columns), "_2020", ps);
    var d := DropColumns(fb.columns, IsKey(Key));
    assert j.columns == left + right;
    LeftNamesAvoid(fa, fb, ps);
    LookupDrop(fb.columns, IsKey(Key), Count);
    assert Count in Names(d);
    forall i | 0 <= i < |d| ensures right[i].name == Count2020 <==> d[i].name == Count {
      assert d[i] in d;
      NamesMember(fb.columns, d[i].name);
      SuffixedCount2020(d[i].name, Names(fa.columns), Names(fb.columns));
    }
    LookupCorresponding(d, right, Count, Count2020);
    LookupAppend(left, right, Count2020);
    var p := IndexOf(d, Count);
    assert d[p] in fb.columns;
    RightColumnsMatched(fb.columns, Key, Names(fa.columns), "_2020", ps, p, k);
  }

  /** A right column is called `population_2020` exactly when it comes from `population`. */
  lemma SuffixedCount2020(n: string, ln: seq<string>, rn: seq<string>)
    requires n in rn && Count in ln && Count2020 !in rn
    ensures Suffixed(n, ln, "_2020") == Count2020 <==> n == Count
  {
    if n in ln && n + "_2020" == Count2020 {
      assert n == (n + "_2020")[..|n|] == Count2020[..10];
    }
  }

  /** A NaN ratio never reaches the ratio layer: no row of the joined table that comes from it
      is kept by `dropna`. */
  lemma MissingRatioDropped(d: Table, mesh: Table, k: nat, r: nat)
    requires Key in Names(d.columns) && Key in Names(mesh.columns) && "diff" in Names(d.columns)
    requires k < d.height && Cells(d, "diff")[k] == Missing
    requires r < |LeftRows(d, mesh, Key)| && LeftRows(d, mesh, Key)[r] == k
    ensures var sub := Merged(d, mesh, Key, "", "_drop", true);
      && "diff" in Names(sub.columns)
      && SubTable(d, mesh) == Some(SelectRows(sub, Matching(Cells(sub, "diff"), Present)))
      && r !in Matching(Cells(sub, "diff"), Present)
  {
    var sub := Merged(d, mesh, Key, "", "_drop", true);
    SubTableSelects(d, mesh);
    var vs := Cells(sub, "diff");
    assert vs == Gather(Cells(d, "diff"), LeftRows(d, mesh, Key));
    MissingNotKept(vs, r);
  }

  lemma MissingNotKept(vs: seq<Value>, r: nat)
    requires r < |vs| && vs[r].Missing?
    ensures r !in Matching(vs, Present)
  {
  }

  /** The ratio layer's rows are the rows of the joined table whose ratio is present. */
  lemma SubTableSelects(d: Table, mesh: Table)
    requires Key in Names(d.columns) && Key in Names(mesh.columns) && "diff" in Names(d.columns)
    ensures var sub := Merged(d, mesh, Key, "", "_drop", true);
      && "diff" in Names(sub.columns)
      && Cells(sub, "diff") == Gather(Cells(d, "diff"), LeftRows(d, mesh, Key))
      && SubTable(d, mesh) == Some(SelectRows(sub, Matching(Cells(sub, "diff"), Present)))
  {
    var sub := Merged(d, mesh, Key, "", "_drop", true);
    assert !Contains("diff", "_drop");
    LeftValuesKept(d, mesh, Key, "_drop", true, "diff");
    WhereRows(sub, "diff", Present);
  }

  /** A 2021 mesh without a 2020 match never reaches the ratio layer. */
  lemma UnmatchedMeshDropped(fa: Table, fb: Table, mesh: Table, k: nat, r: nat)
    requires Key in Names(fa.columns) && Key in Names(fb.columns) && Key in Names(mesh.columns)
    requires Count2020 !in Names(fa.columns)
    requires DiffTable(Merged(fa, fb, Key, "_2021", "_2020", false)).Some?
    requires k < |JoinPairs(Cells(fa, Key), Cells(fb, Key))|
    requires JoinPairs(Cells(fa, Key), Cells(fb, Key))[k].1.None?
    requires var d := DiffTable(Merged(fa, fb, Key, "_2021", "_2020", false)).value;
      r < |LeftRows(d, mesh, Key)| && LeftRows(d, mesh, Key)[r] == k
    ensures var d := DiffTable(Merged(fa, fb, Key, "_2021", "_2020", false)).value;
      var sub := Merged(d, mesh, Key, "", "_drop", true);
      && "diff" in Names(sub.columns)
      && SubTable(d, mesh) == Some(SelectRows(sub, Matching(Cells(sub, "diff"), Present)))
      && r !in Matching(Cells(sub, "diff"), Present)
  {
    UnmatchedRatioMissing(fa, fb, k);
    var d := DiffTable(Merged(fa, fb, Key, "_2021", "_2020", false)).value;
    MissingRatioDropped(d, mesh, k, r);
  }

  // ---------------------------------------------------------------------------------------
  // _datamap

  /** `Series.map(d)` on a code: a whole number that is a key of `d` becomes its label, any
      other cell NaN. */
  function Label(v: Value, d: Dict<int, string>): (r: Value)
    ensures r.Text? || r.Missing?
    ensures r.Text? <==> v.Num? && v.n == v.n.Floor as real && Get(d, v.n.Floor).Some?
    ensures r.Text? ==> r.s == Get(d, v.n.Floor).value
  {
    if v.Num? && v.n == v.n.Floor as real && Get(d, v.n.Floor).Some? then Text(Get(d, v.n.Floor).value)
    else Missing
  }

  function Relabel(vs: seq<Value>, d: Dict<int, string>): (r: seq<Value>)
    ensures |r| == |vs| && forall i :: 0 <= i < |vs| ==> r[i] == Label(vs[i], d)
  {
    seq(|vs|, i requires 0 <= i < |vs| => Label(vs[i], d))
  }

  predicate IsCodeColumn(name: string) {
    name == "dayflag" || name == "timezone" || name == "prefcode" || name == "citycode" || name == "from_area"
  }

  predicate HasCodes(f: Table) {
    && "dayflag" in Names(f.columns) && "timezone" in Names(f.columns) && "prefcode" in Names(f.columns)
    && "citycode" in Names(f.columns) && "from_area" in Names(f.columns)
  }

  /** The lookup table each code column is relabelled with: the fixed tables, and the
      prefecture and city maps built from the city master. */
  function CodeTable(name: string, master: seq<Regions.CityRow>): Dict<int, string>
  {
    if name == "dayflag" then Const.DayFlag
    else if name == "timezone" then Const.Timezone
    else if name == "prefcode" then Regions.PrefcodeToName(master).0
    else if name == "citycode" then Regions.PrefcodeToName(master).1
    else Const.FromArea
  }

  function Relabelled(f: Table, name: string, master: seq<Regions.CityRow>): (r: Table)
    requires name in Names(f.columns)
    ensures r.height == f.height && Names(r.columns) == Names(f.columns)
  {
    SetColumn(f, name, Relabel(Cells(f, name), CodeTable(name, master)))
  }

  /** `_datamap(df)`: the five code columns relabelled in turn; None when one is missing. */
  function DataMapped(f: Table, master: seq<Regions.CityRow>): (r: Option<Table>)
    ensures r.Some? <==> HasCodes(f)
    ensures r.Some? ==> r.value.height == f.height && Names(r.value.columns) == Names(f.columns)
  {
    if !HasCodes(f) then None
    else
      assert IsCodeColumn("dayflag") && IsCodeColumn("timezone") && IsCodeColumn("prefcode");
      assert IsCodeColumn("citycode") && IsCodeColumn("from_area");
      var g1 := Relabelled(f, "dayflag", master);
      var g2 := Relabelled(g1, "timezone", master);
      var g3 := Relabelled(g2, "prefcode", master);
      var g4 := Relabelled(g3, "citycode", master);
      Some(Relabelled(g4, "from_area", master))
  }

  /** Each code column holds the label of its former code, and every other column is as it
      was. */
  lemma DataMapLabels(f: Table, master: seq<Regions.CityRow>, name: string)
    requires HasCodes(f)
    ensures var r := DataMapped(f, master).value;
      && (IsCodeColumn(name) ==>
            name in Names(r.columns) && Cells(r, name) == Relabel(Cells(f, name), CodeTable(name, master)))
      && (!IsCodeColumn(name) ==> Lookup(r.columns, name) == Lookup(f.columns, name))
  {
    var g1 := Relabelled(f, "dayflag", master);
    var g2 := Relabelled(g1, "timezone", master);
    var g3 := Relabelled(g2, "prefcode", master);
    var g4 := Relabelled(g3, "citycode", master);
    var g5 := Relabelled(g4, "from_area", master);
    assert DataMapped(f, master).value == g5;
    RelabelledLookup(f, "dayflag", master, name);
    RelabelledLookup(g1, "timezone", master, name);
    RelabelledLookup(g2, "prefcode", master, name);
    RelabelledLookup(g3, "citycode", master, name);
    RelabelledLookup(g4, "from_area", master, name);
  }

  /** One relabelling replaces its own column and no other. */
  lemma RelabelledLookup(f: Table, col: string, master: seq<Regions.CityRow>, name: string)
    requires col in Names(f.columns)
    ensures Lookup(Relabelled(f, col, master).columns, name) ==
      if name == col then Some(Relabel(Cells(f, col), CodeTable(col, master))) else Lookup(f.columns, name)
  {
  }

  /** The day-type codes read as their labels, the code for "all" as 全日, and an unknown
      code as NaN. */
  lemma DayTypeLabels()
    ensures Label(Num(0.0), Const.DayFlag) == Text("休日")
    ensures Label(Num(1.0), Const.DayFlag) == Text("平日")
    ensures Label(Num(2.0), Const.DayFlag) == Text(Const.AllDay)
    ensures Label(Num(3.0), Const.DayFlag) == Missing
    ensures Label(Num(2.0), Const.Timezone) == Text(Const.AllDay)
  {
    assert (2.0).Floor == 2 && (3.0).Floor == 3 && (1.0).Floor == 1 && (0.0).Floor == 0;
  }

  /** `_datamap` on the data frame object: the maps are built once, then each code column is
      overwritten in place, in the order of the source. It answers false when a column is
      missing (the KeyError), leaving the columns before it relabelled. */
  method DataMap(df: DataFrame, master: seq<Regions.CityRow>) returns (ok: bool)
    requires df.Valid()
    modifies df
    ensures df.Valid() && Names(df.columns) == Names(old(df.columns)) && df.height == old(df.height)
    ensures ok <==> HasCodes(old(df.Snapshot()))
    ensures ok ==> df.Snapshot() == DataMapped(old(df.Snapshot()), master).value
  {
    ghost var was := df.Snapshot();
    var maps := Regions.PrefcodeToName(master);
    assert IsCodeColumn("dayflag") && IsCodeColumn("timezone") && IsCodeColumn("prefcode");
    assert IsCodeColumn("citycode") && IsCodeColumn("from_area");
    if "dayflag" !in Names(df.columns) {
      return false;
    }
    df.Assign("dayflag", Relabel(Cells(df.Snapshot(), "dayflag"), Const.DayFlag));
    ghost var g1 := df.Snapshot();
    assert g1 == Relabelled(was, "dayflag", master);
    if "timezone" !in Names(df.columns) {
      return false;
    }
    df.Assign("timezone", Relabel(Cells(df.Snapshot(), "timezone"), Const.Timezone));
    ghost var g2 := df.Snapshot();
    assert g2 == Relabelled(g1, "timezone", master);
    if "prefcode" !in Names(df.columns) {
      return false;
    }
    df.Assign("prefcode", Relabel(Cells(df.Snapshot(), "prefcode"), maps.0));
    ghost var g3 := df.Snapshot();
    assert g3 == Relabelled(g2, "prefcode", master);
    if "citycode" !in Names(df.columns) {
      return false;
    }
    df.Assign("citycode", Relabel(Cells(df.Snapshot(), "citycode"), maps.1));
    ghost var g4 := df.Snapshot();
    assert g4 == Relabelled(g3, "citycode", master);
    if "from_area" !in Names(df.columns) {
      return false;
    }
    df.Assign("from_area", Relabel(Cells(df.Snapshot(), "from_area"), Const.FromArea));
    assert df.Snapshot() == Relabelled(g4, "from_area", master);
    ok := true;
  }

  // ---------------------------------------------------------------------------------------
  // step_2

  /** The session values and widget answers `step_2` reads. */
  datatype Selection = Selection(
    dataset: Option<string>,          // `ss.set`, None when the dataset control is cleared
    pref: Option<Dict<int, string>>,  // `ss.pref` from step 1, None before a region is chosen
    citycode: seq<int>,               // `ss.citycode`
    month: int,                       // `ss.month`
    dayflag: Option<int>,             // `ss.dayflag`
    timezone: Option<int>)            // `ss.timezone`

  /** What lies outside the page: the archive server, the member reader (archive URL and
      member to the parsed table or the kind of exception raised) and the city master that
      `prefcode_to_name` reads. */
  datatype Env = Env(
    blob: Fetch.Blob,
    download: string -> Fetch.Download,
    read: Fetch.Reader,
    master: seq<Regions.CityRow>)

  /** How `step_2` ends: a fetch failure's message and stop, an exception swallowed by the
      page, the two relabelled tables of the city-flow dataset, or the three inputs of the map
      with its zoom. */
  datatype View =
    | Halted(message: string)
    | Crashed
    | CityTables(t2021: Table, t2020: Table)
    | Maps(latlon: Table, main: GeoFrame, sub: GeoFrame, zoom: int)

  /** A map view has the population layer, the ratio layer without NaN ratios, and the given
      zoom. */
  predicate GoodMaps(v: View, zoom: int) {
    v.Maps? ==>
      && GeoColumns(v.main) == ["population", "geometry"]
      && GeoColumns(v.sub) == ["diff", "geometry"]
      && (forall k :: 0 <= k < |v.sub.values| ==> !v.sub.values[k].Missing?)
      && v.zoom == zoom
  }

  /** What `fetch_data` reads from the session: the dataset, the keys of `ss.pref`, the month. */
  function FetchSession(s: Selection): Fetch.Session
  {
    Fetch.Session(s.dataset, if s.pref.Some? then Some(Keys(s.pref.value)) else None, s.month)
  }

  /** The first argument of `fetch_data(ss.set, year)`. */
  function DatasetName(choice: Option<string>): string
  {
    if choice.Some? then choice.value else "None"
  }

  /** `fetch_data(f, year)`: the table of the member found; a failure ends the page with one of
      the three messages, or with an exception. */
  function Load(f: string, year: int, s: Selection, e: Env): (r: Result<Table, View>)
    ensures r.Err? ==> r.error.Crashed? || (r.error.Halted? && Fetch.IsFetchMessage(r.error.message))
    ensures r.Ok? ==> Fetch.DataPath(f, year, FetchSession(s)).Ok?
  {
    match Fetch.Fetched(f, year, FetchSession(s), e.blob, e.download, e.read)
    case Loaded(_, _, table) => Ok(table)
    case Halted(message) => Err(Halted(message))
    case Crashed(_) => Err(Crashed)
  }

  /** A relabelled cell: a label or NaN. */
  predicate Labelled(v: Value) {
    v.Text? || v.Missing?
  }

  predicate AllLabelled(vs: seq<Value>) {
    forall k :: 0 <= k < |vs| ==> Labelled(vs[k])
  }

  /** The five code columns are present and hold only labels or NaN. */
  predicate LabelledCodes(t: Table) {
    && HasCodes(t)
    && AllLabelled(Cells(t, "dayflag")) && AllLabelled(Cells(t, "timezone"))
    && AllLabelled(Cells(t, "prefcode")) && AllLabelled(Cells(t, "citycode"))
    && AllLabelled(Cells(t, "from_area"))
  }

  /** After `_datamap` no code column holds a code any more. */
  lemma DataMappedLabelled(f: Table, master: seq<Regions.CityRow>)
    requires HasCodes(f)
    ensures LabelledCodes(DataMapped(f, master).value)
  {
    var r := DataMapped(f, master).value;
    forall n | IsCodeColumn(n) ensures n in Names(r.columns) && AllLabelled(Cells(r, n)) {
      DataMapLabels(f, master, n);
      RelabelLabelled(Cells(f, n), CodeTable(n, master));
    }
    assert IsCodeColumn("dayflag") && IsCodeColumn("timezone") && IsCodeColumn("prefcode");
    assert IsCodeColumn("citycode") && IsCodeColumn("from_area");
  }

  lemma RelabelLabelled(vs: seq<Value>, d: Dict<int, string>)
    ensures AllLabelled(Relabel(vs, d))
  {
  }

  /** The city-flow dataset: filter, relabel, and show the two tables. */
  function FromtoView(a: Table, b: Table, s: Selection, e: Env): (v: View)
    ensures v.Crashed? || v.CityTables?
    ensures v.CityTables? ==> LabelledCodes(v.t2021) && LabelledCodes(v.t2020)
  {
    var fa := Filter(a, s.dayflag, s.timezone);
    var fb := Filter(b, s.dayflag, s.timezone);
    if fa.None? || fb.None? then Crashed
    else
      var ma := DataMapped(fa.value, e.master);
      var mb := DataMapped(fb.value, e.master);
      if ma.None? || mb.None? then Crashed
      else
        DataMappedLabelled(fa.value, e.master);
        DataMappedLabelled(fb.value, e.master);
        CityTables(ma.value, mb.value)
  }

  /** The population layer: the 2020 counts joined with the mesh attributes, `_drop` columns
      removed, one box per row, and the `lat`/`lon` columns for the map centre. */
  function MainLayer(fb: Table, mesh: Table): (r: Option<(Table, GeoFrame)>)
    requires Key in Names(fb.columns) && Key in Names(mesh.columns)
    ensures r.Some? ==> Names(r.value.0.columns) == ["lat", "lon"] && GeoColumns(r.value.1) == ["population", "geometry"]
  {
    var main := Merged(fb, mesh, Key, "", "_drop", true);
    var g := MakePolygons(main, "population");
    if g.None? then None
    else
      var c := Centre(main);
      if c.None? then None else Some((c.value, g.value))
  }

  /** `df_main[["lat", "lon"]]`; None when a column is missing (KeyError). */
  function Centre(main: Table): (r: Option<Table>)
    ensures r.Some? <==> "lat" in Names(main.columns) && "lon" in Names(main.columns)
    ensures r.Some? ==> Names(r.value.columns) == ["lat", "lon"] && r.value.height == main.height
  {
    if "lat" !in Names(main.columns) || "lon" !in Names(main.columns) then None
    else Some(Project(main, ["lat", "lon"]))
  }

  /** The `diff` rows that reach the map: the ratio table joined with the mesh attributes,
      `_drop` columns removed, NaN ratios dropped. */
  function SubTable(d: Table, mesh: Table): (r: Option<Table>)
    requires Key in Names(d.columns) && Key in Names(mesh.columns)
    ensures r.Some? ==> "diff" in Names(r.value.columns)
    ensures r.Some? ==> forall k :: 0 <= k < r.value.height ==> !Cells(r.value, "diff")[k].Missing?
  {
    DropNa(Merged(d, mesh, Key, "", "_drop", true), "diff")
  }

  /** The ratio layer: one box per mesh whose ratio is not NaN. */
  function DiffLayer(fa: Table, fb: Table, mesh: Table): (r: Option<GeoFrame>)
    requires Key in Names(fa.columns) && Key in Names(fb.columns) && Key in Names(mesh.columns)
    ensures r.Some? ==> GeoColumns(r.value) == ["diff", "geometry"]
    ensures r.Some? ==> forall k :: 0 <= k < |r.value.values| ==> !r.value.values[k].Missing?
  {
    var d := DiffTable(Merged(fa, fb, Key, "_2021", "_2020", false));
    if d.None? then None
    else
      var sub := SubTable(d.value, mesh);
      if sub.None? then None else MakePolygons(sub.value, "diff")
  }

  /** The mesh dataset: filter both years, build the population layer and the ratio layer. */
  function MapView(a: Table, b: Table, mesh: Table, s: Selection): (v: View)
    ensures v.Crashed? || v.Maps?
    ensures GoodMaps(v, Zoom(|s.citycode|))
  {
    var fa := Filter(a, s.dayflag, s.timezone);
    var fb := Filter(b, s.dayflag, s.timezone);
    if fa.None? || fb.None? then Crashed
    else Layers(fa.value, fb.value, mesh, Zoom(|s.citycode|))
  }

  /** Both layers of the filtered years, or the crash of the first step that fails. */
  function Layers(fa: Table, fb: Table, mesh: Table, zoom: int): (v: View)
    ensures v.Crashed? || v.Maps?
    ensures GoodMaps(v, zoom)
  {
    if Key !in Names(fb.columns) || Key !in Names(mesh.columns) then Crashed
    else
      var main := MainLayer(fb, mesh);
      if main.None? || Key !in Names(fa.columns) then Crashed
      else
        var sub := DiffLayer(fa, fb, mesh);
        if sub.None? then Crashed
        else Maps(main.value.0, main.value.1, sub.value, zoom)
  }

  /** `step_2()`: the mesh attributes are fetched first for the mesh dataset, then both years of
      the chosen dataset, each narrowed to the selected cities; then the city-flow dataset
      returns its relabelled tables without any join or polygon, and any other dataset builds
      the map from `ss.df_mesh`. `prior` is what `ss.df_mesh` held before this run (None when
      it was never written, which makes `ss.df_mesh.copy()` raise). */
  function Step2(s: Selection, e: Env, prior: Option<Table>): (v: View)
    ensures v.Halted? ==> Fetch.IsFetchMessage(v.message)
    ensures s.dataset == Some("fromto") ==> !v.Maps?
    ensures s.dataset != Some("fromto") ==> !v.CityTables?
    ensures v.CityTables? ==> LabelledCodes(v.t2021) && LabelledCodes(v.t2020)
    ensures v.Maps? ==>
      && (s.dataset == Some("mdp") || (s.dataset == Some("mesh1km") && prior.Some?))
      && GeoColumns(v.main) == ["population", "geometry"]
      && GeoColumns(v.sub) == ["diff", "geometry"]
      && (forall k :: 0 <= k < |v.sub.values| ==> !v.sub.values[k].Missing?)
      && v.zoom == Zoom(|s.citycode|) && MinZoom <= v.zoom <= MaxZoom
  {
    var mesh := MeshAttributes(s, e);
    if mesh.Some? && mesh.value.Err? then mesh.value.error
    else YearsThenView(if mesh.Some? then Some(mesh.value.value) else prior, s, e)
  }

  /** After the mesh attributes: fetch both years, then return the tables or build the map. */
  function YearsThenView(mesh: Option<Table>, s: Selection, e: Env): (v: View)
    ensures v.Halted? ==> Fetch.IsFetchMessage(v.message)
    ensures s.dataset == Some("fromto") ==> !v.Maps?
    ensures s.dataset != Some("fromto") ==> !v.CityTables?
    ensures v.CityTables? ==> LabelledCodes(v.t2021) && LabelledCodes(v.t2020)
    ensures v.Maps? ==> mesh.Some?
    ensures v.Maps? ==> s.dataset == Some("mdp") || s.dataset == Some("mesh1km")
    ensures GoodMaps(v, Zoom(|s.citycode|))
  {
    var y := Years(s, e);
    if y.Err? then y.error else Dispatch(y.value.0, y.value.1, mesh, s, e)
  }

  /** `ss.df_mesh = fetch_data("mesh1km", 2020)`, done only for the mesh dataset. */
  function MeshAttributes(s: Selection, e: Env): (r: Option<Result<Table, View>>)
    ensures r.Some? <==> s.dataset == Some("mdp")
    ensures r.Some? && r.value.Err? ==> r.value.error.Crashed? || (r.value.error.Halted? && Fetch.IsFetchMessage(r.value.error.message))
  {
    if s.dataset == Some("mdp") then Some(Load("mesh1km", 2020, s, e)) else None
  }

  /** The early return for the city-flow dataset, the map otherwise. */
  function Dispatch(a: Table, b: Table, mesh: Option<Table>, s: Selection, e: Env): (v: View)
    ensures s.dataset == Some("fromto") ==> v.Crashed? || v.CityTables?
    ensures s.dataset != Some("fromto") ==> v.Crashed? || v.Maps?
    ensures v.CityTables? ==> LabelledCodes(v.t2021) && LabelledCodes(v.t2020)
    ensures v.Maps? ==> mesh.Some?
    ensures GoodMaps(v, Zoom(|s.citycode|))
  {
    if s.dataset == Some("fromto") then FromtoView(a, b, s, e)
    else if mesh.None? then Crashed
    else MapView(a, b, mesh.value, s)
  }

  /** `ss.df_2021` and `ss.df_2020`: both years of the chosen dataset, each narrowed to the
      selected cities. */
  function Years(s: Selection, e: Env): (r: Result<(Table, Table), View>)
    ensures r.Err? ==> r.error.Crashed? || (r.error.Halted? && Fetch.IsFetchMessage(r.error.message))
    ensures r.Ok? ==> s.dataset == Some("mdp") || s.dataset == Some("fromto") || s.dataset == Some("mesh1km")
  {
    assert DatasetName(s.dataset) == "mesh1km" ==> s.dataset == Some("mesh1km") by {
      assert "None"[0] != "mesh1km"[0];
    }
    Narrowed(Load(DatasetName(s.dataset), 2021, s, e), Load(DatasetName(s.dataset), 2020, s, e), s.citycode)
  }

  /** The two fetched years narrowed to the selected cities: the first failure in program order
      (2021, then 2020, then a filter) is the outcome. */
  function Narrowed(a: Result<Table, View>, b: Result<Table, View>, codes: seq<int>): (r: Result<(Table, Table), View>)
    ensures a.Err? ==> r == Err(a.error)
    ensures a.Ok? && b.Err? ==> r == Err(b.error)
    ensures a.Ok? && b.Ok? && |codes| == 0 ==> r == Ok((a.value, b.value))
    ensures (a.Ok? && b.Ok? && |codes| > 0 ==>
      (r.Ok? <==> "citycode" in Names(a.value.columns) && "citycode" in Names(b.value.columns)))
    ensures a.Ok? && b.Ok? && r.Err? ==> r.error == Crashed
    ensures r.Ok? ==> Names(r.value.0.columns) == Names(a.value.columns) && Names(r.value.1.columns) == Names(b.value.columns)
  {
    if a.Err? then Err(a.error)
    else if b.Err? then Err(b.error)
    else
      var ca := CityFilter(a.value, codes);
      var cb := CityFilter(b.value, codes);
      if ca.None? || cb.None? then Err(Crashed) else Ok((ca.value, cb.value))
  }

  /** The session keys `step_2` writes: `ss.df_mesh`, `ss.df_2021` and `ss.df_2020`. A key
      that was never written is None. */
  class PageState {
    var dfMesh: Option<Table>
    var df2021: Option<Table>
    var df2020: Option<Table>

    constructor (mesh: Option<Table>, t2021: Option<Table>, t2020: Option<Table>)
      ensures dfMesh == mesh && df2021 == t2021 && df2020 == t2020
    {
      dfMesh, df2021, df2020 := mesh, t2021, t2020;
    }

    /** The fetches at the top of `step_2`, each stored in the session as it arrives, then the
        city filter; a stop or an exception ends them with the keys written so far. A fetch is
        a function of the environment, so the 2020 table is named before the 2021 one is
        stored without changing what is stored. */
    method Fetches(s: Selection, e: Env) returns (stop: Option<View>)
      modifies this
      ensures var m := MeshAttributes(s, e); var y := Years(s, e);
        && (stop.Some? <==> (m.Some? && m.value.Err?) || y.Err?)
        && (m.Some? && m.value.Err? ==> stop == Some(m.value.error))
        && (m.Some? && m.value.Ok? ==> dfMesh == Some(m.value.value))
        && (m.None? ==> dfMesh == old(dfMesh))
        && (stop.None? ==> df2021 == Some(y.value.0) && df2020 == Some(y.value.1))
        && (!(m.Some? && m.value.Err?) && y.Err? ==> stop == Some(y.error))
    {
      ghost var m := MeshAttributes(s, e);
      if s.dataset == Some("mdp") {
        var mesh := Load("mesh1km", 2020, s, e);
        if mesh.Err? {
          return Some(mesh.error);
        }
        dfMesh := Some(mesh.value);
      }
      assert m.Some? ==> m.value.Ok? && dfMesh == Some(m.value.value);
      assert m.None? ==> dfMesh == old(dfMesh);
      var a := Load(DatasetName(s.dataset), 2021, s, e);
      var b := Load(DatasetName(s.dataset), 2020, s, e);
      stop := Store(a, b, s.citycode);
    }

    /** The two years stored as they arrive, then narrowed to the selected cities when some
        city is selected (`if citycode:`). */
    method Store(a: Result<Table, View>, b: Result<Table, View>, codes: seq<int>) returns (stop: Option<View>)
      modifies this
      ensures var y := Narrowed(a, b, codes);
        && (stop.Some? <==> y.Err?)
        && (y.Err? ==> stop == Some(y.error))
        && (y.Ok? ==> df2021 == Some(y.value.0) && df2020 == Some(y.value.1))
        && dfMesh == old(dfMesh)
    {
      if a.Err? {
        return Some(a.error);
      }
      df2021 := Some(a.value);
      if b.Err? {
        return Some(b.error);
      }
      df2020 := Some(b.value);
      if |codes| > 0 {
        var ca := CityFilter(a.value, codes);
        if ca.None? {
          return Some(Crashed);
        }
        df2021 := ca;
        var cb := CityFilter(b.value, codes);
        if cb.None? {
          return Some(Crashed);
        }
        df2020 := cb;
      }
      return None;
    }

    /** `step_2()` on this session: the fetches, then the view of what they stored. */
    method Step2Page(s: Selection, e: Env) returns (v: View)
      modifies this
      ensures v == Step2(s, e, old(dfMesh))
    {
      var stop := Fetches(s, e);
      if stop.Some? {
        return stop.value;
      }
      v := Dispatch(df2021.value, df2020.value, dfMesh, s, e);
    }
  }
}
