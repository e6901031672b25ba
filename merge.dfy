/** `merge_df` in app/common/utils.py: a left join of two tables on one key column (pandas'
    `pd.merge(..., how="left")`, described here by its documented meaning), then optionally
    dropping every column whose name contains the second suffix, then renaming `lat_center`
    and `lon_center` to `lat` and `lon`. */
module Merge {
  import opened Options
  import opened Strings
  import opened Seqs
  import opened Frames

  // ---------------------------------------------------------------------------------------
  // Which rows a left join produces

  /** A row of the join: the left row it comes from and the matching right row, if any. */
  type Pair = (nat, Option<nat>)

  /** The positions of the right rows whose key equals `key`, in order. */
  function KeyMatches(rk: seq<Value>, key: Value): (m: seq<nat>)
    ensures Increasing(m)
    ensures forall k :: 0 <= k < |m| ==> m[k] < |rk| && rk[m[k]] == key
    ensures forall j :: 0 <= j < |rk| && rk[j] == key ==> j in m
  {
    Matching(rk, v => v == key)
  }

  /** The rows left row `i` contributes: one per match, or one without a right row. */
  function PairsFor(i: nat, m: seq<nat>): (ps: seq<Pair>)
    ensures |ps| == if |m| == 0 then 1 else |m|
    ensures forall k :: 0 <= k < |ps| ==> ps[k].0 == i
    ensures |m| == 0 ==> ps == [(i, None)]
    ensures |m| > 0 ==> forall k :: 0 <= k < |ps| ==> ps[k].1 == Some(m[k])
  {
    if |m| == 0 then [(i, None)] else seq(|m|, k requires 0 <= k < |m| => (i, Some(m[k])))
  }

  /** The rows of a left join with left keys `lk` and right keys `rk`: the left rows in their
      order, each followed through all its matches in right order. */
  function JoinPairs(lk: seq<Value>, rk: seq<Value>): (ps: seq<Pair>)
    ensures |ps| >= |lk|
    ensures JoinRows(lk, rk, ps)
  {
    if |lk| == 0 then []
    else
      var prev := JoinPairs(lk[..|lk| - 1], rk);
      var tail := PairsFor(|lk| - 1, KeyMatches(rk, lk[|lk| - 1]));
      JoinRowsAppend(lk, rk, prev, tail);
      prev + tail
  }

  /** Each join row names a left row, a matched right row has the same key, and a row
      without a right row has a key no right row has. */
  predicate JoinRows(lk: seq<Value>, rk: seq<Value>, ps: seq<Pair>) {
    && (forall k :: 0 <= k < |ps| ==> ps[k].0 < |lk|)
    && (forall k :: 0 <= k < |ps| && ps[k].1.Some? ==>
          ps[k].1.value < |rk| && rk[ps[k].1.value] == lk[ps[k].0])
    && (forall k :: 0 <= k < |ps| && ps[k].1.None? ==>
          forall j :: 0 <= j < |rk| ==> rk[j] != lk[ps[k].0])
  }

  /** The rows of the last left row extend the rows of the others. */
  lemma JoinRowsAppend(lk: seq<Value>, rk: seq<Value>, prev: seq<Pair>, tail: seq<Pair>)
    requires |lk| > 0 && JoinRows(lk[..|lk| - 1], rk, prev)
    requires tail == PairsFor(|lk| - 1, KeyMatches(rk, lk[|lk| - 1]))
    ensures JoinRows(lk, rk, prev + tail)
  {
    var init := lk[..|lk| - 1];
    var ps := prev + tail;
    forall k | 0 <= k < |ps|
      ensures ps[k].0 < |lk|
      ensures ps[k].1.Some? ==> ps[k].1.value < |rk| && rk[ps[k].1.value] == lk[ps[k].0]
      ensures ps[k].1.None? ==> forall j :: 0 <= j < |rk| ==> rk[j] != lk[ps[k].0]
    {
      if k < |prev| {
        assert ps[k] == prev[k];
        assert init[prev[k].0] == lk[prev[k].0];
      } else {
        assert ps[k] == tail[k - |prev|];
      }
    }
  }

  /** The left row of every join row, in order. */
  function Lefts(ps: seq<Pair>): (idx: seq<nat>)
    ensures |idx| == |ps| && forall k :: 0 <= k < |ps| ==> idx[k] == ps[k].0
  {
    seq(|ps|, k requires 0 <= k < |ps| => ps[k].0)
  }

  /** The left row numbers never go down. */
  predicate InLeftOrder(ps: seq<Pair>) {
    forall k, l :: 0 <= k < l < |ps| ==> ps[k].0 <= ps[l].0
  }

  /** Left rows keep their order in the join. */
  lemma {:induction false} JoinOrdered(lk: seq<Value>, rk: seq<Value>)
    ensures InLeftOrder(JoinPairs(lk, rk))
  {
    if |lk| > 0 {
      var init := lk[..|lk| - 1];
      JoinOrdered(init, rk);
      var prev := JoinPairs(init, rk);
      var tail := PairsFor(|lk| - 1, KeyMatches(rk, lk[|lk| - 1]));
      var ps := JoinPairs(lk, rk);
      assert ps == prev + tail;
      forall k, l | 0 <= k < l < |ps| ensures ps[k].0 <= ps[l].0 {
        if l < |prev| {
          assert ps[k] == prev[k] && ps[l] == prev[l];
          assert prev[k].0 <= prev[l].0;
        } else if k < |prev| {
          assert ps[k] == prev[k] && ps[l] == tail[l - |prev|];
          assert prev[k].0 < |init|;
          assert tail[l - |prev|].0 == |init|;
        } else {
          assert ps[k] == tail[k - |prev|] && ps[l] == tail[l - |prev|];
          assert tail[k - |prev|].0 == tail[l - |prev|].0;
        }
      }
    }
  }

  /** No left row is lost: every left row has at least one join row. */
  lemma {:induction false} JoinCovers(lk: seq<Value>, rk: seq<Value>)
    ensures forall i :: 0 <= i < |lk| ==> i in Lefts(JoinPairs(lk, rk))
  {
    if |lk| > 0 {
      var init := lk[..|lk| - 1];
      JoinCovers(init, rk);
      var prev := JoinPairs(init, rk);
      var tail := PairsFor(|lk| - 1, KeyMatches(rk, lk[|lk| - 1]));
      var ps := JoinPairs(lk, rk);
      assert ps == prev + tail;
      forall i | 0 <= i < |lk| ensures i in Lefts(ps) {
        if i < |init| {
          assert i in Lefts(prev);
          var k :| 0 <= k < |prev| && Lefts(prev)[k] == i;
          assert ps[k] == prev[k];
          assert Lefts(ps)[k] == i;
        } else {
          assert ps[|prev|] == tail[0];
          assert Lefts(ps)[|prev|] == i;
        }
      }
    }
  }

  predicate UniqueKeys(rk: seq<Value>) {
    forall j1, j2 :: 0 <= j1 < j2 < |rk| ==> rk[j1] != rk[j2]
  }

  /** With unique right keys a key matches at most one right row. */
  lemma AtMostOneMatch(rk: seq<Value>, key: Value)
    requires UniqueKeys(rk)
    ensures |KeyMatches(rk, key)| <= 1
  {
    var m := KeyMatches(rk, key);
    FirstTwo(m);
  }

  /** Names the first two positions of a list without indexing it where it cannot be that
      long. */
  lemma FirstTwo(m: seq<nat>)
    ensures |m| >= 2 ==> m[0] in m && m[1] in m
  {
  }

  /** With unique right keys the join has exactly one row per left row, in left order. */
  lemma {:induction false} UniqueKeysKeepLeftRows(lk: seq<Value>, rk: seq<Value>)
    requires UniqueKeys(rk)
    ensures var ps := JoinPairs(lk, rk);
      |ps| == |lk| && forall i :: 0 <= i < |lk| ==> ps[i].0 == i
  {
    if |lk| > 0 {
      var init := lk[..|lk| - 1];
      UniqueKeysKeepLeftRows(init, rk);
      AtMostOneMatch(rk, lk[|lk| - 1]);
    }
  }

  // ---------------------------------------------------------------------------------------
  // Which columns a left join produces

  /** A cell of a right column for a join row: the matched row's value, or missing. */
  function RightCell(vs: seq<Value>, p: Pair): Value
  {
    if p.1.Some? && p.1.value < |vs| then vs[p.1.value] else Missing
  }

  /** The name a non-key column gets when the other side has a column of the same name. */
  function Suffixed(name: string, others: seq<string>, suffix: string): string
  {
    if name in others then name + suffix else name
  }

  /** The left columns: the key keeps its name, and each value is taken from the join row's
      left row. */
  function LeftColumns(cols: seq<Column>, on: string, rn: seq<string>, s0: string, ps: seq<Pair>): (r: seq<Column>)
    ensures |r| == |cols|
    ensures forall j :: 0 <= j < |r| ==> |r[j].values| == |ps|
    ensures forall j :: 0 <= j < |cols| ==> r[j].name == (if cols[j].name == on then on else Suffixed(cols[j].name, rn, s0))
    ensures forall j :: 0 <= j < |cols| && (forall k :: 0 <= k < |ps| ==> ps[k].0 < |cols[j].values|) ==>
      r[j].values == Gather(cols[j].values, Lefts(ps))
  {
    seq(|cols|, j requires 0 <= j < |cols| =>
      var c := cols[j];
      var vs := seq(|ps|, k requires 0 <= k < |ps| => if ps[k].0 < |c.values| then c.values[ps[k].0] else Missing);
      Column(if c.name == on then on else Suffixed(c.name, rn, s0), vs))
  }

  /** The test that picks out the key column. */
  function IsKey(on: string): string -> bool {
    (n: string) => n == on
  }

  /** A right column's cells along the join rows. */
  function RightValues(vs: seq<Value>, ps: seq<Pair>): (r: seq<Value>)
    ensures |r| == |ps| && forall k :: 0 <= k < |ps| ==> r[k] == RightCell(vs, ps[k])
  {
    seq(|ps|, k requires 0 <= k < |ps| => RightCell(vs, ps[k]))
  }

  /** The right columns other than the key, in order: the `i`-th comes from the `i`-th non-key
      right column, suffixed on a collision, holding at each matched join row the matched right
      row's value and NaN at each unmatched one. */
  function RightColumns(cols: seq<Column>, on: string, ln: seq<string>, s1: string, ps: seq<Pair>): (r: seq<Column>)
    ensures forall c :: c in r ==> |c.values| == |ps|
    ensures forall c :: c in r ==> exists d :: d in cols && d.name != on && c.name == Suffixed(d.name, ln, s1)
    ensures forall c, k :: c in r && 0 <= k < |ps| && ps[k].1.None? ==> c.values[k] == Missing
    ensures var d := DropColumns(cols, IsKey(on));
      && |r| == |d|
      && forall i :: 0 <= i < |r| ==> r[i] == Column(Suffixed(d[i].name, ln, s1), RightValues(d[i].values, ps))
  {
    var d := DropColumns(cols, IsKey(on));
    RightOfFacts(cols, on, d, ln, s1, ps);
    RightOf(d, ln, s1, ps)
  }

  /** The contract of `RightColumns`, for the columns `RightOf` builds. */
  lemma RightOfFacts(cols: seq<Column>, on: string, d: seq<Column>, ln: seq<string>, s1: string, ps: seq<Pair>)
    requires d == DropColumns(cols, IsKey(on))
    ensures var r := RightOf(d, ln, s1, ps);
      && (forall c :: c in r ==> |c.values| == |ps|)
      && (forall c :: c in r ==> exists d' :: d' in cols && d'.name != on && c.name == Suffixed(d'.name, ln, s1))
      && (forall c, k :: c in r && 0 <= k < |ps| && ps[k].1.None? ==> c.values[k] == Missing)
  {
    RightOfFrom(cols, on, d, ln, s1, ps);
    RightOfCells(d, ln, s1, ps);
  }

  /** At a matched join row a right column holds the matched right row's cell of the column it
      comes from. */
  lemma RightColumnsMatched(cols: seq<Column>, on: string, ln: seq<string>, s1: string, ps: seq<Pair>, i: nat, k: nat)
    requires var d := DropColumns(cols, IsKey(on)); i < |d| && k < |ps| && ps[k].1.Some? && ps[k].1.value < |d[i].values|
    ensures var d, r := DropColumns(cols, IsKey(on)), RightColumns(cols, on, ln, s1, ps);
      i < |r| && r[i].name == Suffixed(d[i].name, ln, s1) && r[i].values[k] == d[i].values[ps[k].1.value]
  {
    var r := RightColumns(cols, on, ln, s1, ps);
    assert r[i].values[k] == RightCell(DropColumns(cols, IsKey(on))[i].values, ps[k]);
  }

  /** Each of the columns `d` carried into the join: renamed on a collision, its cells taken
      along the join rows. */
  function RightOf(d: seq<Column>, ln: seq<string>, s1: string, ps: seq<Pair>): (r: seq<Column>)
    ensures |r| == |d|
    ensures forall i :: 0 <= i < |d| ==> r[i] == Column(Suffixed(d[i].name, ln, s1), RightValues(d[i].values, ps))
  {
    seq(|d|, i requires 0 <= i < |d| => Column(Suffixed(d[i].name, ln, s1), RightValues(d[i].values, ps)))
  }

  /** The carried columns hold one cell per join row: the matched row's value, or NaN. */
  lemma RightOfCells(d: seq<Column>, ln: seq<string>, s1: string, ps: seq<Pair>)
    ensures var r := RightOf(d, ln, s1, ps);
      && (forall c :: c in r ==> |c.values| == |ps|)
      && (forall c, k :: c in r && 0 <= k < |ps| && ps[k].1.None? ==> c.values[k] == Missing)
      && (forall i, k :: 0 <= i < |r| && 0 <= k < |ps| && ps[k].1.Some? && ps[k].1.value < |d[i].values| ==>
            r[i].values[k] == d[i].values[ps[k].1.value])
  {
    var r := RightOf(d, ln, s1, ps);
    forall c | c in r ensures |c.values| == |ps| && forall k :: 0 <= k < |ps| && ps[k].1.None? ==> c.values[k] == Missing {
      var i :| 0 <= i < |r| && r[i] == c;
    }
  }

  /** Every column carried from the non-key columns names one of them. */
  lemma RightOfFrom(cols: seq<Column>, on: string, d: seq<Column>, ln: seq<string>, s1: string, ps: seq<Pair>)
    requires d == DropColumns(cols, IsKey(on))
    ensures forall c :: c in RightOf(d, ln, s1, ps) ==>
      exists d' :: d' in cols && d'.name != on && c.name == Suffixed(d'.name, ln, s1)
  {
    var r := RightOf(d, ln, s1, ps);
    forall c | c in r ensures exists d' :: d' in cols && d'.name != on && c.name == Suffixed(d'.name, ln, s1) {
      var i :| 0 <= i < |r| && r[i] == c;
      assert d[i] in d;
    }
  }

  /** `pd.merge(left, right, on=on, how="left", suffixes=(s0, s1))`: the join rows, the left
      columns (colliding non-key names suffixed with `s0`), then the right non-key columns
      (colliding names suffixed with `s1`). */
  function LeftJoin(l: Table, r: Table, on: string, s0: string, s1: string): (j: Table)
    requires on in Names(l.columns) && on in Names(r.columns)
    ensures j.height == |JoinPairs(Cells(l, on), Cells(r, on))|
    ensures |j.columns| >= |l.columns|
    ensures j.columns[..|l.columns|] == LeftColumns(l.columns, on, Names(r.columns), s0, JoinPairs(Cells(l, on), Cells(r, on)))
    ensures j.columns == LeftColumns(l.columns, on, Names(r.columns), s0, JoinPairs(Cells(l, on), Cells(r, on))) +
                         RightColumns(r.columns, on, Names(l.columns), s1, JoinPairs(Cells(l, on), Cells(r, on)))
  {
    var ps := JoinPairs(Cells(l, on), Cells(r, on));
    var left := LeftColumns(l.columns, on, Names(r.columns), s0, ps);
    var right := RightColumns(r.columns, on, Names(l.columns), s1, ps);
    Beside(|ps|, left, right)
  }

  /** The table holding `left` and then `right`, all `n` rows long. */
  function Beside(n: nat, left: seq<Column>, right: seq<Column>): (f: Table)
    requires forall j :: 0 <= j < |left| ==> |left[j].values| == n
    requires forall c :: c in right ==> |c.values| == n
    ensures f.height == n && f.columns == left + right
    ensures |f.columns| >= |left| && f.columns[..|left|] == left
  {
    SideBySide(n, left, right);
    assert (left + right)[..|left|] == left;
    Frame(n, left + right)
  }

  /** Two lists of columns of one length make a table side by side. */
  lemma SideBySide(n: nat, left: seq<Column>, right: seq<Column>)
    requires forall j :: 0 <= j < |left| ==> |left[j].values| == n
    requires forall c :: c in right ==> |c.values| == n
    ensures WellFormed(Frame(n, left + right))
  {
    var f := Frame(n, left + right);
    forall j | 0 <= j < |f.columns| ensures |f.columns[j].values| == n {
      if j < |left| {
        assert f.columns[j] == left[j];
      } else {
        assert f.columns[j] == right[j - |left|];
      }
    }
  }

  /** The left row of each join row. */
  function LeftRows(l: Table, r: Table, on: string): (idx: seq<nat>)
    requires on in Names(l.columns) && on in Names(r.columns)
    ensures |idx| == |JoinPairs(Cells(l, on), Cells(r, on))|
    ensures forall k :: 0 <= k < |idx| ==> idx[k] < l.height
    ensures idx == Lefts(JoinPairs(Cells(l, on), Cells(r, on)))
  {
    Lefts(JoinPairs(Cells(l, on), Cells(r, on)))
  }

  /** The `k`-th column of the join is the `k`-th left column, its name suffixed with `s0`
      when it is not the key and the right table has a column of that name, and its values
      taken from each join row's left row. */
  lemma JoinLeftColumn(l: Table, r: Table, on: string, s0: string, s1: string, k: nat)
    requires on in Names(l.columns) && on in Names(r.columns)
    requires k < |l.columns|
    ensures LeftJoin(l, r, on, s0, s1).columns[k] ==
      Column(if l.columns[k].name == on then on else Suffixed(l.columns[k].name, Names(r.columns), s0),
             Gather(l.columns[k].values, LeftRows(l, r, on)))
  {
    var j := LeftJoin(l, r, on, s0, s1);
    assert j.columns[k] == j.columns[..|l.columns|][k];
  }

  // ---------------------------------------------------------------------------------------
  // merge_df

  /** `rename(columns={"lat_center": "lat", "lon_center": "lon"})`. */
  function LatLon(name: string): (r: string)
    ensures r != "lat_center" && r != "lon_center"
  {
    if name == "lat_center" then "lat" else if name == "lon_center" then "lon" else name
  }

  predicate HasSuffix(s1: string, name: string) {
    Contains(name, s1)
  }

  /** The column test `merge_df` drops by: the name contains `s1`. */
  function SuffixTest(s1: string): string -> bool {
    n => HasSuffix(s1, n)
  }

  /** What `merge_df` does to the merged table: drop the columns whose name contains `s1`
      when `drop` is set, then rename the centre columns. */
  function Finish(j: Table, s1: string, drop: bool): (m: Table)
    ensures m.height == j.height
    ensures "lat_center" !in Names(m.columns) && "lon_center" !in Names(m.columns)
    ensures drop ==> forall n :: n in Names(m.columns) ==> !Contains(n, s1)
  {
    var kept := if drop then DropColumns(j.columns, SuffixTest(s1)) else j.columns;
    KeptRectangular(j, kept);
    RenamedNames(kept, s1, drop);
    Frame(j.height, RenameColumns(kept, LatLon))
  }

  /** Columns taken from a table keep its height. */
  lemma KeptRectangular(j: Table, kept: seq<Column>)
    requires forall c :: c in kept ==> c in j.columns
    ensures WellFormed(Frame(j.height, RenameColumns(kept, LatLon)))
  {
    var cols := RenameColumns(kept, LatLon);
    forall k | 0 <= k < |cols| ensures |cols[k].values| == j.height {
      assert kept[k] in kept;
    }
  }

  /** After the centre renaming no name is a centre name, and no name contains `s1` when
      none did. */
  lemma RenamedNames(kept: seq<Column>, s1: string, drop: bool)
    requires drop ==> forall c :: c in kept ==> !SuffixTest(s1)(c.name)
    ensures "lat_center" !in Names(RenameColumns(kept, LatLon))
    ensures "lon_center" !in Names(RenameColumns(kept, LatLon))
    ensures drop ==> forall n :: n in Names(RenameColumns(kept, LatLon)) ==> !Contains(n, s1)
  {
    var ns := Names(RenameColumns(kept, LatLon));
    assert forall k :: 0 <= k < |ns| ==> ns[k] == LatLon(kept[k].name);
    if drop {
      forall n | n in ns ensures !Contains(n, s1) {
        var k :| 0 <= k < |ns| && ns[k] == n;
        assert kept[k] in kept;
        RenamedKeepsNoSuffix(kept[k].name, s1);
      }
    }
  }

  /** A name without `s1` still has none after the centre renaming, because `lat` and `lon` are
      prefixes of `lat_center` and `lon_center`. */
  lemma RenamedKeepsNoSuffix(name: string, s1: string)
    requires !Contains(name, s1)
    ensures !Contains(LatLon(name), s1)
  {
    if name == "lat_center" && Contains("lat", s1) {
      ContainsPrefix("lat_center", "lat", s1);
    } else if name == "lon_center" && Contains("lon", s1) {
      ContainsPrefix("lon_center", "lon", s1);
    }
  }

  /** Reference meaning of `merge_df(l, r, on, "left", (s0, s1), drop)`. */
  function Merged(l: Table, r: Table, on: string, s0: string, s1: string, drop: bool): Table
    requires on in Names(l.columns) && on in Names(r.columns)
  {
    Finish(LeftJoin(l, r, on, s0, s1), s1, drop)
  }

  /** `merge_df`: merge, drop in place when asked, then rename. */
  method MergeDf(l: Table, r: Table, on: string, s0: string, s1: string, drop: bool) returns (out: Table)
    requires on in Names(l.columns) && on in Names(r.columns)
    ensures out == Merged(l, r, on, s0, s1, drop)
    ensures out.height >= l.height
    ensures "lat_center" !in Names(out.columns) && "lon_center" !in Names(out.columns)
    ensures drop ==> forall n :: n in Names(out.columns) ==> !Contains(n, s1)
  {
    var j := LeftJoin(l, r, on, s0, s1);
    var df := new DataFrame(j);
    if drop {
      df.Drop(SuffixTest(s1));
    }
    assert df.height == j.height;
    assert df.columns == if drop then DropColumns(j.columns, SuffixTest(s1)) else j.columns;
    assert Frame(df.height, RenameColumns(df.columns, LatLon)) == Finish(j, s1, drop);
    out := Frame(df.height, RenameColumns(df.columns, LatLon));
    MergedHeight(l, r, on, s0, s1, drop);
  }

  // ---------------------------------------------------------------------------------------
  // Properties of merge_df

  /** The merge has at least one row per left row, and exactly one per left row when the right
      keys are unique. */
  lemma MergedHeight(l: Table, r: Table, on: string, s0: string, s1: string, drop: bool)
    requires on in Names(l.columns) && on in Names(r.columns)
    ensures Merged(l, r, on, s0, s1, drop).height >= l.height
    ensures UniqueKeys(Cells(r, on)) ==> Merged(l, r, on, s0, s1, drop).height == l.height
  {
    if UniqueKeys(Cells(r, on)) {
      UniqueKeysKeepLeftRows(Cells(l, on), Cells(r, on));
    }
  }

  /** A column that is neither dropped nor renamed reads the same after `Finish`. */
  lemma FinishKeeps(j: Table, s1: string, drop: bool, c: string)
    requires c != "lat_center" && c != "lon_center" && c != "lat" && c != "lon"
    requires !(drop && Contains(c, s1))
    ensures Lookup(Finish(j, s1, drop).columns, c) == Lookup(j.columns, c)
  {
    var kept := if drop then DropColumns(j.columns, SuffixTest(s1)) else j.columns;
    if drop {
      LookupDrop(j.columns, SuffixTest(s1), c);
    }
    LookupRename(kept, LatLon, c);
  }

  /** With no left suffix every left column keeps its name in the join. */
  lemma JoinLeftNames(l: Table, r: Table, on: string, s1: string)
    requires on in Names(l.columns) && on in Names(r.columns)
    ensures forall k :: 0 <= k < |l.columns| ==> LeftJoin(l, r, on, "", s1).columns[k].name == l.columns[k].name
  {
    var j := LeftJoin(l, r, on, "", s1);
    var left := LeftColumns(l.columns, on, Names(r.columns), "", JoinPairs(Cells(l, on), Cells(r, on)));
    assert j.columns[..|l.columns|] == left;
    LeftNamesKept(l.columns, on, Names(r.columns), JoinPairs(Cells(l, on), Cells(r, on)));
    forall k | 0 <= k < |l.columns| ensures j.columns[k].name == l.columns[k].name {
      assert j.columns[k] == left[k];
    }
  }

  /** With no left suffix the left columns keep their names. */
  lemma LeftNamesKept(cols: seq<Column>, on: string, rn: seq<string>, ps: seq<Pair>)
    ensures forall k :: 0 <= k < |cols| ==> LeftColumns(cols, on, rn, "", ps)[k].name == cols[k].name
  {
    forall k | 0 <= k < |cols| ensures LeftColumns(cols, on, rn, "", ps)[k].name == cols[k].name {
      SuffixedEmpty(cols[k].name, rn);
    }
  }

  lemma SuffixedEmpty(name: string, others: seq<string>)
    ensures Suffixed(name, others, "") == name
  {
    assert name + "" == name;
  }

  /** With no left suffix a left column reads, in the join, as its values gathered along the
      join rows. */
  lemma JoinLeftLookup(l: Table, r: Table, on: string, s1: string, c: string)
    requires on in Names(l.columns) && on in Names(r.columns)
    requires c in Names(l.columns)
    ensures Lookup(LeftJoin(l, r, on, "", s1).columns, c) == Some(Gather(Cells(l, c), LeftRows(l, r, on)))
  {
    var j := LeftJoin(l, r, on, "", s1);
    var i := IndexOf(l.columns, c);
    JoinLeftNames(l, r, on, s1);
    JoinLeftColumn(l, r, on, "", s1, i);
    LookupSameNames(j.columns, l.columns, c);
  }

  /** Columns whose first names are those of `lcols` find a name of `lcols` where `lcols` does. */
  lemma LookupSameNames(cols: seq<Column>, lcols: seq<Column>, c: string)
    requires c in Names(lcols) && |cols| >= |lcols|
    requires forall k :: 0 <= k < |lcols| ==> cols[k].name == lcols[k].name
    ensures Lookup(cols, c) == Some(cols[IndexOf(lcols, c)].values)
  {
    LookupPrefix(cols, c, IndexOf(lcols, c));
  }

  /** With no left suffix, a left column that is not dropped and not one of the centre names
      keeps its values, gathered along the join rows; with unique right keys these are exactly
      the left table's values. */
  lemma LeftValuesKept(l: Table, r: Table, on: string, s1: string, drop: bool, c: string)
    requires on in Names(l.columns) && on in Names(r.columns)
    requires c in Names(l.columns)
    requires c != "lat_center" && c != "lon_center" && c != "lat" && c != "lon"
    requires !(drop && Contains(c, s1))
    ensures Lookup(Merged(l, r, on, "", s1, drop).columns, c) == Some(Gather(Cells(l, c), LeftRows(l, r, on)))
    ensures UniqueKeys(Cells(r, on)) ==> Lookup(Merged(l, r, on, "", s1, drop).columns, c) == Some(Cells(l, c))
  {
    JoinLeftLookup(l, r, on, s1, c);
    FinishKeeps(LeftJoin(l, r, on, "", s1), s1, drop, c);
    if UniqueKeys(Cells(r, on)) {
      UniqueKeysKeepLeftRows(Cells(l, on), Cells(r, on));
      assert Gather(Cells(l, c), LeftRows(l, r, on)) == Cells(l, c);
    }
  }

  /** With `drop` set, no column whose name contains `s1` is left. */
  lemma DroppedNameAbsent(l: Table, r: Table, on: string, s0: string, s1: string, name: string)
    requires on in Names(l.columns) && on in Names(r.columns)
    requires Contains(name, s1)
    ensures name !in Names(Merged(l, r, on, s0, s1, true).columns)
  {
  }

  /** A column name that is not dropped reaches the result, renamed. */
  lemma FinishRenames(j: Table, s1: string, drop: bool, name: string)
    requires name in Names(j.columns)
    requires !(drop && Contains(name, s1))
    ensures LatLon(name) in Names(Finish(j, s1, drop).columns)
  {
    var i :| 0 <= i < |j.columns| && Names(j.columns)[i] == name;
    var c := j.columns[i];
    var kept := if drop then DropColumns(j.columns, SuffixTest(s1)) else j.columns;
    assert c in j.columns && c.name == name;
    if drop {
      assert !SuffixTest(s1)(c.name);
    }
    assert c in kept;
    RenamedHas(kept, c);
    assert Finish(j, s1, drop).columns == RenameColumns(kept, LatLon);
  }

  lemma RenamedHas(kept: seq<Column>, c: Column)
    requires c in kept
    ensures LatLon(c.name) in Names(RenameColumns(kept, LatLon))
  {
    var k :| 0 <= k < |kept| && kept[k] == c;
    assert Names(RenameColumns(kept, LatLon))[k] == LatLon(c.name);
  }

  /** A left `lat_center` (or `lon_center`) that is neither the key nor present on the right,
      and is not dropped, reaches the result as `lat` (or `lon`). */
  lemma CentersRenamed(l: Table, r: Table, on: string, s0: string, s1: string, drop: bool, center: string)
    requires on in Names(l.columns) && on in Names(r.columns)
    requires center == "lat_center" || center == "lon_center"
    requires center in Names(l.columns) && center != on && center !in Names(r.columns)
    requires !(drop && Contains(center, s1))
    ensures LatLon(center) in Names(Merged(l, r, on, s0, s1, drop).columns)
  {
    var j := LeftJoin(l, r, on, s0, s1);
    var i := IndexOf(l.columns, center);
    JoinLeftColumn(l, r, on, s0, s1, i);
    assert Names(j.columns)[i] == center;
    FinishRenames(j, s1, drop, center);
  }

  /** The two-row example with a colliding `value` column: a key, the two centre columns and
      `value` on the left, the key and `value` on the right. */
  const ExampleLeft: Table := Frame(2, [Column("id", [Num(1.0), Num(2.0)]), Column("lat_center", [Num(35.0), Num(36.0)]),
                                        Column("lon_center", [Num(139.0), Num(140.0)]), Column("value", [Num(10.0), Num(20.0)])])
  const ExampleRight: Table := Frame(2, [Column("id", [Num(1.0), Num(2.0)]), Column("value", [Num(100.0), Num(200.0)])])

  /** With suffixes ("", "_right") and `drop` set, the left values 10 and 20 are kept under
      `value`, and no `value_right` column is left. */
  lemma DropKeepsLeftValues()
    ensures "id" in Names(ExampleLeft.columns) && "id" in Names(ExampleRight.columns)
    ensures Lookup(Merged(ExampleLeft, ExampleRight, "id", "", "_right", true).columns, "value") == Some([Num(10.0), Num(20.0)])
    ensures "value_right" !in Names(Merged(ExampleLeft, ExampleRight, "id", "", "_right", true).columns)
  {
    ExampleFacts();
    LeftValuesKept(ExampleLeft, ExampleRight, "id", "_right", true, "value");
    RightSuffixOccurs();
    DroppedNameAbsent(ExampleLeft, ExampleRight, "id", "", "_right", "value_right");
  }

  lemma RightSuffixOccurs()
    ensures Contains("value_right", "_right")
  {
    assert OccursAt("value_right", "_right", 5);
  }

  /** What the example's columns are. */
  lemma ExampleFacts()
    ensures "id" in Names(ExampleLeft.columns) && "id" in Names(ExampleRight.columns)
    ensures "value" in Names(ExampleLeft.columns) && Cells(ExampleLeft, "value") == [Num(10.0), Num(20.0)]
    ensures !Contains("value", "_right")
    ensures UniqueKeys(Cells(ExampleRight, "id"))
  {
    ExampleLeftColumns();
    ExampleRightKeys();
    assert |"value"| < |"_right"|;
  }

  lemma ExampleLeftColumns()
    ensures "id" in Names(ExampleLeft.columns)
    ensures "value" in Names(ExampleLeft.columns) && Cells(ExampleLeft, "value") == [Num(10.0), Num(20.0)]
  {
    assert Names(ExampleLeft.columns)[0] == "id";
    assert Names(ExampleLeft.columns)[3] == "value";
    assert IndexOf(ExampleLeft.columns, "value") == 3;
  }

  lemma ExampleRightKeys()
    ensures "id" in Names(ExampleRight.columns)
    ensures UniqueKeys(Cells(ExampleRight, "id"))
  {
    assert Names(ExampleRight.columns)[0] == "id";
    assert Cells(ExampleRight, "id") == [Num(1.0), Num(2.0)];
  }
}
