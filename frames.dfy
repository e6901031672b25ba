/** The tables the program passes around (pandas DataFrames), column by column.
    A cell is a number, text, a missing value (NaN/None) or an infinity (what pandas
    produces for a non-zero number divided by zero). */
module Frames {
  import opened Options
  import opened Seqs

  datatype Value = Missing | Num(n: real) | Infinite(positive: bool) | Text(s: string)

  datatype Column = Column(name: string, values: seq<Value>)

  /** A table has a row count of its own, so that a table without columns still has rows. */
  datatype Frame = Frame(height: nat, columns: seq<Column>)

  predicate WellFormed(f: Frame) {
    forall j :: 0 <= j < |f.columns| ==> |f.columns[j].values| == f.height
  }

  /** A table read from a CSV file is always rectangular. */
  type Table = f: Frame | WellFormed(f) witness Frame(0, [])

  function Names(cols: seq<Column>): (ns: seq<string>)
    ensures |ns| == |cols|
    ensures forall j :: 0 <= j < |cols| ==> ns[j] == cols[j].name
  {
    if |cols| == 0 then [] else [cols[0].name] + Names(cols[1..])
  }

  /** A name is among the names exactly when some column carries it. */
  lemma NamesMember(cols: seq<Column>, name: string)
    ensures name in Names(cols) <==> exists c :: c in cols && c.name == name
  {
    if name in Names(cols) {
      var j :| 0 <= j < |cols| && Names(cols)[j] == name;
      assert cols[j] in cols;
    }
  }

  /** Position of the first column called `name`. */
  function IndexOf(cols: seq<Column>, name: string): (j: nat)
    requires name in Names(cols)
    ensures j < |cols| && cols[j].name == name
    ensures forall i :: 0 <= i < j ==> cols[i].name != name
  {
    if cols[0].name == name then 0 else 1 + IndexOf(cols[1..], name)
  }

  /** `df[name]`: the values of the first column called `name`. */
  function Lookup(cols: seq<Column>, name: string): (r: Option<seq<Value>>)
    ensures r.Some? <==> name in Names(cols)
    ensures r.Some? ==> r.value == cols[IndexOf(cols, name)].values
  {
    if |cols| == 0 then None
    else if cols[0].name == name then Some(cols[0].values)
    else Lookup(cols[1..], name)
  }

  /** Columns put after others are found only when the others lack the name. */
  lemma {:induction false} LookupAppend(a: seq<Column>, b: seq<Column>, name: string)
    requires name !in Names(a)
    ensures Lookup(a + b, name) == Lookup(b, name)
  {
    if |a| > 0 {
      assert (a + b)[1..] == a[1..] + b;
      assert Names(a)[0] == a[0].name;
      assert forall j :: 0 <= j < |a| - 1 ==> Names(a[1..])[j] == Names(a)[j + 1];
      LookupAppend(a[1..], b, name);
    } else {
      assert a + b == b;
    }
  }

  function Cells(f: Frame, name: string): (vs: seq<Value>)
    requires WellFormed(f) && name in Names(f.columns)
    ensures |vs| == f.height
    ensures Lookup(f.columns, name) == Some(vs)
  {
    f.columns[IndexOf(f.columns, name)].values
  }

  /** Row `i` of a table, left to right. */
  function Row(f: Frame, i: nat): seq<Value>
    requires WellFormed(f) && i < f.height
  {
    seq(|f.columns|, j requires 0 <= j < |f.columns| => f.columns[j].values[i])
  }

  function Rows(f: Frame): seq<seq<Value>>
    requires WellFormed(f)
  {
    seq(f.height, i requires 0 <= i < f.height => Row(f, i))
  }

  // ---------------------------------------------------------------------------------------
  // Row selection: `df[mask]`

  function SelectRows(f: Frame, idx: seq<nat>): (r: Frame)
    requires WellFormed(f)
    requires forall k :: 0 <= k < |idx| ==> idx[k] < f.height
    ensures WellFormed(r) && r.height == |idx| && Names(r.columns) == Names(f.columns)
  {
    var cols := seq(|f.columns|, j requires 0 <= j < |f.columns| =>
      Column(f.columns[j].name, Gather(f.columns[j].values, idx)));
    assert Names(cols) == Names(f.columns);
    Frame(|idx|, cols)
  }

  /** `df[keep(df[name])]`: the rows whose `name` cell `keep` accepts, in their order. */
  function Where(f: Frame, name: string, keep: Value -> bool): (r: Frame)
    requires WellFormed(f) && name in Names(f.columns)
    ensures WellFormed(r) && Names(r.columns) == Names(f.columns)
    ensures r.height <= f.height
  {
    SelectRows(f, Matching(Cells(f, name), keep))
  }

  lemma {:induction false} MatchingAll(vs: seq<Value>, keep: Value -> bool)
    requires forall i :: 0 <= i < |vs| ==> keep(vs[i])
    ensures Matching(vs, keep) == Range(|vs|)
  {
    if |vs| > 0 {
      MatchingAll(vs[..|vs| - 1], keep);
    }
  }

  lemma SelectAll(f: Frame)
    requires WellFormed(f)
    ensures SelectRows(f, Range(f.height)) == f
  {
    var r := SelectRows(f, Range(f.height));
    forall j | 0 <= j < |f.columns| ensures r.columns[j] == f.columns[j] {
      assert r.columns[j].values == f.columns[j].values;
    }
  }

  /** Every row that `Where` keeps is accepted, and each comes from the input row at the
      corresponding matching position, so the kept rows appear in their original order. */
  lemma WhereRows(f: Frame, name: string, keep: Value -> bool)
    requires WellFormed(f) && name in Names(f.columns)
    ensures var r := Where(f, name, keep); var idx := Matching(Cells(f, name), keep);
      && name in Names(r.columns)
      && r.height == |idx|
      && (forall k :: 0 <= k < r.height ==> keep(Cells(r, name)[k]))
      && (forall k :: 0 <= k < r.height ==> Row(r, k) == Row(f, idx[k]))
  {
    var r := Where(f, name, keep);
    var idx := Matching(Cells(f, name), keep);
    var j := IndexOf(f.columns, name);
    assert IndexOf(r.columns, name) == j by {
      assert forall i :: 0 <= i < |r.columns| ==> r.columns[i].name == f.columns[i].name;
    }
  }

  /** Filtering twice by the same condition is filtering once. */
  lemma WhereIdempotent(f: Frame, name: string, keep: Value -> bool)
    requires WellFormed(f) && name in Names(f.columns)
    ensures var r := Where(f, name, keep); name in Names(r.columns) && Where(r, name, keep) == r
  {
    var r := Where(f, name, keep);
    WhereRows(f, name, keep);
    MatchingAll(Cells(r, name), keep);
    SelectAll(r);
  }

  /** When every row is accepted nothing is removed. */
  lemma WhereAll(f: Frame, name: string, keep: Value -> bool)
    requires WellFormed(f) && name in Names(f.columns)
    requires forall i :: 0 <= i < f.height ==> keep(Cells(f, name)[i])
    ensures Where(f, name, keep) == f
  {
    MatchingAll(Cells(f, name), keep);
    SelectAll(f);
  }

  /** A condition that accepts nothing selects no row. */
  lemma {:induction false} MatchingNone(vs: seq<Value>, keep: Value -> bool)
    requires forall v :: !keep(v)
    ensures Matching(vs, keep) == []
  {
    if |vs| > 0 {
      MatchingNone(vs[..|vs| - 1], keep);
    }
  }

  /** A column of a selection is the selection of the column. */
  lemma CellsSelect(f: Frame, idx: seq<nat>, name: string)
    requires WellFormed(f) && name in Names(f.columns)
    requires forall k :: 0 <= k < |idx| ==> idx[k] < f.height
    ensures name in Names(SelectRows(f, idx).columns)
    ensures Cells(SelectRows(f, idx), name) == Gather(Cells(f, name), idx)
  {
    var r := SelectRows(f, idx);
    assert IndexOf(r.columns, name) == IndexOf(f.columns, name) by {
      assert forall i :: 0 <= i < |r.columns| ==> r.columns[i].name == f.columns[i].name;
    }
  }

  /** Selecting twice is selecting the composed positions once. */
  lemma SelectSelect(f: Frame, a: seq<nat>, b: seq<nat>)
    requires WellFormed(f)
    requires forall k :: 0 <= k < |a| ==> a[k] < f.height
    requires forall k :: 0 <= k < |b| ==> b[k] < |a|
    ensures SelectRows(SelectRows(f, a), b) == SelectRows(f, Gather(a, b))
  {
    var g := SelectRows(f, a);
    var r1, r2 := SelectRows(g, b), SelectRows(f, Gather(a, b));
    forall j | 0 <= j < |f.columns| ensures r1.columns[j] == r2.columns[j] {
      assert r1.columns[j].values == r2.columns[j].values;
    }
  }

  // ---------------------------------------------------------------------------------------
  // Column operations

  /** The columns `drop` leaves in place. */
  function Kept(drop: string -> bool): Column -> bool {
    (c: Column) => !drop(c.name)
  }

  /** `df.drop(columns=[c for c in df.columns if drop(c)])`: the columns whose name `drop`
      rejects, each once and in their original order. */
  function DropColumns(cols: seq<Column>, drop: string -> bool): (r: seq<Column>)
    ensures forall c :: c in r ==> c in cols && !drop(c.name)
    ensures forall c :: c in cols && !drop(c.name) ==> c in r
    ensures r == Gather(cols, Matching(cols, Kept(drop)))
  {
    if |cols| == 0 then []
    else
      var init, last := cols[..|cols| - 1], cols[|cols| - 1];
      var prev := DropColumns(init, drop);
      DropLast(cols, drop);
      var r := if drop(last.name) then prev else prev + [last];
      assert forall c :: c in cols && !drop(c.name) ==> c in r by {
        forall c | c in cols && !drop(c.name) ensures c in r {
          var i :| 0 <= i < |cols| && cols[i] == c;
          if i < |cols| - 1 {
            assert c in init;
          }
        }
      }
      r
  }

  /** The kept positions of a list are those of all but its last column, followed by the
      last position when the last column is kept. */
  lemma DropLast(cols: seq<Column>, drop: string -> bool)
    requires |cols| > 0
    ensures var init, last := cols[..|cols| - 1], cols[|cols| - 1];
      Gather(cols, Matching(cols, Kept(drop))) ==
      Gather(init, Matching(init, Kept(drop))) + (if drop(last.name) then [] else [last])
  {
    var init, last := cols[..|cols| - 1], cols[|cols| - 1];
    var m := Matching(init, Kept(drop));
    assert Matching(cols, Kept(drop)) == if Kept(drop)(last) then m + [|cols| - 1] else m;
    assert Gather(cols, m) == Gather(init, m);
  }

  /** `Lookup` finds the column at `i` when no earlier column has the name. */
  lemma {:induction false} LookupPrefix(cols: seq<Column>, name: string, i: nat)
    requires i < |cols| && cols[i].name == name
    requires forall k :: 0 <= k < i ==> cols[k].name != name
    ensures Lookup(cols, name) == Some(cols[i].values)
  {
    if i > 0 {
      LookupPrefix(cols[1..], name, i - 1);
    }
  }

  /** A column put last is found only when the others lack its name. */
  lemma LookupSnoc(a: seq<Column>, x: Column, name: string)
    ensures Lookup(a + [x], name) ==
      if name in Names(a) then Lookup(a, name) else if x.name == name then Some(x.values) else None
  {
    if name in Names(a) {
      var i := IndexOf(a, name);
      LookupPrefix(a + [x], name, i);
    } else {
      LookupAppend(a, [x], name);
    }
  }

  /** A name the first columns have is found among them. */
  lemma LookupFront(a: seq<Column>, b: seq<Column>, name: string)
    requires name in Names(a)
    ensures Lookup(a + b, name) == Lookup(a, name)
  {
    LookupPrefix(a + b, name, IndexOf(a, name));
  }

  /** When `out` renames `cols` position by position and exactly the columns called `n` get the
      name `m`, looking up `m` in `out` finds the column that looking up `n` finds in `cols`. */
  lemma LookupCorresponding(cols: seq<Column>, out: seq<Column>, n: string, m: string)
    requires |out| == |cols| && n in Names(cols)
    requires forall i :: 0 <= i < |cols| ==> (out[i].name == m <==> cols[i].name == n)
    ensures m in Names(out) && Lookup(out, m) == Some(out[IndexOf(cols, n)].values)
  {
    var i := IndexOf(cols, n);
    LookupPrefix(out, m, i);
  }

  /** Dropping other columns does not change what a name refers to. */
  lemma {:induction false} LookupDrop(cols: seq<Column>, drop: string -> bool, name: string)
    requires !drop(name)
    ensures Lookup(DropColumns(cols, drop), name) == Lookup(cols, name)
  {
    if |cols| > 0 {
      var init, last := cols[..|cols| - 1], cols[|cols| - 1];
      assert cols == init + [last];
      var prev := DropColumns(init, drop);
      LookupDrop(init, drop, name);
      LookupSnoc(init, last, name);
      if !drop(last.name) {
        LookupSnoc(prev, last, name);
      }
    }
  }

  /** `df.rename(columns=...)` for a renaming given as a function. */
  function RenameColumns(cols: seq<Column>, rename: string -> string): (r: seq<Column>)
    ensures |r| == |cols|
    ensures forall j :: 0 <= j < |cols| ==> r[j] == Column(rename(cols[j].name), cols[j].values)
  {
    seq(|cols|, j requires 0 <= j < |cols| => Column(rename(cols[j].name), cols[j].values))
  }

  /** Renaming that leaves `name` alone and sends no other name to it does not change what
      `name` refers to. */
  lemma {:induction false} LookupRename(cols: seq<Column>, rename: string -> string, name: string)
    requires rename(name) == name
    requires forall n :: rename(n) == name ==> n == name
    ensures Lookup(RenameColumns(cols, rename), name) == Lookup(cols, name)
  {
    if |cols| > 0 {
      LookupRename(cols[1..], rename, name);
      assert RenameColumns(cols, rename)[1..] == RenameColumns(cols[1..], rename);
    }
  }

  /** `df[name] = vs`: replaces the column called `name`, or appends it when absent. */
  function SetColumn(f: Frame, name: string, vs: seq<Value>): (r: Frame)
    requires WellFormed(f) && |vs| == f.height
    ensures WellFormed(r) && r.height == f.height
    ensures name in Names(r.columns) && Cells(r, name) == vs
    ensures forall n :: n != name ==> Lookup(r.columns, n) == Lookup(f.columns, n)
    ensures name in Names(f.columns) ==> Names(r.columns) == Names(f.columns)
    ensures name !in Names(f.columns) ==> Names(r.columns) == Names(f.columns) + [name]
  {
    var cols := ReplaceOrAppend(f.columns, name, vs);
    var r := Frame(f.height, cols);
    ReplaceOrAppendLookup(f.columns, name, vs, name);
    assert forall n :: n != name ==> Lookup(cols, n) == Lookup(f.columns, n) by {
      forall n | n != name {
        ReplaceOrAppendLookup(f.columns, name, vs, n);
      }
    }
    assert WellFormed(r) by {
      forall j | 0 <= j < |cols| ensures |cols[j].values| == f.height {
        assert cols[j] in cols;
        if cols[j] in f.columns {
          var i :| 0 <= i < |f.columns| && f.columns[i] == cols[j];
        }
      }
    }
    r
  }

  function ReplaceOrAppend(cols: seq<Column>, name: string, vs: seq<Value>): (r: seq<Column>)
    ensures name in Names(cols) ==> Names(r) == Names(cols)
    ensures name !in Names(cols) ==> Names(r) == Names(cols) + [name]
    ensures forall c :: c in r ==> c in cols || c == Column(name, vs)
  {
    if |cols| == 0 then [Column(name, vs)]
    else if cols[0].name == name then [Column(name, vs)] + cols[1..]
    else
      var rest := ReplaceOrAppend(cols[1..], name, vs);
      assert ([cols[0]] + rest)[1..] == rest;
      [cols[0]] + rest
  }

  /** After replacing or appending, `name` reads as the new values and every other name as
      before. */
  lemma {:induction false} ReplaceOrAppendLookup(cols: seq<Column>, name: string, vs: seq<Value>, n: string)
    ensures Lookup(ReplaceOrAppend(cols, name, vs), n) == if n == name then Some(vs) else Lookup(cols, n)
  {
    if |cols| > 0 && cols[0].name != name {
      var rest := ReplaceOrAppend(cols[1..], name, vs);
      assert ([cols[0]] + rest)[1..] == rest;
      ReplaceOrAppendLookup(cols[1..], name, vs, n);
    } else if |cols| > 0 {
      assert ([Column(name, vs)] + cols[1..])[1..] == cols[1..];
    }
  }

  /** `df[[a, b, ...]]`: the named columns, in the order asked for. */
  function Project(f: Frame, names: seq<string>): (r: Frame)
    requires WellFormed(f) && forall k :: 0 <= k < |names| ==> names[k] in Names(f.columns)
    ensures WellFormed(r) && r.height == f.height && Names(r.columns) == names
    ensures forall k :: 0 <= k < |names| ==> r.columns[k].values == Cells(f, names[k])
  {
    Frame(f.height, seq(|names|, k requires 0 <= k < |names| => Column(names[k], Cells(f, names[k]))))
  }

  // ---------------------------------------------------------------------------------------
  // A DataFrame object that is changed in place

  class DataFrame {
    var height: nat
    var columns: seq<Column>

    ghost predicate Valid()
      reads this
    {
      WellFormed(Frame(height, columns))
    }

    function Snapshot(): Frame
      reads this
    {
      Frame(height, columns)
    }

    constructor (f: Frame)
      requires WellFormed(f)
      ensures Valid() && Snapshot() == f
    {
      height := f.height;
      columns := f.columns;
    }

    /** `df.drop(columns=[c for c in df.columns if drop(c)], inplace=True)`. */
    method Drop(drop: string -> bool)
      requires Valid()
      modifies this
      ensures Valid() && height == old(height)
      ensures columns == DropColumns(old(columns), drop)
    {
      columns := DropColumns(columns, drop);
      assert forall j :: 0 <= j < |columns| ==> columns[j] in old(columns);
    }

    /** `df[name] = vs`. */
    method Assign(name: string, vs: seq<Value>)
      requires Valid() && |vs| == height
      modifies this
      ensures Valid() && Snapshot() == SetColumn(old(Snapshot()), name, vs)
    {
      var r := SetColumn(Snapshot(), name, vs);
      columns := r.columns;
    }
  }
}
