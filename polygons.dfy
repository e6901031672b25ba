/** `lonlat_to_polygon` and `make_polygons` in app/common/utils.py: an axis-aligned box per row,
    built the way shapely's `box(minx, miny, maxx, maxy)` builds it (a closed ring, counter-
    clockwise from the lower right corner), with the bounds and the area shapely reports. */
module Polygons {
  import opened Options
  import opened Seqs
  import opened Frames

  /** A polygon without holes: its closed exterior ring (first point repeated at the end). */
  datatype Polygon<C> = Polygon(shell: seq<(C, C)>)

  /** shapely's `box(minx, miny, maxx, maxy)`. */
  function Box<C>(minx: C, miny: C, maxx: C, maxy: C): (p: Polygon<C>)
    ensures |p.shell| == 5 && p.shell[0] == p.shell[4]
    ensures forall i :: 0 <= i < 5 ==> p.shell[i].0 in {minx, maxx} && p.shell[i].1 in {miny, maxy}
  {
    Polygon([(maxx, miny), (maxx, maxy), (minx, maxy), (minx, miny), (maxx, miny)])
  }

  /** `lonlat_to_polygon(lon_min, lat_min, lon_max, lat_max)`. */
  function LonLatToPolygon(lonMin: real, latMin: real, lonMax: real, latMax: real): Polygon<real>
  {
    Box(lonMin, latMin, lonMax, latMax)
  }

  function Min(a: real, b: real): real { if a <= b then a else b }
  function Max(a: real, b: real): real { if a <= b then b else a }
  function Abs(a: real): real { if a < 0.0 then -a else a }

  /** `(minx, miny, maxx, maxy)` of a non-empty ring. */
  datatype Bounds = Bounds(minx: real, miny: real, maxx: real, maxy: real)

  /** shapely's `bounds`: the least and greatest coordinates over the ring. */
  function BoundsOf(s: seq<(real, real)>): (b: Bounds)
    requires |s| > 0
    ensures forall i :: 0 <= i < |s| ==> b.minx <= s[i].0 <= b.maxx && b.miny <= s[i].1 <= b.maxy
  {
    if |s| == 1 then Bounds(s[0].0, s[0].1, s[0].0, s[0].1)
    else
      var r := BoundsOf(s[1..]);
      assert forall i :: 1 <= i < |s| ==> s[i] == s[1..][i - 1];
      Bounds(Min(s[0].0, r.minx), Min(s[0].1, r.miny), Max(s[0].0, r.maxx), Max(s[0].1, r.maxy))
  }

  predicate HasX(s: seq<(real, real)>, v: real) { exists i :: 0 <= i < |s| && s[i].0 == v }
  predicate HasY(s: seq<(real, real)>, v: real) { exists i :: 0 <= i < |s| && s[i].1 == v }

  lemma Occurs(s: seq<(real, real)>, v: real, w: real)
    requires |s| > 0
    ensures (HasX(s[1..], v) || v == s[0].0) ==> HasX(s, v)
    ensures (HasY(s[1..], w) || w == s[0].1) ==> HasY(s, w)
  {
    if HasX(s[1..], v) {
      var i :| 0 <= i < |s[1..]| && s[1..][i].0 == v;
      assert s[i + 1].0 == v;
    }
    if HasY(s[1..], w) {
      var i :| 0 <= i < |s[1..]| && s[1..][i].1 == w;
      assert s[i + 1].1 == w;
    }
    assert s[0].0 == s[0].0 && s[0].1 == s[0].1;
  }

  /** The bounds are attained: each of the four is a coordinate of some point of the ring. */
  lemma {:induction false} BoundsAttained(s: seq<(real, real)>)
    requires |s| > 0
    ensures var b := BoundsOf(s);
      HasX(s, b.minx) && HasX(s, b.maxx) && HasY(s, b.miny) && HasY(s, b.maxy)
  {
    if |s| == 1 {
      Occurs(s, s[0].0, s[0].1);
    } else {
      BoundsAttained(s[1..]);
      var b := BoundsOf(s);
      Occurs(s, b.minx, b.miny);
      Occurs(s, b.maxx, b.maxy);
    }
  }

  /** The shoelace sum of a ring: twice its signed area. */
  function Shoelace(s: seq<(real, real)>): real
  {
    if |s| < 2 then 0.0 else s[0].0 * s[1].1 - s[1].0 * s[0].1 + Shoelace(s[1..])
  }

  /** shapely's `area` of a polygon without holes. */
  function Area(p: Polygon<real>): (a: real)
    ensures a >= 0.0
  {
    Abs(Shoelace(p.shell)) / 2.0
  }

  /** A box has the bounds of its corners, whichever order they were given in. */
  lemma BoxBounds(minx: real, miny: real, maxx: real, maxy: real)
    ensures BoundsOf(Box(minx, miny, maxx, maxy).shell) ==
            Bounds(Min(minx, maxx), Min(miny, maxy), Max(minx, maxx), Max(miny, maxy))
  {
    var s := Box(minx, miny, maxx, maxy).shell;
    var t1, t2, t3, t4 := s[1..], s[1..][1..], s[1..][1..][1..], s[1..][1..][1..][1..];
    assert t4 == [(maxx, miny)];
    assert BoundsOf(t4) == Bounds(maxx, miny, maxx, miny);
    assert BoundsOf(t3) == Bounds(Min(minx, maxx), miny, Max(minx, maxx), miny);
    assert BoundsOf(t2) == Bounds(Min(minx, maxx), Min(miny, maxy), Max(minx, maxx), Max(miny, maxy));
    assert BoundsOf(t1) == BoundsOf(t2);
  }

  /** Built from ordered corners, the box's bounds are exactly the four arguments. */
  lemma OrderedBoxBounds(lonMin: real, latMin: real, lonMax: real, latMax: real)
    requires lonMin <= lonMax && latMin <= latMax
    ensures BoundsOf(LonLatToPolygon(lonMin, latMin, lonMax, latMax).shell) == Bounds(lonMin, latMin, lonMax, latMax)
  {
    BoxBounds(lonMin, latMin, lonMax, latMax);
  }

  /** The area of a box is width times height. */
  lemma BoxArea(minx: real, miny: real, maxx: real, maxy: real)
    ensures Area(Box(minx, miny, maxx, maxy)) == Abs((maxx - minx) * (maxy - miny))
  {
    var s := Box(minx, miny, maxx, maxy).shell;
    var t1, t2, t3 := s[1..], s[1..][1..], s[1..][1..][1..];
    assert Shoelace(t3[1..]) == 0.0;
    assert Shoelace(t3) == minx * miny - maxx * miny;
    assert Shoelace(t2) == minx * miny - minx * maxy + Shoelace(t3);
    assert Shoelace(t1) == maxx * maxy - minx * maxy + Shoelace(t2);
    assert Shoelace(s) == maxx * maxy - maxx * miny + Shoelace(t1);
    assert (maxx - minx) * (maxy - miny) == maxx * maxy - maxx * miny - minx * maxy + minx * miny;
    assert Shoelace(s) == 2.0 * ((maxx - minx) * (maxy - miny));
  }

  /** A box whose corners coincide has area 0, and so does one of zero width or height. */
  lemma DegenerateBoxArea(lon: real, lat: real, lonMax: real, latMax: real)
    ensures Area(LonLatToPolygon(lon, lat, lon, lat)) == 0.0
    ensures Area(LonLatToPolygon(lon, lat, lon, latMax)) == 0.0
    ensures Area(LonLatToPolygon(lon, lat, lonMax, lat)) == 0.0
  {
    BoxArea(lon, lat, lon, lat);
    BoxArea(lon, lat, lon, latMax);
    BoxArea(lon, lat, lonMax, lat);
  }

  // ---------------------------------------------------------------------------------------
  // make_polygons

  /** `df[["lon_min", "lat_min", "lon_max", "lat_max"]]` exists. */
  predicate HasCorners(f: Table) {
    "lon_min" in Names(f.columns) && "lat_min" in Names(f.columns) &&
    "lon_max" in Names(f.columns) && "lat_max" in Names(f.columns)
  }

  /** `gpd.GeoDataFrame(df[[value]].copy(), geometry=polygons)`: the value column and the
      geometry column, row by row. */
  datatype GeoFrame = GeoFrame(valueName: string, values: seq<Value>, geometry: seq<Polygon<Value>>)

  function GeoColumns(g: GeoFrame): seq<string>
  {
    [g.valueName, "geometry"]
  }

  /** A corner shapely cannot read as a float: text. Missing values become NaN coordinates and
      infinities stay infinite; both are accepted. */
  predicate Readable(vs: seq<Value>) {
    forall i :: 0 <= i < |vs| ==> !vs[i].Text?
  }

  /** Every coordinate column is present and readable, and the value column is present. */
  predicate Polygonable(f: Table, value: string) {
    && HasCorners(f)
    && value in Names(f.columns)
    && Readable(Cells(f, "lon_min")) && Readable(Cells(f, "lat_min"))
    && Readable(Cells(f, "lon_max")) && Readable(Cells(f, "lat_max"))
  }

  /** The box of row `i`. */
  function RowBox(f: Table, i: nat): Polygon<Value>
    requires HasCorners(f) && i < f.height
  {
    Box(Cells(f, "lon_min")[i], Cells(f, "lat_min")[i], Cells(f, "lon_max")[i], Cells(f, "lat_max")[i])
  }

  /** `make_polygons(df, value)`: None when a column is missing (KeyError) or a corner is text. */
  function MakePolygons(f: Table, value: string): (g: Option<GeoFrame>)
    ensures g.Some? <==> Polygonable(f, value)
    ensures g.Some? ==>
      && GeoColumns(g.value) == [value, "geometry"]
      && |g.value.values| == |g.value.geometry| == f.height
      && g.value.values == Cells(f, value)
      && forall i :: 0 <= i < f.height ==> g.value.geometry[i] == RowBox(f, i)
  {
    if !Polygonable(f, value) then None
    else Some(GeoFrame(value, Cells(f, value), seq(f.height, i requires 0 <= i < f.height => RowBox(f, i))))
  }

  /** A polygon over numbers, as table cells. */
  function Lift(p: Polygon<real>): (q: Polygon<Value>)
    ensures |q.shell| == |p.shell|
    ensures forall j :: 0 <= j < |p.shell| ==> q.shell[j] == (Num(p.shell[j].0), Num(p.shell[j].1))
  {
    Polygon(seq(|p.shell|, j requires 0 <= j < |p.shell| => (Num(p.shell[j].0), Num(p.shell[j].1))))
  }

  /** For a row with numeric corners, the geometry is exactly `lonlat_to_polygon` of them. */
  lemma NumericRow(f: Table, value: string, i: nat)
    requires Polygonable(f, value) && i < f.height
    requires Cells(f, "lon_min")[i].Num? && Cells(f, "lat_min")[i].Num?
    requires Cells(f, "lon_max")[i].Num? && Cells(f, "lat_max")[i].Num?
    ensures MakePolygons(f, value).value.geometry[i] ==
      Lift(LonLatToPolygon(Cells(f, "lon_min")[i].n, Cells(f, "lat_min")[i].n,
                           Cells(f, "lon_max")[i].n, Cells(f, "lat_max")[i].n))
  {
    LiftBox(Cells(f, "lon_min")[i].n, Cells(f, "lat_min")[i].n, Cells(f, "lon_max")[i].n, Cells(f, "lat_max")[i].n);
  }

  lemma LiftBox(a: real, b: real, c: real, d: real)
    ensures Lift(Box(a, b, c, d)) == Box(Num(a), Num(b), Num(c), Num(d))
  {
    assert Lift(Box(a, b, c, d)).shell == Box(Num(a), Num(b), Num(c), Num(d)).shell;
  }
}
