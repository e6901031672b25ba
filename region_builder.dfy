/** Region selection (app/common/region_builder.py). The three master tables are lists of
    typed rows (reading the CSV files is not modelled), and each widget answer is an input:
    `st.pills` gives the chosen option or None, the multi-select gives the chosen names. */
module Regions {
  import opened Options
  import opened PyDict
  import opened Seqs

  /** A row of the region master: which region a prefecture belongs to. */
  datatype RegionRow = RegionRow(regionname: string, prefcode: int, prefname: string)

  /** A row of the prefecture/city master. */
  datatype CityRow = CityRow(prefcode: int, prefname: string, citycode: int, cityname: string)

  /** A row of the Hokkaido sub-region master. */
  datatype HokkaidoRow = HokkaidoRow(regionname: string, cityname: string)

  datatype Masters = Masters(regions: seq<RegionRow>, cities: seq<CityRow>, hokkaido: seq<HokkaidoRow>)

  /** The widget answers: region, Hokkaido sub-region, prefecture (asked only when the region
      has several) and the chosen city names. */
  datatype Picks = Picks(region: Option<string>, subregion: Option<string>, pref: Option<string>, cities: seq<string>)

  // ---------------------------------------------------------------------------------------
  // _load_region

  const RegionMasterPath := "assets/regioncode_master_utf8_2020.csv"
  const CityMasterPath := "assets/prefcode_citycode_master_utf8_2020.csv"
  const HokkaidoMasterPath := "assets/hokkaido_regionname_master.csv"

  /** `_load_region(f)`: which master file is read. */
  function RegionPath(f: string): (path: string)
    ensures f == "pref" <==> path == RegionMasterPath
    ensures f == "city" <==> path == CityMasterPath
    ensures f != "pref" && f != "city" <==> path == HokkaidoMasterPath
  {
    if f == "pref" then RegionMasterPath
    else if f == "city" then CityMasterPath
    else HokkaidoMasterPath
  }

  // ---------------------------------------------------------------------------------------
  // prefcode_to_name

  function PrefCodes(rows: seq<CityRow>): (r: seq<int>)
    ensures |r| == |rows| && forall i :: 0 <= i < |rows| ==> r[i] == rows[i].prefcode
  {
    seq(|rows|, i requires 0 <= i < |rows| => rows[i].prefcode)
  }

  function PrefNames(rows: seq<CityRow>): (r: seq<string>)
    ensures |r| == |rows| && forall i :: 0 <= i < |rows| ==> r[i] == rows[i].prefname
  {
    seq(|rows|, i requires 0 <= i < |rows| => rows[i].prefname)
  }

  function CityCodes(rows: seq<CityRow>): (r: seq<int>)
    ensures |r| == |rows| && forall i :: 0 <= i < |rows| ==> r[i] == rows[i].citycode
  {
    seq(|rows|, i requires 0 <= i < |rows| => rows[i].citycode)
  }

  function CityNames(rows: seq<CityRow>): (r: seq<string>)
    ensures |r| == |rows| && forall i :: 0 <= i < |rows| ==> r[i] == rows[i].cityname
  {
    seq(|rows|, i requires 0 <= i < |rows| => rows[i].cityname)
  }

  /** `prefcode_to_name()`: `dict(zip(codes, names))` for prefectures and for cities, over the
      rows of the city master. */
  function PrefcodeToName(rows: seq<CityRow>): (Dict<int, string>, Dict<int, string>)
  {
    (FromZip(PrefCodes(rows), PrefNames(rows)), FromZip(CityCodes(rows), CityNames(rows)))
  }

  /** Each map has distinct keys, exactly the codes of the master, at most one entry per row,
      and for a repeated code the name of the last row with it. */
  lemma PrefcodeToNameMaps(rows: seq<CityRow>, code: int)
    ensures var (pd, cd) := PrefcodeToName(rows);
      && DistinctKeys(pd) && DistinctKeys(cd)
      && (code in KeySet(pd) <==> exists i :: 0 <= i < |rows| && rows[i].prefcode == code)
      && (code in KeySet(cd) <==> exists i :: 0 <= i < |rows| && rows[i].citycode == code)
      && |pd| <= |rows| && |cd| <= |rows|
      && Get(pd, code) == LastValue(Zip(PrefCodes(rows), PrefNames(rows)), code)
      && Get(cd, code) == LastValue(Zip(CityCodes(rows), CityNames(rows)), code)
  {
    var pz, cz := Zip(PrefCodes(rows), PrefNames(rows)), Zip(CityCodes(rows), CityNames(rows));
    FromItemsShape(pz);
    FromItemsShape(cz);
    FromItemsLastWins(pz, code);
    FromItemsLastWins(cz, code);
    KeySetMember(pz, code);
    KeySetMember(cz, code);
    if exists i :: 0 <= i < |rows| && rows[i].prefcode == code {
      var i :| 0 <= i < |rows| && rows[i].prefcode == code;
      assert pz[i].0 == code;
    }
    if exists i :: 0 <= i < |rows| && rows[i].citycode == code {
      var i :| 0 <= i < |rows| && rows[i].citycode == code;
      assert cz[i].0 == code;
    }
  }

  // ---------------------------------------------------------------------------------------
  // region_builder

  /** `df["regionname"].unique()`: each region once, in order of first appearance. */
  function Unique(xs: seq<string>): (r: seq<string>)
    ensures forall i, j :: 0 <= i < j < |r| ==> r[i] != r[j]
    ensures forall x :: x in r <==> x in xs
    ensures forall i, j :: 0 <= i < j < |r| ==> r[i] in xs && r[j] in xs && FirstAt(xs, r[i]) < FirstAt(xs, r[j])
  {
    if |xs| == 0 then []
    else
      var front, last := xs[..|xs| - 1], xs[|xs| - 1];
      var init := Unique(front);
      assert xs == front + [last];
      var r := if last in init then init else init + [last];
      UniqueOrder(xs, init, r);
      r
  }

  /** Adding the last element when it is new keeps the first occurrences increasing. */
  lemma UniqueOrder(xs: seq<string>, init: seq<string>, r: seq<string>)
    requires |xs| > 0
    requires forall x :: x in init <==> x in xs[..|xs| - 1]
    requires forall i, j :: 0 <= i < j < |init| ==>
      init[i] in xs[..|xs| - 1] && init[j] in xs[..|xs| - 1] &&
      FirstAt(xs[..|xs| - 1], init[i]) < FirstAt(xs[..|xs| - 1], init[j])
    requires r == if xs[|xs| - 1] in init then init else init + [xs[|xs| - 1]]
    ensures forall i, j :: 0 <= i < j < |r| ==> r[i] in xs && r[j] in xs && FirstAt(xs, r[i]) < FirstAt(xs, r[j])
  {
    var front := xs[..|xs| - 1];
    forall i, j | 0 <= i < j < |r| ensures r[i] in xs && r[j] in xs && FirstAt(xs, r[i]) < FirstAt(xs, r[j]) {
      assert r[i] in init;
      FirstAtFront(xs, r[i]);
      if j < |init| {
        assert r[j] in init;
        FirstAtFront(xs, r[j]);
      } else {
        assert FirstAt(xs, r[j]) == |xs| - 1;
      }
    }
  }

  function RegionNames(rows: seq<RegionRow>): (r: seq<string>)
    ensures |r| == |rows| && forall i :: 0 <= i < |rows| ==> r[i] == rows[i].regionname
  {
    seq(|rows|, i requires 0 <= i < |rows| => rows[i].regionname)
  }

  /** The options of the first widget. */
  function RegionOptions(m: Masters): seq<string>
  {
    Unique(RegionNames(m.regions))
  }

  /** The rows of a region. */
  function InRegion(region: string): RegionRow -> bool {
    (r: RegionRow) => r.regionname == region
  }

  /** `df[df["regionname"] == region]["prefname"].tolist()`: one name per row of the region, in
      row order, so a prefecture listed twice is counted twice. */
  function Prefectures(rows: seq<RegionRow>, region: string): (ps: seq<string>)
    ensures forall p :: p in ps <==> exists r :: r in rows && r.regionname == region && r.prefname == p
    ensures var idx := Matching(rows, InRegion(region));
      |ps| == |idx| && forall k :: 0 <= k < |ps| ==> ps[k] == rows[idx[k]].prefname
    ensures |ps| <= |rows|
  {
    if |rows| == 0 then []
    else
      var init, last := rows[..|rows| - 1], rows[|rows| - 1];
      var prev := Prefectures(init, region);
      var ps := if last.regionname == region then prev + [last.prefname] else prev;
      PrefecturesLast(rows, region, prev, ps);
      ps
  }

  /** The step of `Prefectures`: the last row adds its name exactly when it is of the region. */
  lemma PrefecturesLast(rows: seq<RegionRow>, region: string, prev: seq<string>, ps: seq<string>)
    requires |rows| > 0
    requires var init := rows[..|rows| - 1];
      && (forall p :: p in prev <==> exists r :: r in init && r.regionname == region && r.prefname == p)
      && var idx := Matching(init, InRegion(region));
         |prev| == |idx| && forall k :: 0 <= k < |prev| ==> prev[k] == init[idx[k]].prefname
    requires ps == if rows[|rows| - 1].regionname == region then prev + [rows[|rows| - 1].prefname] else prev
    ensures forall p :: p in ps <==> exists r :: r in rows && r.regionname == region && r.prefname == p
    ensures var idx := Matching(rows, InRegion(region));
      |ps| == |idx| && forall k :: 0 <= k < |ps| ==> ps[k] == rows[idx[k]].prefname
  {
    var init, last := rows[..|rows| - 1], rows[|rows| - 1];
    assert rows == init + [last];
    var m := Matching(init, InRegion(region));
    assert Matching(rows, InRegion(region)) == if InRegion(region)(last) then m + [|rows| - 1] else m;
    assert forall r :: r in rows <==> r in init || r == last;
  }

  /** The prefecture in use: the only one of the region, otherwise the widget's answer. */
  function SelectedPrefecture(prefs: seq<string>, pick: Option<string>): (sel: Option<string>)
    ensures |prefs| == 1 ==> sel == Some(prefs[0])
    ensures |prefs| != 1 ==> sel == pick
  {
    if |prefs| == 1 then Some(prefs[0]) else pick
  }

  /** The `(prefcode, prefname)` records of the rows whose name is the selected one. */
  function PrefPairs(rows: seq<RegionRow>, sel: Option<string>): (ps: seq<(int, string)>)
    ensures forall k :: 0 <= k < |ps| ==>
      Some(ps[k].1) == sel && exists r :: r in rows && r.prefcode == ps[k].0 && r.prefname == ps[k].1
    ensures forall r :: r in rows && Some(r.prefname) == sel ==> (r.prefcode, r.prefname) in ps
  {
    if |rows| == 0 then []
    else
      var rest := PrefPairs(rows[1..], sel);
      assert forall r :: r in rows <==> r == rows[0] || r in rows[1..];
      if Some(rows[0].prefname) == sel then [(rows[0].prefcode, rows[0].prefname)] + rest else rest
  }

  /** The `(citycode, cityname)` records of the whole city master whose name was chosen. */
  function CityPairs(rows: seq<CityRow>, chosen: seq<string>): (ps: seq<(int, string)>)
    ensures forall k :: 0 <= k < |ps| ==>
      ps[k].1 in chosen && exists r :: r in rows && r.citycode == ps[k].0 && r.cityname == ps[k].1
    ensures forall r :: r in rows && r.cityname in chosen ==> (r.citycode, r.cityname) in ps
  {
    if |rows| == 0 then []
    else
      var rest := CityPairs(rows[1..], chosen);
      assert forall r :: r in rows <==> r == rows[0] || r in rows[1..];
      if rows[0].cityname in chosen then [(rows[0].citycode, rows[0].cityname)] + rest else rest
  }

  /** `city_name`: for Hokkaido the cities of the chosen sub-region, otherwise the cities of the
      selected prefecture. */
  function CityOptions(m: Masters, region: string, subregion: Option<string>, sel: Option<string>): (ns: seq<string>)
    ensures region == "北海道" ==>
      forall n :: n in ns <==> exists h :: h in m.hokkaido && Some(h.regionname) == subregion && h.cityname == n
    ensures region == "北海道" && subregion.None? ==> ns == []
    ensures region != "北海道" ==>
      forall n :: n in ns <==> exists c :: c in m.cities && Some(c.prefname) == sel && c.cityname == n
  {
    if region == "北海道" then SubregionCities(m.hokkaido, subregion) else PrefectureCities(m.cities, sel)
  }

  function SubregionCities(rows: seq<HokkaidoRow>, subregion: Option<string>): (ns: seq<string>)
    ensures forall n :: n in ns <==> exists h :: h in rows && Some(h.regionname) == subregion && h.cityname == n
    ensures subregion.None? ==> ns == []
  {
    if |rows| == 0 then []
    else
      var rest := SubregionCities(rows[1..], subregion);
      assert forall h :: h in rows <==> h == rows[0] || h in rows[1..];
      if Some(rows[0].regionname) == subregion then [rows[0].cityname] + rest else rest
  }

  function PrefectureCities(rows: seq<CityRow>, sel: Option<string>): (ns: seq<string>)
    ensures forall n :: n in ns <==> exists c :: c in rows && Some(c.prefname) == sel && c.cityname == n
  {
    if |rows| == 0 then []
    else
      var rest := PrefectureCities(rows[1..], sel);
      assert forall c :: c in rows <==> c == rows[0] || c in rows[1..];
      if Some(rows[0].prefname) == sel then [rows[0].cityname] + rest else rest
  }

  /** Python truthiness of the selected prefecture: present and not the empty string. */
  predicate Truthy(sel: Option<string>) {
    sel.Some? && sel.value != ""
  }

  /** What `region_builder()` ends with. */
  datatype RegionOutcome =
    | NoRegion                                                    // `(None, None)`
    | Regions(pref: Dict<int, string>, city: Dict<int, string>)   // `(pref_dict, city_dict)`
    | Stopped                                                     // `st.stop()`
    | Crashed                                                     // `city_name[0]` on an empty list

  /** `region_builder()`. */
  function RegionBuilder(m: Masters, p: Picks): (r: RegionOutcome)
    ensures r.NoRegion? <==> p.region.None?
    ensures p.region.Some? ==>
      var sel := SelectedPrefecture(Prefectures(m.regions, p.region.value), p.pref);
      && (r.Stopped? <==> !Truthy(sel))
      && (r.Crashed? <==> Truthy(sel) && |CityOptions(m, p.region.value, p.subregion, sel)| == 0)
      && (r.Regions? ==> r.pref == FromItems(PrefPairs(m.regions, sel)) &&
                         r.city == FromItems(CityPairs(m.cities, p.cities)))
  {
    if p.region.None? then NoRegion
    else
      var region := p.region.value;
      var sel := SelectedPrefecture(Prefectures(m.regions, region), p.pref);
      var names := CityOptions(m, region, p.subregion, sel);
      if !Truthy(sel) then Stopped
      else if |names| == 0 then Crashed
      else Regions(FromItems(PrefPairs(m.regions, sel)), FromItems(CityPairs(m.cities, p.cities)))
  }

  // ---------------------------------------------------------------------------------------
  // Properties of region_builder

  /** A region with a single prefecture selects it without asking: the prefecture answer is
      not used. */
  lemma SinglePrefectureAutoSelected(m: Masters, p: Picks, other: Option<string>)
    requires p.region.Some? && |Prefectures(m.regions, p.region.value)| == 1
    ensures RegionBuilder(m, p) == RegionBuilder(m, p.(pref := other))
    ensures SelectedPrefecture(Prefectures(m.regions, p.region.value), p.pref) ==
            Some(Prefectures(m.regions, p.region.value)[0])
  {
  }

  /** The prefecture map holds exactly the codes of the rows carrying the selected name, each
      mapped to that name. */
  lemma PrefDictOnlySelected(rows: seq<RegionRow>, sel: Option<string>, code: int)
    ensures var pd := FromItems(PrefPairs(rows, sel));
      && (code in KeySet(pd) <==> exists r :: r in rows && r.prefcode == code && Some(r.prefname) == sel)
      && (code in KeySet(pd) ==> Get(pd, code) == sel)
  {
    var ps := PrefPairs(rows, sel);
    FromItemsShape(ps);
    FromItemsLastWins(ps, code);
    KeySetMember(ps, code);
    if exists r :: r in rows && r.prefcode == code && Some(r.prefname) == sel {
      var r :| r in rows && r.prefcode == code && Some(r.prefname) == sel;
      assert (r.prefcode, r.prefname) in ps;
    }
  }

  /** The city map holds the code of every row of the whole city master whose name was chosen,
      whatever its prefecture, and nothing else; a code is mapped to the chosen name of a row
      carrying that code. */
  lemma CityDictByName(rows: seq<CityRow>, chosen: seq<string>, code: int)
    ensures var cd := FromItems(CityPairs(rows, chosen));
      && (code in KeySet(cd) <==> exists r :: r in rows && r.citycode == code && r.cityname in chosen)
      && (code in KeySet(cd) ==> exists r :: r in rows && r.citycode == code && r.cityname in chosen &&
                                             Get(cd, code) == Some(r.cityname))
  {
    var ps := CityPairs(rows, chosen);
    FromItemsShape(ps);
    FromItemsLastWins(ps, code);
    KeySetMember(ps, code);
    if exists r :: r in rows && r.citycode == code && r.cityname in chosen {
      var r :| r in rows && r.citycode == code && r.cityname in chosen;
      assert (r.citycode, r.cityname) in ps;
    }
    if LastValue(ps, code).Some? {
      var i :| 0 <= i < |ps| && ps[i] == (code, LastValue(ps, code).value) &&
               forall j :: i < j < |ps| ==> ps[j].0 != code;
      var r :| r in rows && r.citycode == ps[i].0 && r.cityname == ps[i].1;
      assert Get(FromItems(ps), code) == Some(r.cityname);
    }
  }

  /** 府中市 exists in Tokyo (13206) and in Hiroshima (34208): choosing it while Tokyo is
      selected puts both codes in the city map. */
  lemma SameNameAcrossPrefectures()
    ensures var rows := [CityRow(13, "東京都", 13206, "府中市"), CityRow(34, "広島県", 34208, "府中市")];
      var cd := FromItems(CityPairs(rows, ["府中市"]));
      13206 in KeySet(cd) && 34208 in KeySet(cd)
  {
    var rows := [CityRow(13, "東京都", 13206, "府中市"), CityRow(34, "広島県", 34208, "府中市")];
    CityDictByName(rows, ["府中市"], 13206);
    CityDictByName(rows, ["府中市"], 34208);
    assert rows[0] in rows && rows[1] in rows;
  }

  /** With Hokkaido chosen but no sub-region yet, there is no city to offer and the default
      `city_name[0]` fails, once the prefecture is in use. */
  lemma HokkaidoNeedsSubregion(m: Masters, p: Picks)
    requires p.region == Some("北海道") && p.subregion.None?
    requires Truthy(SelectedPrefecture(Prefectures(m.regions, "北海道"), p.pref))
    ensures RegionBuilder(m, p) == Crashed
  {
  }
}
