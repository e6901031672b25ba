/** The fixed code-to-label tables of the `Const` class. Each table is a dict literal, so its
    keys iterate in the order they are written. */
module Const {
  import opened Options
  import opened PyDict

  /** 平休日: day type. */
  const DayFlag: Dict<int, string> := [(0, "休日"), (1, "平日"), (2, "全日")]

  /** 時間帯: time of day. */
  const Timezone: Dict<int, string> := [(0, "昼"), (1, "深夜"), (2, "全日")]

  /** 集計内容: the two datasets offered on the comparison page. */
  const Dataset: Dict<string, string> := [("mdp", "1kmメッシュ"), ("fromto", "市区町村単位発地別")]

  /** 居住地区分: where the visitors of a city come from. */
  const FromArea: Dict<int, string> := [
    (0, "同一市区町村"),
    (1, "同一都道府県かつ自市区町村と異なる市町村"),
    (2, "同一の地方ブロックかつ異なる都道府県"),
    (3, "異なる地方ブロック")
  ]

  /** The label shared by the "all" entries of the day-type and time-of-day tables. */
  const AllDay := "全日"

  /** `list(dataset)[0]`: the dataset selected when the page opens. */
  function DefaultDataset(): (k: string)
    ensures k == "mdp" && Get(Dataset, k) == Some("1kmメッシュ")
  {
    Keys(Dataset)[0]
  }

  /** `list(d)[-1]`: the last key of a non-empty table, the default of a single-choice flag. */
  function LastKey<V>(d: Dict<int, V>): (k: int)
    requires |d| > 0
    ensures k in KeySet(d)
    ensures k == d[|d| - 1].0
  {
    KeySetMember(d, d[|d| - 1].0);
    Keys(d)[|d| - 1]
  }

  /** The day-type and time-of-day tables each have exactly the codes 0, 1, 2, all distinct,
      with 2 labelled 全日, and 2 is their last key, the default selection. */
  lemma FlagTables()
    ensures Keys(DayFlag) == [0, 1, 2] && DistinctKeys(DayFlag)
    ensures Keys(Timezone) == [0, 1, 2] && DistinctKeys(Timezone)
    ensures Get(DayFlag, 2) == Some(AllDay) && Get(Timezone, 2) == Some(AllDay)
    ensures LastKey(DayFlag) == 2 && LastKey(Timezone) == 2
  {
  }

  /** The dataset table has exactly the keys "mdp" and "fromto", in that order. */
  lemma DatasetTable()
    ensures Keys(Dataset) == ["mdp", "fromto"] && DistinctKeys(Dataset)
  {
  }

  /** The origin-area table has exactly the codes 0..3. */
  lemma FromAreaTable()
    ensures Keys(FromArea) == [0, 1, 2, 3] && DistinctKeys(FromArea)
    ensures KeySet(FromArea) == {0, 1, 2, 3}
  {
  }
}
