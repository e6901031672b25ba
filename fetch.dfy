/** Fetching a dataset archive (`_unzip_csv` and `fetch_data` in app/common/utils.py).
    The HTTP request and the zip reader are not modelled: a download is given as a function
    from URL to what came back, and the zip archive as its list of member names. Which member
    is parsed is modelled; opening and parsing a member is a function from the URL and the
    member to the table it yields or to the kind of exception it raises. */
module Fetch {
  import opened Options
  import opened Strings
  import Frames

  /** `st.secrets.blob`: the storage location and its access token. */
  datatype Blob = Blob(url: string, token: string)

  /** What the GET of an archive URL gives, as far as the program looks at it. */
  datatype Download =
    | RequestFailed             // `requests.get` raised, or `raise_for_status` rejected the status
    | NotAZip                   // `zipfile.ZipFile` raised BadZipFile on the body
    | Zip(names: seq<string>)   // `z.namelist()`

  /** The exceptions `_unzip_csv` lets out: a failed request, a body or a member that is not
      valid zip data (BadZipFile), an archive without a CSV member, a CSV member `pd.read_csv`
      cannot parse (its EmptyDataError, ParserError and UnicodeDecodeError are all
      ValueErrors), and any other exception raised while the member is read. */
  datatype FetchError = NetworkError | BadZipFile | NoCsvFound | CsvRejected | MemberUnreadable

  /** A successful `_unzip_csv`: the URL fetched, the member that was parsed and its table. */
  datatype Unzipped = Unzipped(url: string, member: string, table: Frames.Table)

  /** What `z.open` and `pd.read_csv` make of one member of the archive. */
  datatype Parse =
    | Parsed(table: Frames.Table)
    | ValueFailure   // a ValueError: EmptyDataError, ParserError, UnicodeDecodeError
    | ZipFailure     // BadZipFile: a bad local header or a CRC mismatch in the member
    | OtherFailure   // any other exception, such as `zlib.error` on a corrupt deflate stream

  /** Opening and parsing a member of the archive fetched from a URL. */
  type Reader = (string, string) -> Parse

  // ---------------------------------------------------------------------------------------
  // The URL

  /** `f"{base.rstrip('/')}/{path.lstrip('/')}?{token.lstrip('?')}"`. */
  function FetchUrl(base: string, path: string, token: string): string
  {
    RStrip(base, '/') + "/" + LStrip(path, '/') + "?" + LStrip(token, '?')
  }

  /** The URL is the stripped base, one `/`, the stripped path, one `?`, the stripped token;
      the base part does not end with `/`, the path part does not start with `/` and the token
      part does not start with `?`, so each join has exactly one separator. */
  lemma UrlShape(base: string, path: string, token: string)
    ensures var b, p, t := RStrip(base, '/'), LStrip(path, '/'), LStrip(token, '?');
      && FetchUrl(base, path, token) == b + "/" + p + "?" + t
      && (|b| == 0 || b[|b| - 1] != '/')
      && (|p| == 0 || p[0] != '/')
      && (|t| == 0 || t[0] != '?')
      && base == b + base[|b|..] && (forall i :: |b| <= i < |base| ==> base[i] == '/')
      && path == path[..|path| - |p|] + p && (forall i :: 0 <= i < |path| - |p| ==> path[i] == '/')
  {
    RStripSplit(base, '/');
    LStripSplit(path, '/');
  }

  /** The stripped string followed by what was stripped is the original. */
  lemma RStripSplit(s: string, c: char)
    ensures s == RStrip(s, c) + s[|RStrip(s, c)|..]
  {
    var r := RStrip(s, c);
    assert s == s[..|r|] + s[|r|..];
  }

  /** What was stripped followed by the stripped string is the original. */
  lemma LStripSplit(s: string, c: char)
    ensures s == s[..|s| - |LStrip(s, c)|] + LStrip(s, c)
  {
    var r := LStrip(s, c);
    assert s == s[..|s| - |r|] + s[|s| - |r|..];
  }

  /** Normalising an already normalised triple changes nothing. */
  lemma UrlIdempotent(base: string, path: string, token: string)
    ensures FetchUrl(RStrip(base, '/'), LStrip(path, '/'), LStrip(token, '?')) == FetchUrl(base, path, token)
  {
    RStripIdempotent(base, '/');
    LStripIdempotent(path, '/');
    LStripIdempotent(token, '?');
  }

  /** Extra separators on either side of a join do not change the URL. */
  lemma UrlAbsorbsSeparators(base: string, path: string, token: string)
    ensures FetchUrl(base + "/", path, token) == FetchUrl(base, path, token)
    ensures FetchUrl(base, "/" + path, token) == FetchUrl(base, path, token)
    ensures FetchUrl(base, path, "?" + token) == FetchUrl(base, path, token)
  {
    RStripAppend(base, '/');
    LStripPrepend(path, '/');
    LStripPrepend(token, '?');
  }

  // ---------------------------------------------------------------------------------------
  // The member scan

  predicate IsCsv(name: string) {
    EndsWith(name, ".csv")
  }

  /** Reference meaning of the scan: the position of the first member whose name ends in `.csv`. */
  function FirstCsv(names: seq<string>): (r: Option<nat>)
    ensures r.Some? ==> r.value < |names| && IsCsv(names[r.value])
    ensures r.Some? ==> forall j :: 0 <= j < r.value ==> !IsCsv(names[j])
    ensures r.None? ==> forall j :: 0 <= j < |names| ==> !IsCsv(names[j])
  {
    if |names| == 0 then None
    else if IsCsv(names[0]) then Some(0)
    else match FirstCsv(names[1..]) {
      case None => None
      case Some(k) => Some(k + 1)
    }
  }

  /** What reading the first CSV member of `names` gives; None when there is no CSV member. */
  function FirstParse(url: string, names: seq<string>, read: Reader): Option<Parse>
  {
    match FirstCsv(names)
    case None => None
    case Some(i) => Some(read(url, names[i]))
  }

  /** What `_unzip_csv` makes of the response to the GET of `url`: only the first CSV member is
      read, and its failure is the call's failure (later members are not tried). A BadZipFile
      raised while reading the member is re-raised as a BadZipFile, like one raised on the
      body. */
  function Opened(url: string, d: Download, read: Reader): (r: Result<Unzipped, FetchError>)
    ensures d.RequestFailed? <==> r == Err(NetworkError)
    ensures r == Err(BadZipFile) <==> d.NotAZip? || (d.Zip? && FirstParse(url, d.names, read) == Some(ZipFailure))
    ensures r == Err(NoCsvFound) <==> d.Zip? && FirstParse(url, d.names, read).None?
    ensures r == Err(CsvRejected) <==> d.Zip? && FirstParse(url, d.names, read) == Some(ValueFailure)
    ensures r == Err(MemberUnreadable) <==> d.Zip? && FirstParse(url, d.names, read) == Some(OtherFailure)
    ensures r.Ok? ==> r.value.url == url && d.Zip? && IsCsv(r.value.member)
    ensures r.Ok? ==> read(url, r.value.member) == Parsed(r.value.table)
    ensures r.Ok? <==> d.Zip? && FirstParse(url, d.names, read).Some? && FirstParse(url, d.names, read).value.Parsed?
  {
    match d {
      case RequestFailed => Err(NetworkError)
      case NotAZip => Err(BadZipFile)
      case Zip(names) =>
        match FirstCsv(names) {
          case None => Err(NoCsvFound)
          case Some(i) =>
            match read(url, names[i]) {
              case Parsed(t) => Ok(Unzipped(url, names[i], t))
              case ValueFailure => Err(CsvRejected)
              case ZipFailure => Err(BadZipFile)
              case OtherFailure => Err(MemberUnreadable)
            }
        }
    }
  }

  /** What `_unzip_csv(path)` does. */
  function Unzip(path: string, blob: Blob, download: string -> Download, read: Reader): Result<Unzipped, FetchError>
  {
    var url := FetchUrl(blob.url, path, blob.token);
    Opened(url, download(url), read)
  }

  /** The `for filename in file_list` loop: the position of the member that is opened, if any. */
  method ScanCsv(names: seq<string>) returns (k: Option<nat>)
    ensures k == FirstCsv(names)
  {
    var i := 0;
    while i < |names|
      invariant 0 <= i <= |names|
      invariant forall j :: 0 <= j < i ==> !IsCsv(names[j])
    {
      if EndsWith(names[i], ".csv") {
        FirstCsvIsUnique(names, i);
        return Some(i);
      }
      i := i + 1;
    }
    return None;
  }

  /** `_unzip_csv(path)`: fetch the archive, pick the first `.csv` member of its list and parse
      it. Earlier members that are not CSV files are skipped; with no CSV member at all the call
      fails with NoCsvFound, and a member that cannot be read fails with the kind of its
      exception. */
  method UnzipCsv(path: string, blob: Blob, download: string -> Download, read: Reader)
    returns (r: Result<Unzipped, FetchError>)
    ensures r == Unzip(path, blob, download, read)
  {
    var url := FetchUrl(blob.url, path, blob.token);
    var response := download(url);
    if response.RequestFailed? {
      return Err(NetworkError);
    } else if response.NotAZip? {
      return Err(BadZipFile);
    }
    var k := ScanCsv(response.names);
    if k.None? {
      return Err(NoCsvFound);
    }
    var member := response.names[k.value];
    match read(url, member) {
      case Parsed(t) => r := Ok(Unzipped(url, member, t));
      case ValueFailure => r := Err(CsvRejected);
      case ZipFailure => r := Err(BadZipFile);
      case OtherFailure => r := Err(MemberUnreadable);
    }
  }

  /** Inside a zip archive, the member parsed is a `.csv` name preceded only by names that are
      not, and the no-CSV failure happens exactly when no name ends in `.csv`. */
  lemma PicksFirstCsv(url: string, names: seq<string>, read: Reader)
    ensures var r := Opened(url, Zip(names), read);
      && (r == Err(NoCsvFound) <==> forall j :: 0 <= j < |names| ==> !IsCsv(names[j]))
      && (FirstParse(url, names, read).Some? <==> exists i :: 0 <= i < |names| && IsCsv(names[i]))
      && (r.Ok? ==> exists i :: 0 <= i < |names| && r.value.member == names[i] && IsCsv(names[i]) &&
                      forall j :: 0 <= j < i ==> !IsCsv(names[j]))
  {
    match FirstCsv(names) {
      case None =>
      case Some(i) =>
        if read(url, names[i]).Parsed? {
          assert Opened(url, Zip(names), read).value.member == names[i];
        }
    }
  }

  /** The first CSV position is determined by the two properties that define it. */
  lemma FirstCsvIsUnique(names: seq<string>, i: nat)
    requires i < |names| && IsCsv(names[i])
    requires forall j :: 0 <= j < i ==> !IsCsv(names[j])
    ensures FirstCsv(names) == Some(i)
  {
  }

  // ---------------------------------------------------------------------------------------
  // The archive path

  /** What `fetch_data` reads from the session: the dataset choice `ss.set` (None when the
      control is cleared), the keys of `ss.pref` in order (None before a region is chosen)
      and `ss.month`. */
  datatype Session = Session(dataset: Option<string>, pref: Option<seq<int>>, month: int)

  /** The exceptions `fetch_data` does not handle: the three of the path computation, and an
      exception of reading the member that no `except` clause names. */
  datatype Crash =
    | PrefNotSet    // `list(None)`: TypeError
    | NoPrefecture  // `list(ss.pref)[0]` of an empty dict: IndexError
    | PathUnbound   // `ss.set` is neither "mdp" nor "fromto": `path` is unbound
    | ReadCrashed   // `zlib.error` and the like, from `z.open` or `pd.read_csv`

  const AttributePath2019 := "attribute/attribute_mesh1km_2019.csv.zip"
  const AttributePath2020 := "attribute/attribute_mesh1km_2020.csv.zip"

  /** `f/PP/year/MM/monthly_f`: the part of a monthly archive path shared by both datasets. */
  function Stem(f: string, pcode: int, year: int, month: int): string
  {
    f + "/" + Pad2(pcode) + "/" + IntToString(year) + "/" + Pad2(month) + "/monthly_" + f
  }

  const MeshSuffix := "_mesh1km.csv.zip"
  const CitySuffix := "_city.csv.zip"

  /** The archive path for dataset `f` and `year`. */
  function DataPath(f: string, year: int, ss: Session): (r: Result<string, Crash>)
    ensures f == "mesh1km" ==> r == Ok(if year == 2019 then AttributePath2019 else AttributePath2020)
    ensures f != "mesh1km" ==> (r == Err(PrefNotSet) <==> ss.pref.None?)
    ensures f != "mesh1km" && ss.pref.Some? ==> (r == Err(NoPrefecture) <==> ss.pref.value == [])
    ensures f != "mesh1km" && ss.pref.Some? && ss.pref.value != [] ==>
      (r == Err(PathUnbound) <==> ss.dataset != Some("mdp") && ss.dataset != Some("fromto"))
  {
    if f == "mesh1km" then
      Ok(if year == 2019 then AttributePath2019 else AttributePath2020)
    else if ss.pref.None? then Err(PrefNotSet)
    else if |ss.pref.value| == 0 then Err(NoPrefecture)
    else
      var stem := Stem(f, ss.pref.value[0], year, ss.month);
      if ss.dataset == Some("mdp") then Ok(stem + MeshSuffix)
      else if ss.dataset == Some("fromto") then Ok(stem + CitySuffix)
      else Err(PathUnbound)
  }

  /** A monthly path starts with `f/PP/year/MM/monthly_f`, PP being the first selected
      prefecture, and ends with `_mesh1km.csv.zip` exactly when the session's dataset is
      "mdp" and with `_city.csv.zip` exactly when it is "fromto". */
  lemma MonthlyPath(f: string, year: int, ss: Session)
    requires f != "mesh1km" && ss.pref.Some? && ss.pref.value != []
    requires ss.dataset == Some("mdp") || ss.dataset == Some("fromto")
    ensures DataPath(f, year, ss).Ok?
    ensures StartsWith(DataPath(f, year, ss).value, Stem(f, ss.pref.value[0], year, ss.month))
    ensures EndsWith(DataPath(f, year, ss).value, MeshSuffix) <==> ss.dataset == Some("mdp")
    ensures EndsWith(DataPath(f, year, ss).value, CitySuffix) <==> ss.dataset == Some("fromto")
  {
    var stem := Stem(f, ss.pref.value[0], year, ss.month);
    if ss.dataset == Some("mdp") {
      var p := stem + MeshSuffix;
      assert DataPath(f, year, ss) == Ok(p);
      ConcatEnds(stem, MeshSuffix);
      SuffixesDiffer(p);
    } else {
      var p := stem + CitySuffix;
      assert DataPath(f, year, ss) == Ok(p);
      ConcatEnds(stem, CitySuffix);
      SuffixesDiffer(p);
    }
  }

  /** No name ends with both suffixes. */
  lemma SuffixesDiffer(p: string)
    ensures !(EndsWith(p, MeshSuffix) && EndsWith(p, CitySuffix))
  {
    if EndsWith(p, MeshSuffix) {
      assert p[|p| - 9] == 'm' by { assert p[|p| - 16..][7] == p[|p| - 9]; }
      assert p[|p| - 13..][4] == p[|p| - 9];
    }
  }

  /** Only the session's dataset choice decides the file name's suffix: two paths resolved for
      different datasets, years, prefectures or months but the same choice end the same way. */
  lemma SuffixFollowsSession(f1: string, f2: string, y1: int, y2: int, s1: Session, s2: Session)
    requires f1 != "mesh1km" && f2 != "mesh1km"
    requires s1.dataset == s2.dataset
    requires DataPath(f1, y1, s1).Ok? && DataPath(f2, y2, s2).Ok?
    ensures EndsWith(DataPath(f1, y1, s1).value, MeshSuffix) <==>
            EndsWith(DataPath(f2, y2, s2).value, MeshSuffix)
  {
    MonthlyPath(f1, y1, s1);
    MonthlyPath(f2, y2, s2);
  }

  /** A month picked in the widget (1..12) is written as two digits that read back as it. */
  lemma MonthSegment(month: int)
    requires 1 <= month <= 12
    ensures |Pad2(month)| == 2 && ParseNat(Pad2(month)) == month
    ensures forall i :: 0 <= i < 2 ==> IsDigit(Pad2(month)[i])
  {
    Pad2RoundTrip(month);
  }

  // ---------------------------------------------------------------------------------------
  // fetch_data

  const Prefix := "データの取得に失敗しました: "
  const NetworkErrorMessage := Prefix + "ネットワークエラーが発生しました"
  const BadZipMessage := Prefix + "ファイル形式が正しくありません"
  const NotFoundMessage := Prefix + "ファイルに必要なデータが見つかりませんでした"

  /** One of the three messages `fetch_data` shows. */
  predicate IsFetchMessage(m: string) {
    m == NetworkErrorMessage || m == BadZipMessage || m == NotFoundMessage
  }

  /** The `except` clause of `fetch_data` that catches each failure. */
  datatype Handler = OnRequestException | OnBadZipFile | OnValueError

  /** The clause that catches a failure; None for an exception no clause names. */
  function HandlerOf(e: FetchError): Option<Handler>
  {
    match e
    case NetworkError => Some(OnRequestException)
    case BadZipFile => Some(OnBadZipFile)
    case NoCsvFound => Some(OnValueError)
    case CsvRejected => Some(OnValueError)
    case MemberUnreadable => None
  }

  /** The `st.error` text shown for each handled failure: one per `except` clause, so a missing
      CSV member and a member that does not parse share the not-found message. */
  function Message(e: FetchError): (m: string)
    requires HandlerOf(e).Some?
    ensures StartsWith(m, Prefix)
    ensures IsFetchMessage(m)
    ensures HandlerOf(e) == Some(OnRequestException) ==> m == NetworkErrorMessage
    ensures HandlerOf(e) == Some(OnBadZipFile) ==> m == BadZipMessage
    ensures HandlerOf(e) == Some(OnValueError) ==> m == NotFoundMessage
  {
    match HandlerOf(e).value
    case OnRequestException => ConcatEnds(Prefix, "ネットワークエラーが発生しました"); NetworkErrorMessage
    case OnBadZipFile => ConcatEnds(Prefix, "ファイル形式が正しくありません"); BadZipMessage
    case OnValueError => ConcatEnds(Prefix, "ファイルに必要なデータが見つかりませんでした"); NotFoundMessage
  }

  /** Each `except` clause has its own message: the message tells which clause caught the
      failure. */
  lemma MessagesDistinct(e1: FetchError, e2: FetchError)
    requires HandlerOf(e1).Some? && HandlerOf(e2).Some?
    ensures Message(e1) == Message(e2) <==> HandlerOf(e1) == HandlerOf(e2)
  {
    var n := |Prefix|;
    assert NetworkErrorMessage[n] != BadZipMessage[n];
    assert NetworkErrorMessage[n] != NotFoundMessage[n];
    assert BadZipMessage[n + 4] != NotFoundMessage[n + 4];
  }

  /** A fetch either yields the archive path, the member parsed and its table, or shows one
      message and stops the page (`st.error` then `st.stop`), or raises an exception it does not
      handle. */
  datatype FetchOutcome =
    | Loaded(path: string, member: string, table: Frames.Table)
    | Halted(message: string)
    | Crashed(reason: Crash)

  /** The `try`/`except` around `_unzip_csv(path)`: a result is passed on, each caught
      exception becomes its clause's message and a stop, and any other exception escapes. */
  function Handled(path: string, u: Result<Unzipped, FetchError>): (r: FetchOutcome)
    ensures r.Crashed? <==> u == Err(MemberUnreadable)
    ensures r.Crashed? ==> r.reason == ReadCrashed
    ensures r.Halted? <==> u.Err? && HandlerOf(u.error).Some?
    ensures u.Err? && HandlerOf(u.error).Some? ==> r == Halted(Message(u.error))
    ensures u.Ok? ==> r == Loaded(path, u.value.member, u.value.table)
  {
    match u
    case Err(e) => if HandlerOf(e).Some? then Halted(Message(e)) else Crashed(ReadCrashed)
    case Ok(z) => Loaded(path, z.member, z.table)
  }

  /** What `fetch_data(f, year)` does: the path computation may raise, the fetch is handled. */
  function Fetched(f: string, year: int, ss: Session, blob: Blob, download: string -> Download, read: Reader): (r: FetchOutcome)
    ensures DataPath(f, year, ss).Err? ==> r == Crashed(DataPath(f, year, ss).error)
    ensures r.Crashed? ==> DataPath(f, year, ss).Err? || r.reason == ReadCrashed
    ensures r.Halted? ==> IsFetchMessage(r.message)
    ensures DataPath(f, year, ss).Ok? ==>
      r == Handled(DataPath(f, year, ss).value, Unzip(DataPath(f, year, ss).value, blob, download, read))
  {
    match DataPath(f, year, ss) {
      case Err(c) => Crashed(c)
      case Ok(path) => Handled(path, Unzip(path, blob, download, read))
    }
  }

  /** For the response to a fetched URL: a network failure ends the page with the network
      message; a body that is not a zip archive, or a first CSV member that is not valid zip data,
      with the format message; an archive without a CSV member, or whose first CSV member does
      not parse, with the not-found message; any other exception reading the member escapes;
      and a parsed member is loaded. */
  lemma FailureMessages(path: string, url: string, d: Download, read: Reader)
    ensures var r := Handled(path, Opened(url, d, read));
      var p := if d.Zip? then FirstParse(url, d.names, read) else None;
      && (d.RequestFailed? <==> r == Halted(NetworkErrorMessage))
      && (d.NotAZip? || (d.Zip? && p == Some(ZipFailure)) <==> r == Halted(BadZipMessage))
      && (d.Zip? && (p.None? || p == Some(ValueFailure)) <==> r == Halted(NotFoundMessage))
      && (d.Zip? && p == Some(OtherFailure) <==> r == Crashed(ReadCrashed))
      && (d.Zip? && p.Some? && p.value.Parsed? ==>
            r == Loaded(path, d.names[FirstCsv(d.names).value], p.value.table))
      && (r.Loaded? ==> d.Zip? && FirstCsv(d.names).Some?)
  {
    MessagesDistinct(NetworkError, BadZipFile);
    MessagesDistinct(NetworkError, NoCsvFound);
    MessagesDistinct(BadZipFile, NoCsvFound);
  }

  /** `fetch_data(f, year)`: resolve the path, fetch, and turn each caught failure into its
      clause's message followed by a stop. */
  method FetchData(f: string, year: int, ss: Session, blob: Blob, download: string -> Download, read: Reader)
    returns (r: FetchOutcome)
    ensures r == Fetched(f, year, ss, blob, download, read)
  {
    var path := DataPath(f, year, ss);
    if path.Err? {
      return Crashed(path.error);
    }
    var u := UnzipCsv(path.value, blob, download, read);
    match u {
      case Err(MemberUnreadable) => r := Crashed(ReadCrashed);
      case Err(e) => r := Halted(Message(e));
      case Ok(z) => r := Loaded(path.value, z.member, z.table);
    }
  }
}
