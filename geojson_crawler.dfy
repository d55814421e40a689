/** The pure parts of `GDACSGeoJsonDtaCrawler`: where the page is scrolled
    before the download button is clicked, and which downloaded file is read.
    The browser session itself is not modelled. */
module GeoJsonCrawler {
  import opened Wrappers
  import OsPath

  const VerticalScrollShift: int := -50
  const DownloadSuffix := ".geojson"

  /** `scroll_page_to_download_button`: the vertical scroll target for an
      element whose top is at `elementY` on the page. */
  function ScrollPosition(elementY: int): (y: int)
    ensures y < elementY
  {
    elementY + VerticalScrollShift
  }

  /** Where `window.scrollTo(0, y)` leaves the page: the browser clamps the
      target to the scrollable range `0 ..= maxScroll`. */
  function ScrolledTo(y: int, maxScroll: nat): (top: nat)
    ensures top <= maxScroll
    ensures 0 <= y <= maxScroll ==> top == y
    ensures y < 0 ==> top == 0
    ensures y > maxScroll ==> top == maxScroll
  {
    if y < 0 then 0 else if y > maxScroll then maxScroll else y
  }

  /** The element's distance from the top of the viewport after
      `scroll_page_to_download_button`. */
  function ElementOffset(elementY: int, maxScroll: nat): (offset: int)
    ensures offset <= elementY
    ensures elementY >= 0 ==> offset >= 0
  {
    elementY - ScrolledTo(ScrollPosition(elementY), maxScroll)
  }

  /** The shift of 50 pixels is achieved exactly when the browser does not
      clamp the scroll; an element near the top of the page stays where it
      is, and one near the bottom ends lower than 50 pixels. */
  lemma ScrollLeavesElementBelowTop(elementY: int, maxScroll: nat)
    ensures ElementOffset(elementY, maxScroll) == 50 <==> 50 <= elementY <= maxScroll + 50
    ensures elementY < 50 ==> ElementOffset(elementY, maxScroll) == elementY
    ensures elementY > maxScroll + 50 ==> ElementOffset(elementY, maxScroll) > 50
  {
  }

  /** A directory entry: its name and its `os.path.getctime`, which on POSIX is
      the time of the last status change. */
  datatype DirEntry = DirEntry(name: string, ctime: int)

  /** `fnmatch` of "*.geojson" as `glob` applies it: the name ends in
      ".geojson" and, since a leading '*' does not match a leading dot, is
      not hidden. */
  predicate MatchesDownloadPattern(name: string) {
    |name| >= |DownloadSuffix| && name[|name| - |DownloadSuffix|..] == DownloadSuffix &&
    !(|name| > 0 && name[0] == '.')
  }

  /** The pattern is case-sensitive on POSIX, anchored at the end, and skips
      hidden files. */
  lemma DownloadPatternExamples()
    ensures MatchesDownloadPattern("events.geojson") && MatchesDownloadPattern(".geojson.geojson") == false
    ensures !MatchesDownloadPattern("events.GEOJSON") && !MatchesDownloadPattern("events.geojson.part")
    ensures !MatchesDownloadPattern(".geojson") && MatchesDownloadPattern("a.b.geojson")
  {
  }

  predicate AllSlashes(s: string) {
    forall i :: 0 <= i < |s| ==> s[i] == '/'
  }

  /** `s` without its trailing '/'s (`rstrip("/")`). */
  function StripTrailingSlashes(s: string): (t: string)
    ensures |t| <= |s| && t == s[..|t|]
    ensures t == [] || t[|t| - 1] != '/'
    ensures forall i :: |t| <= i < |s| ==> s[i] == '/'
  {
    if s != [] && s[|s| - 1] == '/' then StripTrailingSlashes(s[..|s| - 1]) else s
  }

  /** The directory `glob` lists and joins its matches to: the head of
      `os.path.split(os.path.join(dir, "*.geojson"))`, which is `dir` with its
      trailing '/'s removed, unless `dir` is made of '/'s only (the empty
      directory name included, for which the matches are bare names). */
  function GlobDir(dir: string): (d: string)
    ensures AllSlashes(dir) ==> d == dir
    ensures !AllSlashes(dir) ==> d != [] && d[|d| - 1] != '/' && |d| <= |dir| && dir[..|d|] == d &&
                                 forall i :: |d| <= i < |dir| ==> dir[i] == '/'
    ensures dir == [] || dir[|dir| - 1] != '/' ==> d == dir
  {
    if AllSlashes(dir) then dir else StripTrailingSlashes(dir)
  }

  /** A download directory written with redundant trailing slashes yields
      paths with a single separator. */
  lemma GlobDirDropsTrailingSlashes()
    ensures OsPath.Join(GlobDir("d//"), "x.geojson") == "d/x.geojson"
  {
    assert "d//"[..2] == "d/";
    assert "d/"[..1] == "d";
  }

  /** The indices from `i` on of the entries the glob matches, in listing order. */
  function MatchingFrom(entries: seq<DirEntry>, i: nat): (idx: seq<nat>)
    requires i <= |entries|
    ensures forall k :: 0 <= k < |idx| ==> i <= idx[k] < |entries| && MatchesDownloadPattern(entries[idx[k]].name)
    ensures forall k, m :: 0 <= k < m < |idx| ==> idx[k] < idx[m]
    ensures forall j :: i <= j < |entries| && MatchesDownloadPattern(entries[j].name) ==> j in idx
    decreases |entries| - i
  {
    if i == |entries| then []
    else (if MatchesDownloadPattern(entries[i].name) then [i] else []) + MatchingFrom(entries, i + 1)
  }

  /** The path glob yields for a matching entry, with that entry's ctime. */
  function Found(dir: string, e: DirEntry): DirEntry {
    DirEntry(OsPath.Join(GlobDir(dir), e.name), e.ctime)
  }

  /** `glob.glob(os.path.join(dir, "*.geojson"))`, over the entries in the
      order the directory lists them: the k-th file is the k-th matching
      entry, joined to the directory. */
  function GeoJsonFiles(dir: string, entries: seq<DirEntry>): (files: seq<DirEntry>)
    ensures |files| == |MatchingFrom(entries, 0)| <= |entries|
    ensures forall k :: 0 <= k < |files| ==> files[k] == Found(dir, entries[MatchingFrom(entries, 0)[k]])
  {
    var idx := MatchingFrom(entries, 0);
    IndicesBounded(entries, idx);
    seq(|idx|, k requires 0 <= k < |idx| => Found(dir, entries[idx[k]]))
  }

  /** Every file the glob yields comes from a matching entry, and every
      matching entry yields its file. */
  lemma GeoJsonFilesMembers(dir: string, entries: seq<DirEntry>)
    ensures forall f :: f in GeoJsonFiles(dir, entries) ==>
                          exists e :: e in entries && MatchesDownloadPattern(e.name) && f == Found(dir, e)
    ensures forall e :: e in entries && MatchesDownloadPattern(e.name) ==> Found(dir, e) in GeoJsonFiles(dir, entries)
  {
    var idx := MatchingFrom(entries, 0);
    var files := GeoJsonFiles(dir, entries);
    forall e | e in entries && MatchesDownloadPattern(e.name) ensures Found(dir, e) in files {
      var j :| 0 <= j < |entries| && entries[j] == e;
      var k :| 0 <= k < |idx| && idx[k] == j;
      assert files[k] == Found(dir, e);
    }
    forall f | f in files
      ensures exists e :: e in entries && MatchesDownloadPattern(e.name) && f == Found(dir, e)
    {
      var k :| 0 <= k < |files| && files[k] == f;
      assert entries[idx[k]] in entries;
    }
  }

  /** Strictly increasing indices below `|entries|` are no more than `|entries|`. */
  lemma {:induction false} IndicesBounded(entries: seq<DirEntry>, idx: seq<nat>)
    requires forall k :: 0 <= k < |idx| ==> idx[k] < |entries|
    requires forall k, m :: 0 <= k < m < |idx| ==> idx[k] < idx[m]
    ensures |idx| <= |entries|
    decreases |idx|
  {
    if idx != [] {
      var last := idx[|idx| - 1];
      IndicesBounded(entries[..last], idx[..|idx| - 1]);
    }
  }

  /** `max(files, key=os.path.getctime)` as an index: `None` for an empty
      sequence (where `max` raises), otherwise the first file with the
      greatest ctime, since `max` replaces its candidate only on a
      strictly greater key. */
  function LatestIndex(files: seq<DirEntry>): (k: Option<nat>)
    ensures k.None? <==> files == []
    ensures k.Some? ==> k.value < |files|
    ensures k.Some? ==> forall j :: 0 <= j < |files| ==> files[j].ctime <= files[k.value].ctime
    ensures k.Some? ==> forall j :: 0 <= j < k.value ==> files[j].ctime < files[k.value].ctime
    decreases |files|
  {
    if files == [] then None
    else
      var best := LatestIndex(files[..|files| - 1]);
      if best.None? || files[|files| - 1].ctime > files[best.value].ctime then Some(|files| - 1)
      else best
  }

  datatype DownloadError = NoGeoJsonFile(dir: string)  // ValueError from `max` on an empty sequence

  /** The file `get_data` opens after a download: the first entry, in
      listing order, among the ".geojson" files with the greatest ctime. */
  function LatestDownload(dir: string, entries: seq<DirEntry>): (r: Result<string, DownloadError>)
    ensures r.Err? <==> forall j :: 0 <= j < |entries| ==> !MatchesDownloadPattern(entries[j].name)
    ensures r.Ok? ==> exists i :: 0 <= i < |entries| && MatchesDownloadPattern(entries[i].name) &&
                                 r.value == OsPath.Join(GlobDir(dir), entries[i].name) &&
                                 (forall j :: 0 <= j < |entries| && MatchesDownloadPattern(entries[j].name) ==>
                                                entries[j].ctime <= entries[i].ctime) &&
                                 (forall j :: 0 <= j < i && MatchesDownloadPattern(entries[j].name) ==>
                                                entries[j].ctime < entries[i].ctime)
  {
    var files := GeoJsonFiles(dir, entries);
    match LatestIndex(files)
    case None =>
      NoFileNoMatch(dir, entries);
      Err(NoGeoJsonFile(dir))
    case Some(k) =>
      FirstNewestEntry(dir, entries, k);
      Ok(files[k].name)
  }

  /** The file `max` picks is the first newest matching entry in listing order. */
  lemma FirstNewestEntry(dir: string, entries: seq<DirEntry>, k: nat)
    requires LatestIndex(GeoJsonFiles(dir, entries)) == Some(k)
    ensures k < |MatchingFrom(entries, 0)|
    ensures var i := MatchingFrom(entries, 0)[k];
            && i < |entries| && MatchesDownloadPattern(entries[i].name)
            && GeoJsonFiles(dir, entries)[k].name == OsPath.Join(GlobDir(dir), entries[i].name)
            && (forall j :: 0 <= j < |entries| && MatchesDownloadPattern(entries[j].name) ==>
                              entries[j].ctime <= entries[i].ctime)
            && (forall j :: 0 <= j < i && MatchesDownloadPattern(entries[j].name) ==>
                              entries[j].ctime < entries[i].ctime)
  {
    var idx := MatchingFrom(entries, 0);
    var files := GeoJsonFiles(dir, entries);
    assert files[k] == Found(dir, entries[idx[k]]);
    NewestOver(entries, idx, files, k);
  }

  /** Over strictly increasing indices, the first file with the greatest
      ctime comes from an entry that no listed entry exceeds and every
      earlier listed entry falls short of. */
  lemma NewestOver(entries: seq<DirEntry>, idx: seq<nat>, files: seq<DirEntry>, k: nat)
    requires |files| == |idx| && k < |idx|
    requires forall m :: 0 <= m < |idx| ==> idx[m] < |entries| && files[m].ctime == entries[idx[m]].ctime
    requires forall m, n :: 0 <= m < n < |idx| ==> idx[m] < idx[n]
    requires forall m :: 0 <= m < |files| ==> files[m].ctime <= files[k].ctime
    requires forall m :: 0 <= m < k ==> files[m].ctime < files[k].ctime
    ensures forall j :: j in idx ==> entries[j].ctime <= entries[idx[k]].ctime
    ensures forall j :: j in idx && j < idx[k] ==> entries[j].ctime < entries[idx[k]].ctime
  {
    forall j | j in idx
      ensures entries[j].ctime <= entries[idx[k]].ctime
      ensures j < idx[k] ==> entries[j].ctime < entries[idx[k]].ctime
    {
      var m :| 0 <= m < |idx| && idx[m] == j;
      if j < idx[k] {
        assert m < k;
      }
    }
  }

  lemma NoFileNoMatch(dir: string, entries: seq<DirEntry>)
    requires GeoJsonFiles(dir, entries) == []
    ensures forall j :: 0 <= j < |entries| ==> !MatchesDownloadPattern(entries[j].name)
  {
    forall j | 0 <= j < |entries|
      ensures !MatchesDownloadPattern(entries[j].name)
    {
      assert j !in MatchingFrom(entries, 0);
    }
  }
}
