/** The dataset sorter: find every rendered `.hdf5` bundle outside earlier
    sorted output, count the class ids of its segmentation map and copy it
    into a "defect" or "faultfree" folder, numbering the copies per folder.

    The directory walk, the file contents and the copies are values: the walk
    is the sequence of `(subdir, dirs, files)` triples `os.walk` yields, the
    segmentation map of the k-th listed file is given, and a copy is recorded
    as a (source, destination) pair. */
module SortDataset {
  import opened Wrappers
  import opened Text

  const OutputPrefix: string := "sorted_dataset"
  const Extension: string := ".hdf5"
  const DefectDirName: string := "defect"
  const FaultFreeDirName: string := "faultfree"

  /** A defect bucket needs at least this many defect pixels. */
  const DefectThreshold: nat := 50

  const Background: int := 0
  const Casing: int := 1
  const DefectClass: int := 2

  // =====================================================================
  // get_path_list
  // =====================================================================

  /** One triple yielded by `os.walk`. */
  datatype WalkEntry = WalkEntry(subdir: string, dirs: seq<string>, files: seq<string>)

  /** `subdir + os.sep + file`. */
  function FilePath(subdir: string, file: string): string {
    subdir + [Sep] + file
  }

  /** The filter of lines 29-30. */
  predicate Keep(path: string) {
    !Contains(path, OutputPrefix) && EndsWith(path, Extension)
  }

  /** Every walked file path, in walk order. */
  function Candidates(walk: seq<WalkEntry>): seq<string>
    decreases |walk|
  {
    if walk == [] then []
    else
      Candidates(walk[..|walk| - 1]) + EntryPaths(walk[|walk| - 1])
  }

  /** The paths of the files listed in one walk entry, in listing order. */
  function EntryPaths(e: WalkEntry): (ps: seq<string>)
    ensures |ps| == |e.files| && forall j :: 0 <= j < |e.files| ==> ps[j] == FilePath(e.subdir, e.files[j])
  {
    seq(|e.files|, j requires 0 <= j < |e.files| => FilePath(e.subdir, e.files[j]))
  }

  function Filter(paths: seq<string>): (r: seq<string>)
    ensures forall p :: p in r <==> p in paths && Keep(p)
    decreases |paths|
  {
    if paths == [] then []
    else Filter(paths[..|paths| - 1]) + (if Keep(paths[|paths| - 1]) then [paths[|paths| - 1]] else [])
  }

  /** The paths `get_path_list` collects: the walked paths that pass the
      filter, in walk order. */
  function PathList(walk: seq<WalkEntry>): seq<string> {
    Filter(Candidates(walk))
  }

  /** A path is walked exactly when it is `subdir + sep + file` for a file
      listed under that subdir. */
  lemma {:induction false} CandidatesMembers(walk: seq<WalkEntry>, p: string)
    ensures p in Candidates(walk) <==>
            exists i, j :: 0 <= i < |walk| && 0 <= j < |walk[i].files| && p == FilePath(walk[i].subdir, walk[i].files[j])
    decreases |walk|
  {
    if walk != [] {
      var init, e := walk[..|walk| - 1], walk[|walk| - 1];
      CandidatesMembers(init, p);
      var tail := EntryPaths(e);
      assert Candidates(walk) == Candidates(init) + tail;
      if p in tail {
        var j :| 0 <= j < |tail| && tail[j] == p;
        assert p == FilePath(walk[|walk| - 1].subdir, walk[|walk| - 1].files[j]);
      }
      if exists i, j :: 0 <= i < |walk| && 0 <= j < |walk[i].files| && p == FilePath(walk[i].subdir, walk[i].files[j]) {
        var i, j :| 0 <= i < |walk| && 0 <= j < |walk[i].files| && p == FilePath(walk[i].subdir, walk[i].files[j]);
        if i < |walk| - 1 {
          assert walk[i] == init[i];
        } else {
          assert tail[j] == p;
        }
      }
    }
  }

  /** `get_path_list` returns exactly the walked paths that end in ".hdf5" and do
      not contain "sorted_dataset". */
  lemma PathListMembers(walk: seq<WalkEntry>, p: string)
    ensures p in PathList(walk) <==>
            Keep(p) &&
            exists i, j :: 0 <= i < |walk| && 0 <= j < |walk[i].files| && p == FilePath(walk[i].subdir, walk[i].files[j])
  {
    CandidatesMembers(walk, p);
  }

  /** Filtering one more path keeps what was kept and adds that path if it passes. */
  lemma FilterSnoc(paths: seq<string>, p: string)
    ensures Filter(paths + [p]) == Filter(paths) + (if Keep(p) then [p] else [])
  {
    assert (paths + [p])[..|paths|] == paths;
  }

  /** `get_path_list(wd)` over the walk of `wd`. */
  method GetPathList(walk: seq<WalkEntry>) returns (pathList: seq<string>)
    ensures pathList == PathList(walk)
  {
    pathList := [];
    for i := 0 to |walk|
      invariant pathList == Filter(Candidates(walk[..i]))
    {
      pathList := CollectEntry(walk[i], Candidates(walk[..i]), pathList);
      assert walk[..i + 1][..i] == walk[..i];
    }
    assert walk[..|walk|] == walk;
  }

  /** The inner loop of `get_path_list` over the files of one walk entry. */
  method CollectEntry(e: WalkEntry, ghost before: seq<string>, pathList0: seq<string>) returns (pathList: seq<string>)
    requires pathList0 == Filter(before)
    ensures pathList == Filter(before + EntryPaths(e))
  {
    pathList := pathList0;
    ghost var walked := before;
    ghost var paths := EntryPaths(e);
    assert paths[..0] == [];
    for j := 0 to |e.files|
      invariant walked == before + paths[..j]
      invariant pathList == Filter(walked)
    {
      var filepath := FilePath(e.subdir, e.files[j]);
      pathList := CollectFile(filepath, walked, pathList);
      assert paths[..j + 1] == paths[..j] + [filepath];
      walked := walked + [filepath];
    }
    assert paths[..|e.files|] == paths;
  }

  /** The test `get_path_list` applies to one walked path. */
  method CollectFile(filepath: string, ghost walked: seq<string>, pathList0: seq<string>) returns (pathList: seq<string>)
    requires pathList0 == Filter(walked)
    ensures pathList == Filter(walked + [filepath])
  {
    pathList := pathList0;
    if !Contains(filepath, OutputPrefix) {
      if EndsWith(filepath, Extension) {
        pathList := pathList + [filepath];
      }
    }
    FilterSnoc(walked, filepath);
  }

  // =====================================================================
  // create_output_folders (names only)
  // =====================================================================

  /** `mydir`: `sorted_dataset<timestamp>` under the working directory. */
  function SortedDir(wd: string, timestamp: string): string {
    PathJoin(wd, OutputPrefix + timestamp)
  }

  /** `[defdir, faultfdir]` as returned by `create_output_folders`. */
  function OutputFolders(wd: string, timestamp: string): (out: seq<string>)
    ensures |out| == 2
  {
    var mydir := SortedDir(wd, timestamp);
    [PathJoin(mydir, DefectDirName), PathJoin(mydir, FaultFreeDirName)]
  }

  /** Does `s` start with `prefix`? */
  predicate StartsWith(s: string, prefix: string) {
    prefix <= s
  }

  /** A path starting with a text that holds "sorted_dataset" holds it too. */
  lemma ContainsPrefix(prefix: string, s: string)
    requires Contains(prefix, OutputPrefix) && StartsWith(s, prefix)
    ensures Contains(s, OutputPrefix)
  {
    assert s == prefix + s[|prefix|..];
    ContainsInContext([], prefix, s[|prefix|..], OutputPrefix);
    assert [] + prefix + s[|prefix|..] == s;
  }

  /** Both output folders carry "sorted_dataset" in their path. */
  lemma OutputFoldersMarked(wd: string, timestamp: string)
    ensures Contains(OutputFolders(wd, timestamp)[0], OutputPrefix)
    ensures Contains(OutputFolders(wd, timestamp)[1], OutputPrefix)
  {
    var name := OutputPrefix + timestamp;
    assert name[0] == 's';
    assert OutputPrefix <= name[0..];
    PathJoinContains(wd, name, OutputPrefix);
    var mydir := SortedDir(wd, timestamp);
    assert DefectDirName[0] == 'd' && FaultFreeDirName[0] == 'f';
    PathJoinContains(mydir, DefectDirName, OutputPrefix);
    PathJoinContains(mydir, FaultFreeDirName, OutputPrefix);
  }

  /** A re-run never picks up its own output: no file walked under either
      output folder (or anywhere below it) is listed by `get_path_list`. */
  lemma ReRunSkipsOutput(wd: string, timestamp: string, walk: seq<WalkEntry>, i: nat, j: nat, k: nat)
    requires i < |walk| && j < |walk[i].files| && k < 2
    requires StartsWith(walk[i].subdir, OutputFolders(wd, timestamp)[k])
    ensures FilePath(walk[i].subdir, walk[i].files[j]) !in PathList(walk)
  {
    OutputFoldersMarked(wd, timestamp);
    ContainsPrefix(OutputFolders(wd, timestamp)[k], walk[i].subdir);
    var p := FilePath(walk[i].subdir, walk[i].files[j]);
    ContainsPrefix(walk[i].subdir, p);
  }

  // =====================================================================
  // count_classes
  // =====================================================================

  /** A segmentation map: rows of pixels, each pixel `depth` channel values. */
  datatype SegMap = SegMap(depth: nat, rows: seq<seq<seq<int>>>)

  /** The map is a real array: every pixel has `depth` values. */
  predicate WellFormed(m: SegMap) {
    forall r, c :: 0 <= r < |m.rows| && 0 <= c < |m.rows[r]| ==> |m.rows[r][c]| == m.depth
  }

  /** `np.dsplit(segmap, 2)[0]`: the first half of every pixel's channels;
      None (a ValueError) when the channel count is odd. */
  function FirstHalf(m: SegMap): (r: Option<seq<seq<seq<int>>>>)
    requires WellFormed(m)
    ensures r.None? <==> m.depth % 2 == 1
    ensures r.Some? ==> |r.value| == |m.rows|
    ensures r.Some? ==> forall i :: 0 <= i < |m.rows| ==> |r.value[i]| == |m.rows[i]|
    ensures r.Some? ==> forall i, c :: 0 <= i < |m.rows| && 0 <= c < |m.rows[i]| ==>
                                         r.value[i][c] == m.rows[i][c][..m.depth / 2]
  {
    if m.depth % 2 == 1 then None
    else Some(seq(|m.rows|, i requires 0 <= i < |m.rows| =>
               seq(|m.rows[i]|, c requires 0 <= c < |m.rows[i]| => m.rows[i][c][..m.depth / 2])))
  }

  /** All values of a row (of pixels), in order. */
  function FlatRow(row: seq<seq<int>>): seq<int>
    decreases |row|
  {
    if row == [] then [] else FlatRow(row[..|row| - 1]) + row[|row| - 1]
  }

  /** All values of a grid, row after row. */
  function Flat(grid: seq<seq<seq<int>>>): seq<int>
    decreases |grid|
  {
    if grid == [] then [] else Flat(grid[..|grid| - 1]) + FlatRow(grid[|grid| - 1])
  }

  /** How many values of the grid equal `v`. */
  function Occurrences(grid: seq<seq<seq<int>>>, v: int): nat {
    multiset(Flat(grid))[v]
  }

  /** `np.count_nonzero(row == v)` for one row. */
  function CountInRow(row: seq<seq<int>>, v: int): (n: nat)
    ensures n == multiset(FlatRow(row))[v]
    decreases |row|
  {
    if row == [] then 0
    else
      var last := row[|row| - 1];
      CountInRow(row[..|row| - 1], v) + multiset(last)[v]
  }

  datatype Counts = Counts(casing: nat, defect: nat, background: nat)

  /** `count_classes(segmap)`: per class id, the number of values equal to it. */
  method CountClasses(grid: seq<seq<seq<int>>>) returns (counts: Counts)
    ensures counts.background == Occurrences(grid, Background)
    ensures counts.casing == Occurrences(grid, Casing)
    ensures counts.defect == Occurrences(grid, DefectClass)
  {
    counts := Counts(0, 0, 0);
    for i := 0 to |grid|
      invariant counts.background == Occurrences(grid[..i], Background)
      invariant counts.casing == Occurrences(grid[..i], Casing)
      invariant counts.defect == Occurrences(grid[..i], DefectClass)
    {
      var row := grid[i];
      assert grid[..i + 1][..i] == grid[..i];
      assert Flat(grid[..i + 1]) == Flat(grid[..i]) + FlatRow(row);
      counts := counts.(background := counts.background + CountInRow(row, Background));
      counts := counts.(casing := counts.casing + CountInRow(row, Casing));
      counts := counts.(defect := counts.defect + CountInRow(row, DefectClass));
    }
    assert grid[..|grid|] == grid;
  }

  /** The three class counts never exceed the number of values: values other
      than 0, 1 and 2 are counted nowhere. */
  lemma {:induction false} ClassCountsBounded(s: seq<int>)
    ensures multiset(s)[Background] + multiset(s)[Casing] + multiset(s)[DefectClass] <= |s|
    decreases |s|
  {
    if s != [] {
      ClassCountsBounded(s[..|s| - 1]);
      assert s == s[..|s| - 1] + [s[|s| - 1]];
    }
  }

  // =====================================================================
  // Classification and the copy loop
  // =====================================================================

  datatype Bucket = DefectBucket | FaultFreeBucket | Ambiguous

  /** The threshold rule of lines 65-72. Each count lands in exactly one bucket. */
  function Classify(defect: nat): (b: Bucket)
    ensures b == DefectBucket <==> defect >= DefectThreshold
    ensures b == FaultFreeBucket <==> defect == 0
    ensures b == Ambiguous <==> 0 < defect < DefectThreshold
  {
    if defect >= DefectThreshold then DefectBucket
    else if defect == 0 then FaultFreeBucket
    else Ambiguous
  }

  /** How many of the defect counts fall into bucket `b`. */
  function CountIn(ds: seq<nat>, b: Bucket): nat
    decreases |ds|
  {
    if ds == [] then 0
    else CountIn(ds[..|ds| - 1], b) + (if Classify(ds[|ds| - 1]) == b then 1 else 0)
  }

  datatype CopyOp = CopyOp(src: string, dst: string)

  /** `f"{k}.hdf5"` in folder `dir`. */
  function NumberedFile(dir: string, k: nat): string {
    PathJoin(dir, NatToString(k) + Extension)
  }

  /** The copy made for one file with defect count `d`, given the defect
      counts of the files before it. */
  function Route(src: string, d: nat, before: seq<nat>, out: seq<string>): seq<CopyOp>
    requires |out| == 2
  {
    match Classify(d)
    case DefectBucket => [CopyOp(src, NumberedFile(out[0], CountIn(before, DefectBucket)))]
    case FaultFreeBucket => [CopyOp(src, NumberedFile(out[1], CountIn(before, FaultFreeBucket)))]
    case Ambiguous => []
  }

  /** The copies made for the first `n` files: the i-th file, when routed to
      a folder, goes to that folder under the number of earlier files routed
      there. */
  function Copies(paths: seq<string>, ds: seq<nat>, out: seq<string>, n: nat): seq<CopyOp>
    requires n <= |paths| == |ds| && |out| == 2
    decreases n
  {
    if n == 0 then []
    else Copies(paths, ds, out, n - 1) + Route(paths[n - 1], ds[n - 1], ds[..n - 1], out)
  }

  /** The four counters printed at the end. */
  datatype Tally = Tally(defcount: nat, faultfcount: nat, backgcount: nat, sdefcount: nat)

  function TallyOf(ds: seq<nat>): Tally {
    Tally(CountIn(ds, DefectBucket), CountIn(ds, FaultFreeBucket), 0, CountIn(ds, Ambiguous))
  }

  /** The defect count of each listed file's map: the class-2 values of the
      first channel half. */
  function DefectCounts(maps: seq<SegMap>): seq<nat>
    requires forall k :: 0 <= k < |maps| ==> WellFormed(maps[k]) && maps[k].depth % 2 == 0
  {
    seq(|maps|, k requires 0 <= k < |maps| => Occurrences(FirstHalf(maps[k]).value, DefectClass))
  }

  /** The main loop (lines 52-75) over `path_list`, where `maps[k]` is the
      `segmap` dataset of `path_list[k]`. `failedAt` is the first file whose map
      has an odd channel count (np.dsplit raises there); the copies before it
      have been made. */
  method Sort(pathList: seq<string>, maps: seq<SegMap>, out: seq<string>)
    returns (copies: seq<CopyOp>, tally: Tally, failedAt: Option<nat>)
    requires |maps| == |pathList| && |out| == 2
    requires forall k :: 0 <= k < |maps| ==> WellFormed(maps[k])
    ensures var n := if failedAt.Some? then failedAt.value else |pathList|;
            && n <= |pathList|
            && (failedAt.Some? ==> n < |pathList| && maps[n].depth % 2 == 1)
            && (forall k :: 0 <= k < n ==> maps[k].depth % 2 == 0)
            && var ds := DefectCounts(maps[..n]);
               |ds| == n && copies == Copies(pathList[..n], ds, out, n) && tally == TallyOf(ds)
  {
    copies := [];
    tally := Tally(0, 0, 0, 0);
    ghost var ds: seq<nat> := [];
    var i := 0;
    failedAt := None;
    while i < |pathList| && failedAt.None?
      invariant 0 <= i <= |pathList| && |ds| == i
      invariant failedAt.Some? ==> failedAt.value == i < |pathList| && maps[i].depth % 2 == 1
      invariant forall k :: 0 <= k < i ==> maps[k].depth % 2 == 0
      invariant ds == DefectCounts(maps[..i])
      invariant copies == Copies(pathList[..i], ds, out, i)
      invariant tally == TallyOf(ds)
      decreases |pathList| - i, if failedAt.None? then 1 else 0
    {
      var failed;
      failed, copies, tally, ds := SortFile(pathList, maps, out, i, ds, copies, tally);
      if failed {
        failedAt := Some(i);
      } else {
        assert forall k :: 0 <= k < i + 1 ==> maps[k].depth % 2 == 0 by {
          assert maps[i].depth % 2 == 0;
        }
        i := i + 1;
      }
    }
    assert pathList[..|pathList|] == pathList && maps[..|maps|] == maps;
  }

  /** One pass of the loop, over file `i`: it fails on an odd channel count,
      and otherwise adds the file's copy, if any, and counts it. */
  method SortFile(pathList: seq<string>, maps: seq<SegMap>, out: seq<string>, i: nat,
                  ghost ds0: seq<nat>, copies0: seq<CopyOp>, tally0: Tally)
    returns (failed: bool, copies: seq<CopyOp>, tally: Tally, ghost ds: seq<nat>)
    requires |maps| == |pathList| && |out| == 2 && i < |pathList| && |ds0| == i
    requires forall k :: 0 <= k < |maps| ==> WellFormed(maps[k])
    requires forall k :: 0 <= k < i ==> maps[k].depth % 2 == 0
    requires ds0 == DefectCounts(maps[..i])
    requires copies0 == Copies(pathList[..i], ds0, out, i) && tally0 == TallyOf(ds0)
    ensures failed <==> maps[i].depth % 2 == 1
    ensures failed ==> copies == copies0 && tally == tally0 && ds == ds0
    ensures !failed ==> maps[i].depth % 2 == 0
    ensures !failed ==> |ds| == i + 1 && ds == DefectCounts(maps[..i + 1]) &&
                        copies == Copies(pathList[..i + 1], ds, out, i + 1) && tally == TallyOf(ds)
  {
    var half := FirstHalf(maps[i]);
    if half.None? {
      return true, copies0, tally0, ds0;
    }
    var counts := CountClasses(half.value);
    CopiesStep(pathList, ds0, counts.defect, out, i);
    DefectCountsStep(maps, i);
    var route;
    route, tally := RouteFile(pathList[i], counts.defect, out, ds0, tally0);
    failed, copies, ds := false, copies0 + route, ds0 + [counts.defect];
  }

  /** The branch of the loop for one file with `d` defect pixels: a copy into
      the defect or the fault-free folder under the next number there, or
      none, and one more on the matching counter. */
  method RouteFile(p: string, d: nat, out: seq<string>, ghost ds: seq<nat>, tally0: Tally)
    returns (route: seq<CopyOp>, tally: Tally)
    requires |out| == 2 && tally0 == TallyOf(ds)
    ensures route == Route(p, d, ds, out) && tally == TallyOf(ds + [d])
  {
    var defcount, faultfcount, backgcount, sdefcount := tally0.defcount, tally0.faultfcount, tally0.backgcount, tally0.sdefcount;
    route := [];
    if d >= DefectThreshold {
      route := [CopyOp(p, NumberedFile(out[0], defcount))];
      defcount := defcount + 1;
    } else if d == 0 {
      route := [CopyOp(p, NumberedFile(out[1], faultfcount))];
      faultfcount := faultfcount + 1;
    } else {
      sdefcount := sdefcount + 1;
    }
    tally := Tally(defcount, faultfcount, backgcount, sdefcount);
  }

  /** The defect counts of one more file. */
  lemma DefectCountsStep(maps: seq<SegMap>, i: nat)
    requires i < |maps|
    requires forall k :: 0 <= k <= i ==> WellFormed(maps[k]) && maps[k].depth % 2 == 0
    ensures DefectCounts(maps[..i + 1]) == DefectCounts(maps[..i]) + [Occurrences(FirstHalf(maps[i]).value, DefectClass)]
  {
  }

  /** The copies for one more file: those of the files before, then its own. */
  lemma CopiesStep(paths: seq<string>, ds: seq<nat>, d: nat, out: seq<string>, i: nat)
    requires i < |paths| && |ds| == i && |out| == 2
    ensures Copies(paths[..i + 1], ds + [d], out, i + 1) ==
            Copies(paths[..i], ds, out, i) + Route(paths[i], d, ds, out)
  {
    CopiesAgree(paths[..i + 1], ds + [d], paths[..i], ds, out, i);
    assert (ds + [d])[..i] == ds;
  }

  /** The copies of the first `n` files depend only on those files. */
  lemma {:induction false} CopiesAgree(p1: seq<string>, d1: seq<nat>, p2: seq<string>, d2: seq<nat>, out: seq<string>, n: nat)
    requires n <= |p1| == |d1| && n <= |p2| == |d2| && |out| == 2
    requires p1[..n] == p2[..n] && d1[..n] == d2[..n]
    ensures Copies(p1, d1, out, n) == Copies(p2, d2, out, n)
    decreases n
  {
    if n > 0 {
      assert p1[..n - 1] == p1[..n][..n - 1] == p2[..n - 1];
      assert d1[..n - 1] == d1[..n][..n - 1] == d2[..n - 1];
      assert p1[n - 1] == p1[..n][n - 1] == p2[n - 1];
      assert d1[n - 1] == d1[..n][n - 1] == d2[n - 1];
      CopiesAgree(p1, d1, p2, d2, out, n - 1);
    }
  }

  // ---------------------------------------------------------------------
  // What the loop's result means
  // ---------------------------------------------------------------------

  /** Every file lands in exactly one of the three counters:
      defcount + faultfcount + sdefcount is the number of files read. */
  lemma {:induction false} BucketsPartition(ds: seq<nat>)
    ensures CountIn(ds, DefectBucket) + CountIn(ds, FaultFreeBucket) + CountIn(ds, Ambiguous) == |ds|
    decreases |ds|
  {
    if ds != [] {
      BucketsPartition(ds[..|ds| - 1]);
    }
  }

  /** One copy per file routed to a folder. */
  lemma {:induction false} CopiesLength(paths: seq<string>, ds: seq<nat>, out: seq<string>, n: nat)
    requires n <= |paths| == |ds| && |out| == 2
    ensures |Copies(paths, ds, out, n)| == CountIn(ds[..n], DefectBucket) + CountIn(ds[..n], FaultFreeBucket)
    decreases n
  {
    if n > 0 {
      CopiesLength(paths, ds, out, n - 1);
      assert ds[..n][..n - 1] == ds[..n - 1];
    }
  }

  /** A copy is made exactly for the files routed to a folder: a copy is in
      the result iff it is the copy `Route` prescribes for one of the files. */
  lemma {:induction false} CopiesMembers(paths: seq<string>, ds: seq<nat>, out: seq<string>, n: nat, c: CopyOp)
    requires n <= |paths| == |ds| && |out| == 2
    ensures c in Copies(paths, ds, out, n) <==>
            exists i :: 0 <= i < n && c in Route(paths[i], ds[i], ds[..i], out)
    decreases n
  {
    if n > 0 {
      var prev, last := Copies(paths, ds, out, n - 1), Route(paths[n - 1], ds[n - 1], ds[..n - 1], out);
      assert Copies(paths, ds, out, n) == prev + last;
      CopiesMembers(paths, ds, out, n - 1, c);
      if c in prev + last {
        if c in last {
          assert 0 <= n - 1 < n && c in Route(paths[n - 1], ds[n - 1], ds[..n - 1], out);
        } else {
          var i :| 0 <= i < n - 1 && c in Route(paths[i], ds[i], ds[..i], out);
          assert 0 <= i < n;
        }
      }
      if exists i :: 0 <= i < n && c in Route(paths[i], ds[i], ds[..i], out) {
        var i :| 0 <= i < n && c in Route(paths[i], ds[i], ds[..i], out);
        if i == n - 1 { assert c in last; } else { assert c in prev; }
      }
    }
  }

  /** The number a file gets in its folder is larger than that of every
      earlier file of the same folder. */
  lemma {:induction false} CountInIncreases(ds: seq<nat>, i: nat, j: nat)
    requires i < j <= |ds|
    ensures CountIn(ds[..i], Classify(ds[i])) < CountIn(ds[..j], Classify(ds[i]))
    decreases j
  {
    var b := Classify(ds[i]);
    assert ds[..j][..j - 1] == ds[..j - 1];
    if j == i + 1 {
      assert ds[..j][j - 1] == ds[i];
    } else {
      CountInIncreases(ds, i, j - 1);
    }
  }

  /** No two files are copied to the same place: inside a folder the numbers
      differ, and `posixpath.join` keeps apart different names. */
  lemma SameFolderDistinctNames(dir: string, ds: seq<nat>, i: nat, j: nat)
    requires i < j < |ds| && Classify(ds[i]) == Classify(ds[j])
    ensures NumberedFile(dir, CountIn(ds[..i], Classify(ds[i]))) !=
            NumberedFile(dir, CountIn(ds[..j], Classify(ds[j])))
  {
    var a, b := CountIn(ds[..i], Classify(ds[i])), CountIn(ds[..j], Classify(ds[j]));
    CountInIncreases(ds, i, j);
    NumberedNamesDistinct([], Extension, a, b);
    assert [] + NatToString(a) + Extension == NatToString(a) + Extension;
    assert [] + NatToString(b) + Extension == NatToString(b) + Extension;
    var na, nb := NatToString(a) + Extension, NatToString(b) + Extension;
    assert na[0] != Sep && nb[0] != Sep;
    if NumberedFile(dir, a) == NumberedFile(dir, b) {
      PathJoinInjective(dir, na, nb);
    }
  }
}
