/** The pure part of core/fs/fetch-content.js: turning the directory's paths
    and their `fs.stat` results into file records, and the in-place sort of
    those records by change time. The stat results are an input map; a path
    missing from it is a failed `fs.stat`. */
module FetchContent {
  import opened Wrappers
  import opened StringUtil
  import opened Sorting

  /** What the code uses of an `fs.Stats`: the directory flag and `ctime`
      in milliseconds. */
  datatype Stat = Stat(isDirectory: bool, ctime: int)

  /** A file record: base name, path as given, lower-cased extension and
      the change time of its stat. */
  datatype FileRecord = FileRecord(name: string, path: string, ext: string, ctime: int)

  function CTime(f: FileRecord): int {
    f.ctime
  }

  /** The record built for a path that is not a directory. */
  function MakeRecord(path: string, st: Stat): FileRecord {
    var name := BaseName(path);
    FileRecord(name, path, ToLower(ExtName(name)), st.ctime)
  }

  /** Whether every path has a stat (otherwise one `fs.stat` rejects and
      with it the whole `Promise.all`). */
  predicate AllStatted(paths: seq<string>, stats: map<string, Stat>) {
    forall i :: 0 <= i < |paths| ==> paths[i] in stats
  }

  /** `getFileMeta`: one record per path that is not a directory, in path
      order; None when any stat fails. */
  function GetFileMeta(paths: seq<string>, stats: map<string, Stat>): (r: Option<seq<FileRecord>>)
    ensures r.Some? <==> AllStatted(paths, stats)
    ensures r.Some? ==> |r.value| <= |paths|
  {
    if paths == [] then Some([])
    else
      var last := paths[|paths| - 1];
      match GetFileMeta(paths[..|paths| - 1], stats)
      case None => None
      case Some(init) =>
        if last !in stats then None
        else if stats[last].isDirectory then Some(init)
        else Some(init + [MakeRecord(last, stats[last])])
  }

  /** Every record comes from a path of the list that is not a directory. */
  lemma {:induction false} GetFileMetaSound(paths: seq<string>, stats: map<string, Stat>, f: FileRecord)
    requires AllStatted(paths, stats) && f in GetFileMeta(paths, stats).value
    ensures f.path in paths && f.path in stats && !stats[f.path].isDirectory
    ensures f == MakeRecord(f.path, stats[f.path])
    decreases |paths|
  {
    var init, last := paths[..|paths| - 1], paths[|paths| - 1];
    assert paths == init + [last];
    GetFileMetaSnoc(init, last, stats);
    if f in GetFileMeta(init, stats).value {
      GetFileMetaSound(init, stats, f);
      assert f.path in paths by {
        var i :| 0 <= i < |init| && init[i] == f.path;
        assert paths[i] == f.path;
      }
    } else {
      assert f in PathRecords(last, stats);
      var st := stats[last];
      assert !st.isDirectory && f == MakeRecord(last, st);
      assert f.path == last;
    }
  }

  /** Every path of the list that is not a directory gets its record. */
  lemma {:induction false} GetFileMetaComplete(paths: seq<string>, stats: map<string, Stat>, i: nat)
    requires AllStatted(paths, stats) && i < |paths| && !stats[paths[i]].isDirectory
    ensures MakeRecord(paths[i], stats[paths[i]]) in GetFileMeta(paths, stats).value
    decreases |paths|
  {
    var init := paths[..|paths| - 1];
    assert AllStatted(init, stats);
    if i < |paths| - 1 {
      GetFileMetaComplete(init, stats, i);
    }
  }

  /** `getFileMeta` keeps the input order: the records of a concatenation
      are the records of each part, one after the other. */
  lemma {:induction false} GetFileMetaAppend(a: seq<string>, b: seq<string>, stats: map<string, Stat>)
    requires AllStatted(a + b, stats)
    ensures AllStatted(a, stats) && AllStatted(b, stats)
    ensures GetFileMeta(a + b, stats).value == GetFileMeta(a, stats).value + GetFileMeta(b, stats).value
    decreases |b|
  {
    assert forall i :: 0 <= i < |a| ==> a[i] == (a + b)[i];
    assert forall i :: 0 <= i < |b| ==> b[i] == (a + b)[|a| + i];
    if b == [] {
      assert a + b == a;
    } else {
      var b', last := b[..|b| - 1], b[|b| - 1];
      assert b == b' + [last];
      assert a + b == (a + b') + [last];
      GetFileMetaAppend(a, b', stats);
      GetFileMetaSnoc(a + b', last, stats);
      GetFileMetaSnoc(b', last, stats);
      AppendAssoc(GetFileMeta(a, stats).value, GetFileMeta(b', stats).value, PathRecords(last, stats));
    }
  }

  /** The records of one statted path: none for a directory. */
  function PathRecords(p: string, stats: map<string, Stat>): seq<FileRecord>
    requires p in stats
  {
    if stats[p].isDirectory then [] else [MakeRecord(p, stats[p])]
  }

  /** One more path at the end adds its record at the end. */
  lemma GetFileMetaSnoc(paths: seq<string>, p: string, stats: map<string, Stat>)
    requires AllStatted(paths + [p], stats)
    ensures AllStatted(paths, stats) && p in stats
    ensures GetFileMeta(paths + [p], stats).value == GetFileMeta(paths, stats).value + PathRecords(p, stats)
  {
    assert forall i :: 0 <= i < |paths| ==> paths[i] == (paths + [p])[i];
    assert (paths + [p])[|paths|] == p;
    assert (paths + [p])[..|paths + [p]| - 1] == paths;
  }

  /** A single path gives its record, or nothing for a directory. */
  lemma GetFileMetaSingle(p: string, stats: map<string, Stat>)
    requires p in stats
    ensures GetFileMeta([p], stats).value == if stats[p].isDirectory then [] else [MakeRecord(p, stats[p])]
  {
    assert [p][..0] == [];
  }

  /** Each record's name is the last path segment, and its extension is
      lower case, empty or starting with '.', and a suffix of the name up to
      case. */
  lemma RecordShape(path: string, st: Stat)
    ensures MakeRecord(path, st).path == path && MakeRecord(path, st).ctime == st.ctime
    ensures var n := MakeRecord(path, st).name; n == path[|path| - |n|..] && forall j :: 0 <= j < |n| ==> n[j] != '/'
    ensures var e := MakeRecord(path, st).ext; forall j :: 0 <= j < |e| ==> !('A' <= e[j] <= 'Z')
    ensures var e := MakeRecord(path, st).ext; e == "" || (e[0] == '.' && |e| <= |MakeRecord(path, st).name|)
  {
    var n := BaseName(path);
    var x := ExtName(n);
    assert forall j :: 0 <= j < |x| ==> !('A' <= LowerChar(x[j]) <= 'Z');
  }

  /** `sortFilesByDate`: sorts the array in place by `ctime` (stably, as the
      runtime's sort is) and returns that same array. */
  method SortFilesByDate(files: array<FileRecord>) returns (r: array<FileRecord>)
    modifies files
    ensures r == files
    ensures files[..] == SortBy(old(files[..]), CTime)
  {
    SortInPlace(files, CTime);
    r := files;
  }

  /** What the sort promises: ascending `ctime`, the same records, and
      records with equal `ctime` in their original order. */
  lemma SortFilesByDateSpec(s: seq<FileRecord>)
    ensures forall i, j :: 0 <= i < j < |SortBy(s, CTime)| ==> SortBy(s, CTime)[i].ctime <= SortBy(s, CTime)[j].ctime
    ensures multiset(SortBy(s, CTime)) == multiset(s)
    ensures forall t :: WithKey(SortBy(s, CTime), CTime, t) == WithKey(s, CTime, t)
  {
    SortBySorted(s, CTime);
    SortByPermutation(s, CTime);
    forall t ensures WithKey(SortBy(s, CTime), CTime, t) == WithKey(s, CTime, t) {
      SortByStable(s, CTime, t);
    }
  }
}
