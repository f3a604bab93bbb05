/** The cleanup of core/fs/move-sent.js: which paths `moveSentFiles` moves
    into the history directory after a batch is sent, and where to. The
    file system is left out: the outcome of `mkdir` is a parameter, and so
    is the set of paths whose `rename` fails. */
module MoveSent {
  import opened Wrappers
  import opened StringUtil
  import opened ParseFiles
  import opened BuildMessages
  import opened Helpers

  /** How `fs.mkdir(historyPath)` settles: the directory is made, or the
      call rejects with an error code. */
  datatype MkdirOutcome = Made | MkdirFailed(code: string)

  /** One `moveFile` call: the rename of `src` into the history directory
      `dir`, and whether its failure was caught and logged. */
  datatype Move = Move(src: string, dir: string, logged: bool)
  {
    /** The destination: the history directory joined with the source's
        base name. */
    function Dst(): string {
      JoinPath(dir, BaseName(src))
    }
  }

  /** `path.resolve(dir, name)` for a history directory and a base name:
      the two joined by one '/'. */
  function JoinPath(dir: string, name: string): string {
    if dir != [] && dir[|dir| - 1] == '/' then dir + name else dir + "/" + name
  }

  /** `moveFile(src)`: a failed rename is only logged. */
  function MoveFile(src: string, historyPath: string, failed: set<string>): Move {
    Move(src, historyPath, src in failed)
  }

  /** The `moveFile` calls for some source paths, in order. */
  function Moves(srcs: seq<string>, historyPath: string, failed: set<string>): seq<Move> {
    seq(|srcs|, k requires 0 <= k < |srcs| => MoveFile(srcs[k], historyPath, failed))
  }

  /** The paths moved for one entry of the list: for a bundle head, the
      path, thumbnail and caption of each of its members, the head first;
      otherwise the entry's own path, thumbnail and caption. */
  function SourcesOf(m: Message): seq<string> {
    if m.head.Some? then Triples(BundleMembers(m), PathProp) else Triple(m.file, PathProp)
  }

  /** The paths moved for a list, entry after entry. */
  function Sources(fileList: seq<Message>): seq<string> {
    if fileList == [] then []
    else Sources(fileList[..|fileList| - 1]) + SourcesOf(fileList[|fileList| - 1])
  }

  /** What `moveSentFiles` does: it rejects with the `mkdir` error unless
      the directory was made or already exists, and otherwise starts one
      move per source path, in order. */
  function Plan(fileList: seq<Message>, historyPath: string, mkdir: MkdirOutcome, failed: set<string>): Result<seq<Move>, string> {
    if mkdir.MkdirFailed? && mkdir.code != "EEXIST" then Err(mkdir.code)
    else Ok(Moves(Sources(fileList), historyPath, failed))
  }

  /** `moveSentFiles`: the nested loops pushing one `moveFile` promise per
      path. */
  method MoveSentFiles(fileList: seq<Message>, historyPath: string, mkdir: MkdirOutcome, failed: set<string>)
    returns (r: Result<seq<Move>, string>)
    ensures r == Plan(fileList, historyPath, mkdir, failed)
  {
    if mkdir.MkdirFailed? && mkdir.code != "EEXIST" {
      return Err(mkdir.code);
    }
    var promises: seq<Move> := [];
    var i := 0;
    while i < |fileList|
      invariant 0 <= i <= |fileList|
      invariant promises == Moves(Sources(fileList[..i]), historyPath, failed)
    {
      var file := fileList[i];
      ghost var done := Sources(fileList[..i]);
      if file.head.Some? {
        promises := PushMembers(promises, BundleMembers(file), historyPath, failed);
      } else {
        promises := PushMoves(promises, file.file, historyPath, failed);
      }
      MovesAppend(done, SourcesOf(file), historyPath, failed);
      assert fileList[..i + 1][..i] == fileList[..i];
      i := i + 1;
    }
    assert fileList[..i] == fileList;
    return Ok(promises);
  }

  /** The inner loop over `bundleMembers`: the moves of each member, in
      order. */
  method PushMembers(promises: seq<Move>, members: seq<ParsedFile>, historyPath: string, failed: set<string>)
    returns (promises': seq<Move>)
    ensures promises' == promises + Moves(Triples(members, PathProp), historyPath, failed)
  {
    promises' := promises;
    var j := 0;
    while j < |members|
      invariant 0 <= j <= |members|
      invariant promises' == promises + Moves(Triples(members[..j], PathProp), historyPath, failed)
    {
      ghost var before := Triples(members[..j], PathProp);
      promises' := PushMoves(promises', members[j], historyPath, failed);
      MovesAppend(before, Triple(members[j], PathProp), historyPath, failed);
      assert members[..j + 1][..j] == members[..j];
      assert Triples(members[..j + 1], PathProp) == before + Triple(members[j], PathProp);
      j := j + 1;
    }
    assert members[..j] == members;
  }

  /** The moves of one file: its path, then its thumbnail's and its
      caption's when it has them. */
  method PushMoves(promises: seq<Move>, f: ParsedFile, historyPath: string, failed: set<string>)
    returns (promises': seq<Move>)
    ensures promises' == promises + Moves(Triple(f, PathProp), historyPath, failed)
  {
    ghost var t := [f.path];
    promises' := promises + [MoveFile(f.path, historyPath, failed)];
    MovesSnoc([], f.path, historyPath, failed);
    assert [] + [f.path] == t;
    if f.thumb.Some? {
      MovesSnoc(t, f.thumb.value.path, historyPath, failed);
      promises' := promises' + [MoveFile(f.thumb.value.path, historyPath, failed)];
      t := t + [f.thumb.value.path];
    }
    if f.caption.Some? {
      MovesSnoc(t, f.caption.value.path, historyPath, failed);
      promises' := promises' + [MoveFile(f.caption.value.path, historyPath, failed)];
      t := t + [f.caption.value.path];
    }
    assert t == Triple(f, PathProp);
  }

  lemma MovesSnoc(t: seq<string>, x: string, historyPath: string, failed: set<string>)
    ensures Moves(t + [x], historyPath, failed) == Moves(t, historyPath, failed) + [MoveFile(x, historyPath, failed)]
  {
  }

  /** The moves of a concatenation are the moves of each part, in order. */
  lemma MovesAppend(a: seq<string>, b: seq<string>, historyPath: string, failed: set<string>)
    ensures Moves(a + b, historyPath, failed) == Moves(a, historyPath, failed) + Moves(b, historyPath, failed)
  {
  }

  /** The call rejects exactly when `mkdir` fails with a code other than
      EEXIST; a failed rename never makes it reject, and which renames
      fail changes nothing but the `logged` flags. */
  lemma PlanOutcome(fileList: seq<Message>, historyPath: string, mkdir: MkdirOutcome, failed: set<string>, failed': set<string>)
    ensures Plan(fileList, historyPath, mkdir, failed).Err? <==> mkdir.MkdirFailed? && mkdir.code != "EEXIST"
    ensures Plan(fileList, historyPath, mkdir, failed).Err? ==> Plan(fileList, historyPath, mkdir, failed).error == mkdir.code
    ensures Plan(fileList, historyPath, mkdir, failed).Ok? ==>
              var ms, ms' := Plan(fileList, historyPath, mkdir, failed).value, Plan(fileList, historyPath, mkdir, failed').value;
              && |ms| == |ms'| == |Sources(fileList)|
              && forall k :: 0 <= k < |ms| ==>
                   && ms[k].src == ms'[k].src == Sources(fileList)[k]
                   && ms[k].Dst() == ms'[k].Dst()
                   && (ms[k].logged <==> ms[k].src in failed)
  {
  }

  /** A name without '/' joined to a directory is found back as the base
      name of the result, and the result starts with the directory. */
  lemma JoinPathBase(dir: string, name: string)
    requires forall j :: 0 <= j < |name| ==> name[j] != '/'
    ensures BaseName(JoinPath(dir, name)) == name
    ensures |dir| <= |JoinPath(dir, name)| && JoinPath(dir, name)[..|dir|] == dir
  {
    var p := JoinPath(dir, name);
    var d := |p| - |name| - 1;
    assert p[d] == '/';
    assert forall j :: d < j < |p| ==> p[j] == name[j - d - 1];
    assert LastIndexOf(p, '/') == Some(d);
    assert p[d + 1..] == name;
  }

  /** Each destination lies in the history directory and keeps the base
      name of its source. */
  lemma MoveDestination(src: string, historyPath: string, failed: set<string>)
    ensures var dst := MoveFile(src, historyPath, failed).Dst();
            BaseName(dst) == BaseName(src) && |historyPath| <= |dst| && dst[..|historyPath|] == historyPath
  {
    JoinPathBase(historyPath, BaseName(src));
  }

  /** The entries are handled in list order: the paths of a concatenation
      are those of each part, one after the other. */
  lemma {:induction false} SourcesAppend(a: seq<Message>, b: seq<Message>)
    ensures Sources(a + b) == Sources(a) + Sources(b)
    decreases |b|
  {
    if b == [] {
      assert a + b == a;
    } else {
      var b', last := b[..|b| - 1], b[|b| - 1];
      assert b == b' + [last];
      assert a + b == (a + b') + [last];
      SourcesAppend(a, b');
      calc {
        Sources(a + b);
        { SourcesSnoc(a + b', last); }
        Sources(a + b') + SourcesOf(last);
        Sources(a) + Sources(b') + SourcesOf(last);
        { AppendAssoc(Sources(a), Sources(b'), SourcesOf(last)); }
        Sources(a) + (Sources(b') + SourcesOf(last));
        { SourcesSnoc(b', last); }
        Sources(a) + Sources(b);
      }
    }
  }

  /** One more entry at the end adds its paths at the end. */
  lemma SourcesSnoc(l: seq<Message>, m: Message)
    ensures Sources(l + [m]) == Sources(l) + SourcesOf(m)
  {
    assert (l + [m])[..|l + [m]| - 1] == l;
  }

  /** A bundle head moves the paths of its members only: its own path,
      thumbnail and caption come first, as those of its first member, and
      are not moved a second time. An entry outside a bundle moves its path
      and then its thumbnail and caption, when it has them. */
  lemma SourcesOfShape(m: Message)
    ensures m.head.None? ==>
              SourcesOf(m) == [m.file.path]
                              + (if m.file.thumb.Some? then [m.file.thumb.value.path] else [])
                              + (if m.file.caption.Some? then [m.file.caption.value.path] else [])
    ensures m.head.Some? ==>
              && SourcesOf(m) == Triples(BundleMembers(m), PathProp)
              && |Triple(m.file, PathProp)| <= |SourcesOf(m)|
              && SourcesOf(m)[..|Triple(m.file, PathProp)|] == Triple(m.file, PathProp)
  {
    if m.head.Some? {
      TriplesFirst(BundleMembers(m), PathProp);
    }
  }

  /** The paths moved for an entry are the paths `flattenFileObject`
      collects for it, except that it lists a bundle head's own paths a
      second time, after its members'. */
  lemma SourcesFlatten(m: Message)
    ensures Unfiltered(m, PathProp) == SourcesOf(m) + (if m.head.Some? then Triple(m.file, PathProp) else [])
  {
    if m.head.None? {
      assert Unfiltered(m, PathProp) == [] + Triple(m.file, PathProp);
    }
  }
}
