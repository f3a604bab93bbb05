/** The classifier of core/assembler/parse-files.js: the body of the
    `parsedFilesPromise` callback. It walks the file records in order,
    keeps a list of names to skip, and outputs each file that is not
    skipped, decorated with its media kind and its thumbnail and caption
    companions; the companions' names go on the skip list. */
module ParseFiles {
  import opened Wrappers
  import opened StringUtil
  import opened MediaTypes
  import opened FetchContent

  /** A classified file: the record's name, path and change time, the
      extension recomputed from the name (NOT lower-cased), the media kind
      and the companion records found for it. */
  datatype ParsedFile = ParsedFile(name: string, path: string, ext: string, ctime: int, kind: MediaKind,
                                   thumb: Option<FileRecord>, caption: Option<FileRecord>)

  /** The regular expression `^.*_animation\..*$` (no multiline flag): the
      name has no line terminator and contains "_animation.". */
  predicate IsAnimationName(name: string) {
    NoLineTerminator(name) && HasSubstring(name, SuffixAnimation + ".")
  }

  /** The kind of a file with extension `ext`: the table's kind, Document
      for an extension the table does not list, and Animation for a video
      or a `.gif` whose name marks it as one. */
  function ResolveKind(ext: string, name: string): MediaKind {
    match LookupKind(ext)
    case None => Document
    case Some(k) => if (k == Video || ext == ExtGif) && IsAnimationName(name) then Animation else k
  }

  lemma ResolveKindSpec(ext: string, name: string)
    ensures LookupKind(ext).None? ==> ResolveKind(ext, name) == Document
    ensures ResolveKind(ext, name) == Animation <==> (ext == ExtMp4 || ext == ExtGif) && IsAnimationName(name)
    ensures ResolveKind(ext, name) != Animation ==> ResolveKind(ext, name) == LookupKind(ext).GetOr(Document)
    ensures ResolveKind(ext, name) == Document <==> LookupKind(ext).None?
  {
    VideoExtensions(ext);
    ImageExtensions(ext);
    LookupNeverDocumentOrAnimation(ext);
  }

  /** The kinds that are given a thumbnail. */
  predicate TakesThumb(k: MediaKind) {
    k == Document || k == Video || k == Animation
  }

  function ThumbNames(name: string): seq<string> {
    [name + SuffixThumb + ExtJpg, name + SuffixThumb + ExtJpeg]
  }

  function CaptionNames(name: string): seq<string> {
    [name + SuffixCaption + ExtTxt, name + SuffixCaption + ExtMd,
     name + SuffixCaption + ExtHtm, name + SuffixCaption + ExtHtml]
  }

  /** `files.find(el => el.name === a || ...)`: the first record whose name
      is one of `names`. */
  function FindNamed(files: seq<FileRecord>, names: seq<string>): (r: Option<FileRecord>)
    ensures r.Some? ==> r.value in files && r.value.name in names
    ensures r.None? <==> forall j :: 0 <= j < |files| ==> files[j].name !in names
    ensures r.Some? ==> exists j :: 0 <= j < |files| && files[j] == r.value &&
                           forall m :: 0 <= m < j ==> files[m].name !in names
  {
    if files == [] then None
    else if files[0].name in names then Some(files[0])
    else
      var r := FindNamed(files[1..], names);
      assert forall j :: 1 <= j < |files| ==> files[j] == files[1..][j - 1];
      r
  }

  /** The decoration one file receives, `files` being the whole list the
      companions are looked up in. */
  function Classify(files: seq<FileRecord>, f: FileRecord): ParsedFile {
    var ext := ExtName(f.name);
    var kind := ResolveKind(ext, f.name);
    ParsedFile(f.name, f.path, ext, f.ctime, kind,
               if TakesThumb(kind) then FindNamed(files, ThumbNames(f.name)) else None,
               if kind != Text then FindNamed(files, CaptionNames(f.name)) else None)
  }

  /** A classified file keeps the record's name, path and change time and
      its extension as `path.extname` gives it; it has a thumbnail exactly
      when its kind takes one and a `<name>_thumb.jpg` or `.jpeg` is in the
      list, and a caption exactly when it is not text and a
      `<name>_caption.{txt,md,htm,html}` is; each companion is the first
      such record of the list. */
  lemma ClassifySpec(files: seq<FileRecord>, f: FileRecord)
    ensures var p := Classify(files, f);
      && p.name == f.name && p.path == f.path && p.ctime == f.ctime && p.ext == ExtName(f.name)
      && p.kind == ResolveKind(ExtName(f.name), f.name)
      && (p.thumb.Some? <==> TakesThumb(p.kind) && exists j :: 0 <= j < |files| && files[j].name in ThumbNames(f.name))
      && (p.caption.Some? <==> p.kind != Text && exists j :: 0 <= j < |files| && files[j].name in CaptionNames(f.name))
      && (p.thumb.Some? ==> p.thumb == FindNamed(files, ThumbNames(f.name)))
      && (p.caption.Some? ==> p.caption == FindNamed(files, CaptionNames(f.name)))
  {
  }

  /** The names a classified file puts on the skip list. */
  function Companions(p: ParsedFile): set<string> {
    (if p.thumb.Some? then {p.thumb.value.name} else {}) + (if p.caption.Some? then {p.caption.value.name} else {})
  }

  /** The decoration of every file of the list, each looked up in the whole
      list; the walk below decides which of them are output. */
  function ClassifyAll(files: seq<FileRecord>): (cls: seq<ParsedFile>)
    ensures |cls| == |files|
  {
    seq(|files|, i requires 0 <= i < |files| => Classify(files, files[i]))
  }

  /** The skip list and the output list. Only membership is ever asked of
      the skip list, so it is a set here. */
  datatype ParseState = ParseState(skipped: set<string>, parsed: seq<ParsedFile>)

  /** The skip list and the output after the first `n` files, given their
      decorations `cls`. */
  function Walk(cls: seq<ParsedFile>, n: nat): ParseState
    requires n <= |cls|
  {
    if n == 0 then ParseState({}, [])
    else
      var st := Walk(cls, n - 1);
      var p := cls[n - 1];
      if p.name in st.skipped then st
      else ParseState(st.skipped + Companions(p), st.parsed + [p])
  }

  /** The output of the classifier. */
  function Parsed(files: seq<FileRecord>): seq<ParsedFile> {
    Walk(ClassifyAll(files), |files|).parsed
  }

  /** Whether file `i` is output: its name is not on the skip list when the
      walk reaches it. */
  predicate Kept(cls: seq<ParsedFile>, i: nat)
    requires i < |cls|
  {
    cls[i].name !in Walk(cls, i).skipped
  }

  lemma ClassifyAllAt(files: seq<FileRecord>, i: nat)
    requires i < |files|
    ensures ClassifyAll(files)[i] == Classify(files, files[i])
  {
  }

  lemma WalkStep(cls: seq<ParsedFile>, n: nat)
    requires 0 < n <= |cls|
    ensures !Kept(cls, n - 1) ==> Walk(cls, n) == Walk(cls, n - 1)
    ensures Kept(cls, n - 1) ==>
      Walk(cls, n) == ParseState(Walk(cls, n - 1).skipped + Companions(cls[n - 1]), Walk(cls, n - 1).parsed + [cls[n - 1]])
  {
  }

  /** The decoration of one file as the callback performs it: extension,
      kind (with the fallback and the animation promotion), then the
      thumbnail and the caption lookups. */
  method Decorate(files: seq<FileRecord>, f: FileRecord) returns (p: ParsedFile)
    ensures p == Classify(files, f)
  {
    var ext := ExtName(f.name);
    var kind := ResolveKind(ext, f.name);
    var thumb: Option<FileRecord> := None;
    var caption: Option<FileRecord> := None;
    if TakesThumb(kind) {
      thumb := FindNamed(files, ThumbNames(f.name));
    }
    if kind != Text {
      caption := FindNamed(files, CaptionNames(f.name));
    }
    p := ParsedFile(f.name, f.path, ext, f.ctime, kind, thumb, caption);
  }

  /** The callback body. */
  method ParseFiles(files: seq<FileRecord>) returns (parsed: seq<ParsedFile>)
    ensures parsed == Parsed(files)
  {
    var skipped: set<string> := {};
    parsed := [];
    var i := 0;
    while i < |files|
      invariant 0 <= i <= |files|
      invariant ParseState(skipped, parsed) == Walk(ClassifyAll(files), i)
    {
      skipped, parsed := ParseOne(files, i, skipped, parsed);
      i := i + 1;
    }
  }

  /** One pass of the `forEach`: a file already on the skip list is passed
      over; any other is decorated, output, and its companions' names are
      put on the skip list. */
  method ParseOne(files: seq<FileRecord>, i: nat, skipped: set<string>, parsed: seq<ParsedFile>)
    returns (skipped': set<string>, parsed': seq<ParsedFile>)
    requires i < |files|
    requires ParseState(skipped, parsed) == Walk(ClassifyAll(files), i)
    ensures ParseState(skipped', parsed') == Walk(ClassifyAll(files), i + 1)
  {
    var f := files[i];
    ClassifyAllAt(files, i);
    WalkStep(ClassifyAll(files), i + 1);
    skipped', parsed' := skipped, parsed;
    if f.name !in skipped {
      var p := Decorate(files, f);
      // the names of the thumbnail and the caption found, if any
      skipped' := skipped + Companions(p);
      parsed' := parsed + [p];
    }
  }

  /** The indices of the files that are output, among the first `n`. */
  function KeptIndices(cls: seq<ParsedFile>, n: nat): seq<nat>
    requires n <= |cls|
  {
    if n == 0 then []
    else KeptIndices(cls, n - 1) + (if Kept(cls, n - 1) then [n - 1] else [])
  }

  lemma {:induction false} KeptIndicesOrdered(cls: seq<ParsedFile>, n: nat)
    requires n <= |cls|
    ensures var idx := KeptIndices(cls, n); var out := Walk(cls, n).parsed;
      && |out| == |idx|
      && (forall k :: 0 <= k < |idx| ==> idx[k] < n && out[k] == cls[idx[k]])
      && (forall k, l :: 0 <= k < l < |idx| ==> idx[k] < idx[l])
  {
    if n > 0 {
      KeptIndicesOrdered(cls, n - 1);
      WalkStep(cls, n);
      var idx0, out0 := KeptIndices(cls, n - 1), Walk(cls, n - 1).parsed;
      if Kept(cls, n - 1) {
        assert KeptIndices(cls, n) == idx0 + [n - 1];
        assert Walk(cls, n).parsed == out0 + [cls[n - 1]];
      } else {
        assert KeptIndices(cls, n) == idx0;
        assert Walk(cls, n).parsed == out0;
      }
    }
  }

  lemma {:induction false} KeptIndicesExact(cls: seq<ParsedFile>, n: nat)
    requires n <= |cls|
    ensures forall i :: 0 <= i < n ==> (i in KeptIndices(cls, n) <==> Kept(cls, i))
  {
    if n > 0 {
      KeptIndicesExact(cls, n - 1);
      KeptIndicesOrdered(cls, n - 1);
      KeptIndicesStep(cls, n);
    }
  }

  /** Index `n - 1` joins the kept indices exactly when file `n - 1` is kept. */
  lemma KeptIndicesStep(cls: seq<ParsedFile>, n: nat)
    requires 0 < n <= |cls|
    ensures forall i :: i in KeptIndices(cls, n) <==> i in KeptIndices(cls, n - 1) || (i == n - 1 && Kept(cls, n - 1))
  {
  }

  /** The output is the input in its original order with the skipped files
      removed: output k is the decoration of input `KeptIndices[k]`, the
      indices increase, and an index is among them exactly when that file's
      name is not on the skip list when the walk reaches it. */
  lemma WalkIsKeptSubsequence(cls: seq<ParsedFile>, n: nat)
    requires n <= |cls|
    ensures var idx := KeptIndices(cls, n); var out := Walk(cls, n).parsed;
      && |out| == |idx|
      && (forall k :: 0 <= k < |idx| ==> idx[k] < n && out[k] == cls[idx[k]])
      && (forall k, l :: 0 <= k < l < |idx| ==> idx[k] < idx[l])
      && (forall i :: 0 <= i < n ==> (i in idx <==> Kept(cls, i)))
  {
    KeptIndicesOrdered(cls, n);
    KeptIndicesExact(cls, n);
  }

  /** The same for the classifier itself: output k is input
      `KeptIndices[k]` decorated. */
  lemma ParsedIsKeptSubsequence(files: seq<FileRecord>)
    ensures var cls := ClassifyAll(files); var idx := KeptIndices(cls, |files|);
      && |Parsed(files)| == |idx|
      && (forall k :: 0 <= k < |idx| ==> idx[k] < |files| && Parsed(files)[k] == Classify(files, files[idx[k]]))
      && (forall k, l :: 0 <= k < l < |idx| ==> idx[k] < idx[l])
      && (forall i :: 0 <= i < |files| ==> (i in idx <==> Kept(cls, i)))
  {
    WalkIsKeptSubsequence(ClassifyAll(files), |files|);
  }

  /** A file already on the skip list when reached is not output; any other
      file is appended to the output. */
  lemma SkippedNotOutput(cls: seq<ParsedFile>, n: nat)
    requires n < |cls|
    ensures !Kept(cls, n) ==> Walk(cls, n + 1) == Walk(cls, n)
    ensures Kept(cls, n) ==> Walk(cls, n + 1).parsed == Walk(cls, n).parsed + [cls[n]]
  {
  }

  /** The skip list only grows. */
  lemma {:induction false} SkipListGrows(cls: seq<ParsedFile>, m: nat, n: nat)
    requires m <= n <= |cls|
    ensures forall s :: s in Walk(cls, m).skipped ==> s in Walk(cls, n).skipped
    decreases n - m
  {
    if m < n {
      SkipListGrows(cls, m, n - 1);
    }
  }

  /** Every thumbnail or caption attached to an output file has its name on
      the skip list. */
  lemma {:induction false} CompanionsSkipped(cls: seq<ParsedFile>, n: nat)
    requires n <= |cls|
    ensures forall k :: 0 <= k < |Walk(cls, n).parsed| ==>
      var p := Walk(cls, n).parsed[k];
      (p.thumb.Some? ==> p.thumb.value.name in Walk(cls, n).skipped)
      && (p.caption.Some? ==> p.caption.value.name in Walk(cls, n).skipped)
  {
    if n > 0 {
      CompanionsSkipped(cls, n - 1);
    }
  }

  /** A companion that comes after the file it was attached to is never
      output itself. */
  lemma LaterCompanionNotOutput(cls: seq<ParsedFile>, i: nat, j: nat)
    requires i < j < |cls| && Kept(cls, i)
    requires cls[j].name in Companions(cls[i])
    ensures !Kept(cls, j)
  {
    SkipListGrows(cls, i + 1, j);
  }

  /** The list is sorted strictly by name (so names are distinct). */
  predicate NameSorted(files: seq<FileRecord>) {
    forall i, j :: 0 <= i < j < |files| ==> LexLess(files[i].name, files[j].name)
  }

  /** The companions of a file are named after it: its name followed by a
      suffix and an extension. */
  lemma CompanionNames(files: seq<FileRecord>, i: nat, c: string)
    requires i < |files| && c in Companions(Classify(files, files[i]))
    ensures c in ThumbNames(files[i].name) || c in CaptionNames(files[i].name)
  {
  }

  /** In a name-sorted list a file's companions come after it, since its
      name is a proper prefix of theirs. */
  lemma CompanionFollowsOwner(files: seq<FileRecord>, i: nat, j: nat)
    requires NameSorted(files) && i < |files| && j < |files|
    requires files[j].name in ThumbNames(files[i].name) || files[j].name in CaptionNames(files[i].name)
    ensures i < j
  {
    var owner := files[i].name;
    var t: string;
    if files[j].name in ThumbNames(owner) {
      t := if files[j].name == owner + SuffixThumb + ExtJpg then SuffixThumb + ExtJpg else SuffixThumb + ExtJpeg;
    } else {
      t := if files[j].name == owner + SuffixCaption + ExtTxt then SuffixCaption + ExtTxt
           else if files[j].name == owner + SuffixCaption + ExtMd then SuffixCaption + ExtMd
           else if files[j].name == owner + SuffixCaption + ExtHtm then SuffixCaption + ExtHtm
           else SuffixCaption + ExtHtml;
    }
    assert files[j].name == owner + t && |t| > 0;
    PrefixLexLess(owner, t);
    if j < i {
      LexLessAsymmetric(files[j].name, owner);
    }
  }

  /** With a name-sorted list, a file attached as a thumbnail or caption
      never appears in the output. */
  lemma CompanionsExclusive(files: seq<FileRecord>)
    requires NameSorted(files)
    ensures forall k, l :: 0 <= k < |Parsed(files)| && 0 <= l < |Parsed(files)| ==>
              Parsed(files)[l].name !in Companions(Parsed(files)[k])
  {
    var cls := ClassifyAll(files);
    var idx := KeptIndices(cls, |files|);
    var out := Parsed(files);
    WalkIsKeptSubsequence(cls, |files|);
    forall k, l | 0 <= k < |out| && 0 <= l < |out|
      ensures out[l].name !in Companions(out[k])
    {
      var i, j := idx[k], idx[l];
      assert out[k] == cls[i] && out[l] == cls[j];
      assert i in idx && j in idx;
      KeptPairExcluded(files, i, j);
    }
  }

  /** Of two output files of a name-sorted list, neither is a companion of
      the other. */
  lemma KeptPairExcluded(files: seq<FileRecord>, i: nat, j: nat)
    requires NameSorted(files) && i < |files| && j < |files|
    requires Kept(ClassifyAll(files), i) && Kept(ClassifyAll(files), j)
    ensures ClassifyAll(files)[j].name !in Companions(ClassifyAll(files)[i])
  {
    var cls := ClassifyAll(files);
    if cls[j].name in Companions(cls[i]) {
      CompanionNames(files, i, cls[j].name);
      CompanionFollowsOwner(files, i, j);
      LaterCompanionNotOutput(cls, i, j);
    }
  }

  /** When a companion comes BEFORE its owner it is output on its own and
      also attached to the owner: `clip.mp4_thumb.jpg` then `clip.mp4`. */
  lemma EarlierCompanionIsAlsoOutput()
    ensures var thumb := FileRecord("clip.mp4_thumb.jpg", "/in/clip.mp4_thumb.jpg", ".jpg", 1);
      var clip := FileRecord("clip.mp4", "/in/clip.mp4", ".mp4", 2);
      var out := Parsed([thumb, clip]);
      |out| == 2 && out[0].name == thumb.name && out[1].name == clip.name && out[1].thumb == Some(thumb)
  {
    var thumb := FileRecord("clip.mp4_thumb.jpg", "/in/clip.mp4_thumb.jpg", ".jpg", 1);
    var clip := FileRecord("clip.mp4", "/in/clip.mp4", ".mp4", 2);
    ExampleClipThumb(thumb, clip);
    ExampleThumbCompanions([thumb, clip], thumb, clip.name);
    BothOutput(thumb, clip);
  }

  /** Of two files, the second is output unless the first claims its
      name; the first always is. */
  lemma BothOutput(f: FileRecord, g: FileRecord)
    requires g.name !in Companions(Classify([f, g], f))
    ensures Parsed([f, g]) == [Classify([f, g], f), Classify([f, g], g)]
  {
    var cls := ClassifyAll([f, g]);
    ClassifyAllAt([f, g], 0);
    ClassifyAllAt([f, g], 1);
    WalkStep(cls, 1);
    WalkStep(cls, 2);
  }

  /** The example's video finds its thumbnail in the list. */
  lemma ExampleClipThumb(thumb: FileRecord, clip: FileRecord)
    requires thumb.name == "clip.mp4_thumb.jpg" && clip.name == "clip.mp4"
    ensures Classify([thumb, clip], clip).thumb == Some(thumb)
  {
    ExtNameOfSuffix("clip", ".mp4");
    assert clip.name == "clip" + ".mp4";
    LookupIsContainingEntry(ExtMp4, 0);
    assert ThumbNames(clip.name)[0] == thumb.name;
  }

  /** The example's thumbnail, classified on its own, claims nothing named
      like the video. */
  lemma ExampleThumbCompanions(files: seq<FileRecord>, thumb: FileRecord, other: string)
    requires thumb.name == "clip.mp4_thumb.jpg" && other == "clip.mp4"
    ensures other !in Companions(Classify(files, thumb))
  {
    var p := Classify(files, thumb);
    if p.thumb.Some? {
      assert p.thumb.value.name in ThumbNames(thumb.name);
      assert |p.thumb.value.name| > |other|;
    }
    if p.caption.Some? {
      assert p.caption.value.name in CaptionNames(thumb.name);
      assert |p.caption.value.name| > |other|;
    }
  }

  /** As written, the callback reads `types.knownMedia`, a name the types
      module does not export: `.find` on `undefined` throws at the first file
      (which is never skipped), and the `.catch` leaves the promise's value
      `undefined` (None). Only an empty list gets through. */
  function ParsedAsWritten(files: seq<FileRecord>): Option<seq<ParsedFile>> {
    if files != [] && "knownMedia" !in ExportedNames then None else Some(Parsed(files))
  }

  lemma KnownMediaNotExported(files: seq<FileRecord>)
    ensures ParsedAsWritten(files).Some? <==> files == []
    ensures "knownMedias" in ExportedNames
  {
    KnownMediaName();
  }

  /** As written, the kind is `knownMedias.find(...).type`, which throws
      (None) when no entry lists the extension, before the Document
      fallback is reached. */
  function ResolveKindAsWritten(ext: string, name: string): Option<MediaKind> {
    match LookupKind(ext)
    case None => None
    case Some(_) => Some(ResolveKind(ext, name))
  }

  /** The as-written lookup throws for exactly the extensions the fallback
      was meant for; `photo.JPG` (whose extension is not lower-cased here)
      and `notes.pdf` are two of them, which the fallback sends as
      documents. */
  lemma UnknownExtensionThrows(ext: string, name: string)
    ensures ResolveKindAsWritten(ext, name).None? <==> ResolveKind(ext, name) == Document
    ensures ResolveKindAsWritten(ext, name).Some? ==> ResolveKindAsWritten(ext, name).value == ResolveKind(ext, name)
    ensures ResolveKindAsWritten(".JPG", "photo.JPG").None? && ResolveKind(".JPG", "photo.JPG") == Document
    ensures ResolveKindAsWritten(".pdf", "notes.pdf").None? && ResolveKind(".pdf", "notes.pdf") == Document
  {
    ResolveKindSpec(ext, name);
    LookupKnown(".JPG");
    LookupKnown(".pdf");
  }
}
