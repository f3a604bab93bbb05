/** The media-kind table of core/models/types.js: the kinds, the companion
    and animation suffixes, the known extensions and the extension -> kind
    table `knownMedias`. */
module MediaTypes {
  import opened Wrappers

  datatype MediaKind = Video | Image | Audio | Text | Document | Animation

  /** The string each kind is stored as on a file record. */
  function KindName(k: MediaKind): string {
    match k
    case Video => "video"
    case Image => "image"
    case Audio => "audio"
    case Text => "text"
    case Document => "document"
    case Animation => "animation"
  }

  const SuffixAnimation: string := "_animation"
  const SuffixThumb: string := "_thumb"
  const SuffixCaption: string := "_caption"

  const ExtMp4: string := ".mp4"
  const ExtJpg: string := ".jpg"
  const ExtJpeg: string := ".jpeg"
  const ExtPng: string := ".png"
  const ExtGif: string := ".gif"
  const ExtWebp: string := ".webp"
  const ExtMp3: string := ".mp3"
  const ExtTxt: string := ".txt"
  const ExtMd: string := ".md"
  const ExtHtm: string := ".htm"
  const ExtHtml: string := ".html"

  /** One entry of the table: a kind, a title, its extensions and a MIME
      type (the text entries have none). */
  datatype KnownMedia = KnownMedia(kind: MediaKind, title: string, exts: seq<string>, mime: Option<string>)

  const KnownMedias: seq<KnownMedia> := [
    KnownMedia(Video, "MPEG-4 video file", [ExtMp4], Some("video/mp4")),
    KnownMedia(Image, "JPEG image file", [ExtJpg, ExtJpeg], Some("image/jpeg")),
    KnownMedia(Image, "PNG image file", [ExtPng], Some("image/png")),
    KnownMedia(Image, "GIF image file", [ExtGif], Some("image/gif")),
    KnownMedia(Image, "WebP image file", [ExtWebp], Some("image/webp")),
    KnownMedia(Audio, "MP3 audio file", [ExtMp3], Some("audio/mpeg")),
    KnownMedia(Text, "Plain Text", [ExtTxt], None),
    KnownMedia(Text, "Markdown text", [ExtMd], None),
    KnownMedia(Text, "HTML text", [ExtHtm, ExtHtml], None)
  ]

  /** The names under which the module exports its bindings. */
  const ExportedNames: set<string> := {
    "TYPE_MEDIA_VIDEO", "TYPE_MEDIA_IMAGE", "TYPE_MEDIA_AUDIO", "TYPE_MEDIA_TEXT",
    "TYPE_MEDIA_DOC", "TYPE_MEDIA_ANIM", "TYPE_SUFFIX_ANIM", "TYPE_SUFFIX_THUMB",
    "TYPE_SUFFIX_CAPTION", "TYPE_EXT_MP4", "TYPE_EXT_JPG", "TYPE_EXT_JPEG",
    "TYPE_EXT_PNG", "TYPE_EXT_GIF", "TYPE_EXT_WEBP", "TYPE_EXT_MP3", "TYPE_EXT_TXT",
    "TYPE_EXT_MD", "TYPE_EXT_HTM", "TYPE_EXT_HTML", "knownMedias"
  }

  /** The table is exported as `knownMedias`; no export is named
      `knownMedia`. */
  lemma KnownMediaName()
    ensures "knownMedias" in ExportedNames
    ensures "knownMedia" !in ExportedNames
  {
  }

  /** `knownMedias.find(el => el.exts.indexOf(ext) >= 0)`, as an index,
      searching from entry `from` on. */
  function FindFrom(ext: string, from: nat): (r: Option<nat>)
    requires from <= |KnownMedias|
    ensures r.Some? ==> from <= r.value < |KnownMedias| && ext in KnownMedias[r.value].exts
    ensures r.Some? ==> forall j :: from <= j < r.value ==> ext !in KnownMedias[j].exts
    ensures r.None? ==> forall j :: from <= j < |KnownMedias| ==> ext !in KnownMedias[j].exts
    decreases |KnownMedias| - from
  {
    if from == |KnownMedias| then None
    else if ext in KnownMedias[from].exts then Some(from)
    else FindFrom(ext, from + 1)
  }

  function FindKnownMedia(ext: string): Option<nat> {
    FindFrom(ext, 0)
  }

  /** The kind of the first table entry listing `ext`, or None when no entry
      does (the source then reads `.type` of `undefined`). */
  function LookupKind(ext: string): Option<MediaKind> {
    match FindKnownMedia(ext)
    case None => None
    case Some(i) => Some(KnownMedias[i].kind)
  }

  /** No extension is listed by two entries, so lookup by extension is a
      function of the extension alone. */
  lemma ExtensionsUnique()
    ensures forall i, j, e :: 0 <= i < j < |KnownMedias| && e in KnownMedias[i].exts ==> e !in KnownMedias[j].exts
  {
  }

  /** The entry found is THE entry that lists the extension. */
  lemma {:induction false} LookupIsContainingEntry(ext: string, i: nat)
    requires i < |KnownMedias| && ext in KnownMedias[i].exts
    ensures FindKnownMedia(ext) == Some(i)
    ensures LookupKind(ext) == Some(KnownMedias[i].kind)
  {
    ExtensionsUnique();
  }

  /** The extensions the table lists, in table order. */
  const AllExts: seq<string> := [ExtMp4, ExtJpg, ExtJpeg, ExtPng, ExtGif, ExtWebp, ExtMp3, ExtTxt, ExtMd, ExtHtm, ExtHtml]

  /** Lookup succeeds exactly for the eleven listed extensions. */
  lemma {:induction false} LookupKnown(ext: string)
    ensures LookupKind(ext).Some? <==> ext in AllExts
  {
    var r := FindKnownMedia(ext);
    if ext in AllExts {
      assert exists i :: 0 <= i < |KnownMedias| && ext in KnownMedias[i].exts;
    }
  }

  /** `.mp4` is the only video extension. */
  lemma {:induction false} VideoExtensions(ext: string)
    ensures LookupKind(ext) == Some(Video) <==> ext == ExtMp4
  {
    var r := FindKnownMedia(ext);
    if ext == ExtMp4 { LookupIsContainingEntry(ext, 0); }
  }

  /** `.jpg`, `.jpeg`, `.png`, `.gif` and `.webp` are the image extensions. */
  lemma {:induction false} ImageExtensions(ext: string)
    ensures LookupKind(ext) == Some(Image) <==> ext in [ExtJpg, ExtJpeg, ExtPng, ExtGif, ExtWebp]
  {
    var r := FindKnownMedia(ext);
    if ext in [ExtJpg, ExtJpeg] { LookupIsContainingEntry(ext, 1); }
    else if ext == ExtPng { LookupIsContainingEntry(ext, 2); }
    else if ext == ExtGif { LookupIsContainingEntry(ext, 3); }
    else if ext == ExtWebp { LookupIsContainingEntry(ext, 4); }
  }

  /** `.mp3` is the only audio extension. */
  lemma {:induction false} AudioExtensions(ext: string)
    ensures LookupKind(ext) == Some(Audio) <==> ext == ExtMp3
  {
    var r := FindKnownMedia(ext);
    if ext == ExtMp3 { LookupIsContainingEntry(ext, 5); }
  }

  /** `.txt`, `.md`, `.htm` and `.html` are the text extensions. */
  lemma {:induction false} TextExtensions(ext: string)
    ensures LookupKind(ext) == Some(Text) <==> ext in [ExtTxt, ExtMd, ExtHtm, ExtHtml]
  {
    var r := FindKnownMedia(ext);
    if ext == ExtTxt { LookupIsContainingEntry(ext, 6); }
    else if ext == ExtMd { LookupIsContainingEntry(ext, 7); }
    else if ext in [ExtHtm, ExtHtml] { LookupIsContainingEntry(ext, 8); }
  }

  /** The table never yields Document or Animation: those kinds are only
      reached through the fallback and the `_animation` promotion. */
  lemma {:induction false} LookupNeverDocumentOrAnimation(ext: string)
    ensures LookupKind(ext) != Some(Document) && LookupKind(ext) != Some(Animation)
  {
    var r := FindKnownMedia(ext);
  }
}
