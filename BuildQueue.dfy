/** The older assembler of core/assembler/build-queue.js, `createQueue`:
    one payload per classified file, by media kind, pushed in input order.
    Its `getParseMode` is the same extension table as the one of
    build-messages.js, so `MessageText.GetParseMode` serves both. Reading a
    file is a lookup in `contents`; a path missing from it is a read that
    throws. */
module BuildQueue {
  import opened Wrappers
  import opened MediaTypes
  import opened FetchContent
  import opened ParseFiles
  import opened InputMediaModels
  import opened ChatModels
  import opened MessageText

  /** The extension of an optional companion file. */
  function ExtOf(r: Option<FileRecord>): Option<string> {
    match r
    case None => None
    case Some(c) => Some(c.ext)
  }

  /** `file.thumbFile ? "file://" + path : null`. */
  function ThumbUrl(f: ParsedFile): Option<string> {
    match f.thumb
    case None => None
    case Some(t) => Some("file://" + t.path)
  }

  /** The caption file's raw contents, when there is one; a missing file
      throws, reported by its path. */
  function RawCaption(f: ParsedFile, contents: map<string, string>): Result<Option<string>, string> {
    match f.caption
    case None => Ok(None)
    case Some(c) => if c.path in contents then Ok(Some(contents[c.path])) else Err(c.path)
  }

  /** The payload pushed for one file. `None` is the `undefined` pushed for
      an audio file, which the switch has no case for. */
  function QueueEntry(f: ParsedFile, chatId: string, contents: map<string, string>): Result<Option<ChatModel>, string> {
    var url := "file://" + f.path;
    var mode := GetParseMode(ExtOf(f.caption));
    match f.kind
    case Text =>
      if f.path in contents then Ok(Some(NewSendMessage(chatId, Some(contents[f.path]), GetParseMode(Some(f.ext)), None, None, NoOptions)))
      else Err(f.path)
    case Image =>
      var caption := match f.caption case None => None case Some(c) => Some("file://" + c.path);
      Ok(Some(NewSendPhoto(chatId, url, caption, mode, None, NoOptions)))
    case Audio => Ok(None)
    case Document =>
      var caption :- RawCaption(f, contents);
      Ok(Some(NewSendDocument(chatId, url, ThumbUrl(f), caption, mode, None, None, NoOptions)))
    case Video =>
      var caption :- RawCaption(f, contents);
      Ok(Some(NewSendVideo(chatId, url, None, None, None, ThumbUrl(f), caption, mode, None, NoOptions)))
    case Animation =>
      var caption :- RawCaption(f, contents);
      Ok(Some(NewSendAnimation(chatId, url, None, None, None, ThumbUrl(f), caption, mode, None, NoOptions)))
  }

  /** What each file's callback would push, or the path whose read throws. */
  function Entries(files: seq<ParsedFile>, chatId: string, contents: map<string, string>): (es: seq<Result<Option<ChatModel>, string>>)
    ensures |es| == |files|
  {
    seq(|files|, k requires 0 <= k < |files| => QueueEntry(files[k], chatId, contents))
  }

  /** The local `queue` after the callbacks for the first `n` entries, or
      the first error thrown. */
  function Pushed<T>(es: seq<Result<T, string>>, n: nat): Result<seq<T>, string>
    requires n <= |es|
  {
    if n == 0 then Ok([])
    else
      var q :- Pushed(es, n - 1);
      var e :- es[n - 1];
      Ok(q + [e])
  }

  /** `createQueue`: the `forEach` over the files, pushing one entry each.
      The source never returns the array; this returns what it holds. */
  method CreateQueue(files: seq<ParsedFile>, chatId: string, contents: map<string, string>)
    returns (r: Result<seq<Option<ChatModel>>, string>)
    ensures r == Pushed(Entries(files, chatId, contents), |files|)
  {
    ghost var es := Entries(files, chatId, contents);
    var queue: seq<Option<ChatModel>> := [];
    var i := 0;
    while i < |files|
      invariant 0 <= i <= |files|
      invariant Pushed(es, i) == Ok(queue)
    {
      var entry := QueueEntry(files[i], chatId, contents);
      PushedSnoc(es, i, queue);
      if entry.Err? {
        PushedErrSticks(es, i + 1, |files|);
        return Err(entry.error);
      }
      queue := queue + [entry.value];
      i := i + 1;
    }
    return Ok(queue);
  }

  /** One more callback after a walk that has not thrown. */
  lemma PushedSnoc<T>(es: seq<Result<T, string>>, i: nat, q: seq<T>)
    requires i < |es| && Pushed(es, i) == Ok(q)
    ensures es[i].Err? ==> Pushed(es, i + 1) == Err(es[i].error)
    ensures es[i].Ok? ==> Pushed(es, i + 1) == Ok(q + [es[i].value])
  {
  }

  /** Once a callback has thrown, the walk stays thrown. */
  lemma {:induction false} PushedErrSticks<T>(es: seq<Result<T, string>>, i: nat, n: nat)
    requires i <= n <= |es| && Pushed(es, i).Err?
    ensures Pushed(es, n) == Pushed(es, i)
    decreases n - i
  {
    if i < n {
      PushedErrSticks(es, i, n - 1);
    }
  }

  /** Exactly one entry per callback, in order, unless one throws; the
      error is then the first one thrown. */
  lemma {:induction false} PushedOnePerFile<T>(es: seq<Result<T, string>>, n: nat)
    requires n <= |es|
    ensures Pushed(es, n).Ok? <==> forall k :: 0 <= k < n ==> es[k].Ok?
    ensures Pushed(es, n).Ok? ==>
              var q := Pushed(es, n).value;
              |q| == n && forall k :: 0 <= k < n ==> q[k] == es[k].value
    ensures Pushed(es, n).Err? ==>
              exists k :: 0 <= k < n && es[k].Err? && Pushed(es, n).error == es[k].error &&
                forall j :: 0 <= j < k ==> es[j].Ok?
    decreases n
  {
    if n > 0 {
      PushedOnePerFile(es, n - 1);
      var prev := Pushed(es, n - 1);
      if prev.Ok? && es[n - 1].Ok? {
        assert Pushed(es, n) == Ok(prev.value + [es[n - 1].value]);
      } else if prev.Ok? {
        assert Pushed(es, n).error == es[n - 1].error;
      }
    }
  }

  /** A file's entry throws exactly when its text, or the caption of a
      document, video or animation, cannot be read; an image's caption is
      never read. */
  lemma QueueEntryFails(f: ParsedFile, chatId: string, contents: map<string, string>)
    ensures QueueEntry(f, chatId, contents).Err? <==>
              || (f.kind == Text && f.path !in contents)
              || (f.kind in {Document, Video, Animation} && f.caption.Some? && f.caption.value.path !in contents)
  {
  }

  /** Audio gets no payload; a text file is sent as its raw contents with
      the parse mode of its own extension; an image's caption is the
      `file://` URL of its caption file, not its contents. */
  lemma QueueEntryTextImage(f: ParsedFile, chatId: string, contents: map<string, string>)
    requires QueueEntry(f, chatId, contents).Ok?
    ensures QueueEntry(f, chatId, contents).value.None? <==> f.kind == Audio
    ensures f.kind == Text ==>
              var m := QueueEntry(f, chatId, contents).value.value;
              m.SendMessage? && m.text == Some(contents[f.path]) && m.parseMode == GetParseMode(Some(f.ext))
    ensures f.kind == Image ==>
              var m := QueueEntry(f, chatId, contents).value.value;
              && m.SendPhoto? && m.photo == "file://" + f.path
              && m.caption == (if f.caption.Some? then Some("file://" + f.caption.value.path) else None)
              && m.parseMode == GetParseMode(ExtOf(f.caption))
  {
  }

  /** Documents, videos and animations are sent by `file://` URL, with a
      thumbnail exactly when a thumbnail file is attached and the caption
      file's raw contents exactly when one is attached; videos and
      animations carry no duration, width or height. */
  lemma QueueEntryMedia(f: ParsedFile, chatId: string, contents: map<string, string>)
    requires QueueEntry(f, chatId, contents).Ok? && f.kind in {Document, Video, Animation}
    ensures var m := QueueEntry(f, chatId, contents).value.value;
            && m.thumb == ThumbUrl(f)
            && (ChatModels.HasKey(m, ThumbKey) <==> f.thumb.Some?)
            && m.caption == (if f.caption.Some? then Some(contents[f.caption.value.path]) else None)
            && (ChatModels.HasKey(m, CaptionKey) <==> f.caption.Some?)
            && m.parseMode == GetParseMode(ExtOf(f.caption))
            && (f.kind != Document ==>
                  !ChatModels.HasKey(m, DurationKey) && !ChatModels.HasKey(m, WidthKey) && !ChatModels.HasKey(m, HeightKey))
  {
  }
}
