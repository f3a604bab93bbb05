/** The message assembler of core/assembler/build-messages.js,
    `createMessages`. It walks the classified files in order and turns each
    one into a send payload. Files whose names follow the bundle pattern are
    grouped: the first file of a bundle (its head) gets a media-group
    payload, and each later file of the same bundle adds its album item to
    that payload and a copy of itself to the head's member list. At the end
    each head's album items are sorted by member index.

    The JavaScript pushes the same head object into both `msgList` and
    `bundleList`. Here `bundleList` holds the head's position in `msgList`,
    so an update through a bundle-list entry is an update of that
    `msgList` element. Reading a file is a lookup in `Env.contents`, and a
    path missing from it is a read that rejects. */
module BuildMessages {
  import opened Wrappers
  import opened MediaTypes
  import opened FetchContent
  import opened ParseFiles
  import opened InputMediaModels
  import opened ChatModels
  import opened MessageText
  import opened BundlePattern
  import opened Sorting

  /** `options.handleFiles`: send files by `file://` URL, or upload them and
      refer to them as `attach://`. */
  datatype HandleMode = Remote | Local

  /** The target chat, the handling mode, and the contents of every file
      that can be read. */
  datatype Env = Env(chatId: string, mode: HandleMode, contents: map<string, string>)

  /** Why `createMessages` rejects. */
  datatype AssembleError =
    | Unreadable(path: string)  // a caption or text file could not be read
    | NoAudioModel(name: string)  // `TgChatSendAudioModel` is not exported, so `new` throws
    | NoMediaArray(name: string)  // the head `name` has a text payload with no `media` array
    | ThumbTypo(name: string)  // `file.thumbfile.path` on a bundle member with a thumbnail

  /** The shallow copy `{ ...file }` of a bundle member that is not its head. */
  datatype MemberCopy = MemberCopy(file: ParsedFile, bundleName: string, memberIndex: nat, group: nat)

  /** What a bundle head carries besides its payload. `members` lists the
      later members; the JavaScript `bundleMembers` array is the head itself
      followed by these. */
  datatype BundleHead = BundleHead(bundleName: string, memberIndex: nat, members: seq<MemberCopy>)

  /** A file object of `msgList`: the classified file, its bundle data if it
      heads a bundle, and its payload `data`. */
  datatype Message = Message(file: ParsedFile, head: Option<BundleHead>, data: ChatModel)

  /** `msgList` and `bundleList`; every bundle-list entry is the position of
      a head in `msgList`. */
  datatype State = State(msgs: seq<Message>, heads: seq<nat>)

  predicate Valid(st: State) {
    forall g :: 0 <= g < |st.heads| ==> st.heads[g] < |st.msgs| && st.msgs[st.heads[g]].head.Some?
  }

  /** The files of a head's `bundleMembers`: the head, then its members. */
  function BundleMembers(m: Message): (r: seq<ParsedFile>)
    requires m.head.Some?
    ensures |r| == 1 + |m.head.value.members|
    ensures r[0] == m.file
    ensures forall i :: 0 <= i < |m.head.value.members| ==> r[i + 1] == m.head.value.members[i].file
  {
    [m.file] + seq(|m.head.value.members|, i requires 0 <= i < |m.head.value.members| => m.head.value.members[i].file)
  }

  /** A text file's contents, escaped when its parse mode is MarkdownV2. */
  function ReadText(env: Env, path: string, mode: Option<ParseMode>): Result<string, AssembleError> {
    if path !in env.contents then Err(Unreadable(path))
    else if mode == Some(MarkdownV2) then Ok(MdV2Escape(env.contents[path]))
    else Ok(env.contents[path])
  }

  /** The parse mode taken from the caption file; none without one. */
  function CaptionMode(f: ParsedFile): Option<ParseMode> {
    match f.caption
    case None => None
    case Some(c) => GetParseMode(Some(c.ext))
  }

  /** The caption text, read only when there is a caption file. */
  function ReadCaption(f: ParsedFile, env: Env): Result<Option<string>, AssembleError> {
    match f.caption
    case None => Ok(None)
    case Some(c) =>
      var text :- ReadText(env, c.path, CaptionMode(f));
      Ok(Some(text))
  }

  /** A file's contents as they are sent: escaped for MarkdownV2 exactly
      when the file is a `.md` file. */
  function Rendered(ext: string, contents: string): string {
    if ext == ExtMd then MdV2Escape(contents) else contents
  }

  /** A caption file is read exactly when its contents are known; the
      caption is then those contents rendered by the caption file's own
      extension, and the parse mode is that extension's. Without a caption
      file there is neither. */
  lemma ReadCaptionValue(f: ParsedFile, env: Env)
    ensures f.caption.None? ==> ReadCaption(f, env) == Ok(None) && CaptionMode(f).None?
    ensures f.caption.Some? ==>
              var c := f.caption.value;
              && (ReadCaption(f, env).Ok? <==> c.path in env.contents)
              && (c.path in env.contents ==> ReadCaption(f, env).value == Some(Rendered(c.ext, env.contents[c.path])))
              && CaptionMode(f) == GetParseMode(Some(c.ext))
  {
    if f.caption.Some? {
      GetParseModeText(f.caption.value.ext);
    }
  }

  /** `msgData`: the media reference, the thumbnail reference, the caption
      and its parse mode. */
  datatype MsgData = MsgData(media: string, thumb: Option<string>, caption: Option<string>,
                             parseMode: Option<ParseMode>)

  /** In remote mode files are `file://` plus their path; in local mode the
      media is `attach://` plus its name, the thumbnail `attach://` plus its
      path. */
  function MakeMsgData(f: ParsedFile, env: Env, caption: Option<string>): MsgData {
    var scheme := if env.mode == Remote then "file://" else "attach://";
    var media := if env.mode == Remote then scheme + f.path else scheme + f.name;
    var thumb := match f.thumb case None => None case Some(t) => Some(scheme + t.path);
    MsgData(media, thumb, caption, CaptionMode(f))
  }

  /** The album item of a bundled file. The photo item takes no thumbnail
      (the source splices it out of `msgData`). */
  function ItemFor(f: ParsedFile, idx: nat, d: MsgData): InputMedia
    requires f.kind != Text
  {
    match f.kind
    case Image => NewInputMediaPhoto(idx, d.media, d.caption, d.parseMode, None)
    case Audio => NewInputMediaAudio(idx, d.media, d.thumb, d.caption, d.parseMode, None, None, None, None)
    case Document => NewInputMediaDocument(idx, d.media, d.thumb, d.caption, d.parseMode, None, None)
    case Video => NewInputMediaVideo(idx, d.media, d.thumb, d.caption, d.parseMode, None, None, None, None, None)
    case Animation => NewInputMediaAnimation(idx, d.media, d.thumb, d.caption, d.parseMode, None, None, None, None)
  }

  /** The payload of a media file outside any bundle. Video and animation
      put the thumbnail, caption and parse mode in their own slots; see
      `SingleSpreadAsWritten` for the call as the source writes it. */
  function SingleFor(f: ParsedFile, chatId: string, d: MsgData): Result<ChatModel, AssembleError>
    requires f.kind != Text
  {
    match f.kind
    case Image => Ok(NewSendPhoto(chatId, d.media, d.caption, d.parseMode, None, NoOptions))
    case Audio => Err(NoAudioModel(f.name))
    case Document => Ok(NewSendDocument(chatId, d.media, d.thumb, d.caption, d.parseMode, None, None, NoOptions))
    case Video => Ok(NewSendVideo(chatId, d.media, None, None, None, d.thumb, d.caption, d.parseMode, None, NoOptions))
    case Animation =>
      Ok(NewSendAnimation(chatId, d.media, None, None, None, d.thumb, d.caption, d.parseMode, None, NoOptions))
  }

  /** `new TgChatSendVideoModel(chatId, ...msgData)` and
      `new TgChatSendAnimationModel(chatId, ...msgData)` as written: the
      thumbnail, caption and parse mode land in the duration, width and
      height slots. */
  function SingleSpreadAsWritten(f: ParsedFile, chatId: string, d: MsgData): ChatModel
    requires f.kind == Video || f.kind == Animation
  {
    var height := match d.parseMode case None => None case Some(p) => Some(JsString(ParseModeName(p)));
    var width := match d.caption case None => None case Some(c) => Some(JsString(c));
    var duration := match d.thumb case None => None case Some(t) => Some(JsString(t));
    if f.kind == Video then NewSendVideo(chatId, d.media, duration, width, height, None, None, None, None, NoOptions)
    else NewSendAnimation(chatId, d.media, duration, width, height, None, None, None, None, NoOptions)
  }

  /** As written, a lone video or animation is sent without its thumbnail,
      caption and parse mode, which appear instead as its duration, width
      and height. */
  lemma SpreadShiftsSlots(f: ParsedFile, chatId: string, d: MsgData)
    requires f.kind == Video || f.kind == Animation
    ensures var m := SingleSpreadAsWritten(f, chatId, d);
            && !ChatModels.HasKey(m, ThumbKey) && !ChatModels.HasKey(m, CaptionKey) && !ChatModels.HasKey(m, ParseModeKey)
            && (ChatModels.HasKey(m, DurationKey) <==> d.thumb.Some?)
            && (ChatModels.HasKey(m, WidthKey) <==> d.caption.Some?)
            && (ChatModels.HasKey(m, HeightKey) <==> d.parseMode.Some?)
            && (d.thumb.Some? ==> m.duration == Some(JsString(d.thumb.value)))
  {
  }

  /** The corrected payload keeps the thumbnail, caption and parse mode in
      their own slots and leaves the dimensions out. */
  lemma SingleForSlots(f: ParsedFile, chatId: string, d: MsgData)
    requires f.kind == Video || f.kind == Animation
    ensures SingleFor(f, chatId, d).Ok?
    ensures var m := SingleFor(f, chatId, d).value;
            && (f.kind == Video ==> m.SendVideo?) && (f.kind == Animation ==> m.SendAnimation?)
            && m.thumb == d.thumb && m.caption == d.caption && m.parseMode == d.parseMode
            && (ChatModels.HasKey(m, ThumbKey) <==> d.thumb.Some?) && (ChatModels.HasKey(m, CaptionKey) <==> d.caption.Some?)
            && (ChatModels.HasKey(m, ParseModeKey) <==> d.parseMode.Some?)
            && !ChatModels.HasKey(m, DurationKey) && !ChatModels.HasKey(m, WidthKey) && !ChatModels.HasKey(m, HeightKey)
  {
  }

  /** A text file's payload: its own contents as the message, with the parse
      mode of its own extension. */
  function TextPayload(f: ParsedFile, env: Env): Result<ChatModel, AssembleError> {
    var mode := GetParseMode(Some(f.ext));
    var body :- ReadText(env, f.path, mode);
    Ok(NewSendMessage(env.chatId, Some(body), mode, None, None, NoOptions))
  }

  /** A text file's payload is built exactly when its contents are known:
      the message is those contents rendered by the file's extension, under
      that extension's parse mode. */
  lemma TextPayloadValue(f: ParsedFile, env: Env)
    ensures TextPayload(f, env).Ok? <==> f.path in env.contents
    ensures f.path in env.contents ==>
              TextPayload(f, env).value ==
                SendMessage(env.chatId, Some(Rendered(f.ext, env.contents[f.path])), GetParseMode(Some(f.ext)), None, None, NoOptions)
  {
    GetParseModeText(f.ext);
  }

  /** The bundle name of the head at bundle-list position `g`. */
  function HeadName(st: State, g: nat): Option<string>
    requires g < |st.heads|
  {
    if st.heads[g] < |st.msgs| && st.msgs[st.heads[g]].head.Some? then Some(st.msgs[st.heads[g]].head.value.bundleName)
    else None
  }

  /** The loop over `bundleList.entries()`: the first position from `g` on
      whose head has bundle name `name`. */
  function FindGroup(st: State, name: string, g: nat): (r: Option<nat>)
    requires g <= |st.heads|
    ensures r.Some? ==> g <= r.value < |st.heads| && HeadName(st, r.value) == Some(name)
    ensures r.Some? ==> forall h :: g <= h < r.value ==> HeadName(st, h) != Some(name)
    ensures r.None? ==> forall h :: g <= h < |st.heads| ==> HeadName(st, h) != Some(name)
    decreases |st.heads| - g
  {
    if g == |st.heads| then None
    else if HeadName(st, g) == Some(name) then Some(g)
    else FindGroup(st, name, g + 1)
  }

  /** `bundleList[g].data.media.push(item)`; throws when the head's payload
      is a text message. */
  function PushItem(st: State, g: nat, item: InputMedia): (r: Result<State, AssembleError>)
    requires Valid(st) && g < |st.heads|
    ensures r.Ok? ==> Valid(r.value)
  {
    var k := st.heads[g];
    var m := st.msgs[k];
    if m.data.SendMediaGroup? then Ok(State(st.msgs[k := m.(data := m.data.(media := m.data.media + [item]))], st.heads))
    else Err(NoMediaArray(m.file.name))
  }

  /** Segment 4 for a member that is not the head: the local-mode thumbnail
      line throws, otherwise the copy joins the head's members. */
  function AddMember(env: Env, st: State, f: ParsedFile, bm: BundleMatch, g: nat): (r: Result<State, AssembleError>)
    requires Valid(st) && g < |st.heads|
    ensures r.Ok? ==> Valid(r.value)
  {
    if env.mode == Local && f.thumb.Some? then Err(ThumbTypo(f.name))
    else
      var k := st.heads[g];
      var h := st.msgs[k].head.value;
      var h' := h.(members := h.members + [MemberCopy(f, bm.Name(), bm.fine, g)]);
      Ok(State(st.msgs[k := st.msgs[k].(head := Some(h'))], st.heads))
  }

  /** Segment 4 otherwise: the file joins `msgList`, and a head also joins
      `bundleList`. */
  function AddTop(st: State, f: ParsedFile, bm: Option<BundleMatch>, data: ChatModel): (r: State)
    requires Valid(st)
    ensures Valid(r)
  {
    match bm
    case None => State(st.msgs + [Message(f, None, data)], st.heads)
    case Some(b) => State(st.msgs + [Message(f, Some(BundleHead(b.Name(), b.fine, [])), data)], st.heads + [|st.msgs|])
  }

  /** One iteration of the loop of `createMessages`, segments 2 to 4. */
  function Step(env: Env, st: State, f: ParsedFile): (r: Result<State, AssembleError>)
    requires Valid(st)
    ensures r.Ok? ==> Valid(r.value)
  {
    var bm := ParseBundleName(f.name);
    var group := if bm.Some? then FindGroup(st, bm.value.Name(), 0) else None;
    var caption :- ReadCaption(f, env);
    var d := MakeMsgData(f, env, caption);
    if f.kind == Text then
      var msg :- TextPayload(f, env);
      if group.Some? then AddMember(env, st, f, bm.value, group.value) else Ok(AddTop(st, f, bm, msg))
    else if group.Some? then
      var st' :- PushItem(st, group.value, ItemFor(f, bm.value.fine, d));
      AddMember(env, st', f, bm.value, group.value)
    else if bm.Some? then
      Ok(AddTop(st, f, bm, NewSendMediaGroup(env.chatId, [ItemFor(f, bm.value.fine, d)], None, None, None)))
    else
      var msg :- SingleFor(f, env.chatId, d);
      Ok(AddTop(st, f, None, msg))
  }

  /** The state after the first `n` files. */
  function Run(files: seq<ParsedFile>, env: Env, n: nat): (r: Result<State, AssembleError>)
    requires n <= |files|
    ensures r.Ok? ==> Valid(r.value)
    decreases n, 1
  {
    if n == 0 then Ok(State([], [])) else RunFile(files, env, n)
  }

  /** File `n - 1` of the walk after the earlier ones: a throw from them
      propagates, otherwise the file is processed. */
  function RunFile(files: seq<ParsedFile>, env: Env, n: nat): (r: Result<State, AssembleError>)
    requires 0 < n <= |files|
    ensures r.Ok? ==> Valid(r.value)
    decreases n, 0
  {
    var st :- Run(files, env, n - 1);
    Step(env, st, files[n - 1])
  }

  /** After earlier files that all succeed, the walk processes file `n - 1`. */
  lemma RunOkStep(files: seq<ParsedFile>, env: Env, n: nat)
    requires 0 < n <= |files| && Run(files, env, n - 1).Ok?
    ensures Run(files, env, n) == Step(env, Run(files, env, n - 1).value, files[n - 1])
  {
    assert Run(files, env, n) == RunFile(files, env, n);
  }

  /** After an earlier file throws, the walk throws the same error. */
  lemma RunErrStep(files: seq<ParsedFile>, env: Env, n: nat)
    requires 0 < n <= |files| && Run(files, env, n - 1).Err?
    ensures Run(files, env, n) == Err(Run(files, env, n - 1).error)
  {
    assert Run(files, env, n) == RunFile(files, env, n);
  }

  function MediaIdx(m: InputMedia): int {
    m.mediaIdx
  }

  /** The final loop: each head's album items, from bundle-list position `g`
      on, sorted by member index; throws at a head with a text payload. */
  function SortBundles(st: State, g: nat): Result<seq<Message>, AssembleError>
    requires Valid(st) && g <= |st.heads|
    decreases |st.heads| - g
  {
    if g == |st.heads| then Ok(st.msgs)
    else
      var k := st.heads[g];
      var m := st.msgs[k];
      if m.data.SendMediaGroup? then
        SortBundles(State(st.msgs[k := m.(data := m.data.(media := SortBy(m.data.media, MediaIdx)))], st.heads), g + 1)
      else Err(NoMediaArray(m.file.name))
  }

  /** What `createMessages` resolves to, or why it rejects. */
  function Assemble(files: seq<ParsedFile>, env: Env): Result<seq<Message>, AssembleError> {
    var st :- Run(files, env, |files|);
    SortBundles(st, 0)
  }

  /** Once the walk has thrown, it stays thrown, with the same error. */
  lemma {:induction false} RunErrSticks(files: seq<ParsedFile>, env: Env, i: nat, n: nat)
    requires i <= n <= |files| && Run(files, env, i).Err?
    ensures Run(files, env, n).Err? && Run(files, env, n).error == Run(files, env, i).error
    decreases n - i
  {
    if i < n {
      RunErrSticks(files, env, i, n - 1);
      RunErrStep(files, env, n);
    }
  }

  /** The search of `bundleList` for a bundle name. */
  method FindBundle(msgList: seq<Message>, bundleList: seq<nat>, name: string) returns (group: Option<nat>)
    requires Valid(State(msgList, bundleList))
    ensures group == FindGroup(State(msgList, bundleList), name, 0)
  {
    var j := 0;
    while j < |bundleList|
      invariant 0 <= j <= |bundleList|
      invariant FindGroup(State(msgList, bundleList), name, 0) == FindGroup(State(msgList, bundleList), name, j)
    {
      if msgList[bundleList[j]].head.value.bundleName == name {
        return Some(j);
      }
      j := j + 1;
    }
    return None;
  }

  /** One file: segments 2 to 4 of the loop body. */
  method ProcessFile(env: Env, msgList: seq<Message>, bundleList: seq<nat>, f: ParsedFile)
    returns (r: Result<State, AssembleError>)
    requires Valid(State(msgList, bundleList))
    ensures r == Step(env, State(msgList, bundleList), f)
  {
    var bm := ParseBundleName(f.name);
    var isMember, isHead := false, false;
    var group := 0;
    if bm.Some? {
      isMember, isHead := true, true;
      var found := FindBundle(msgList, bundleList, bm.value.Name());
      if found.Some? {
        isHead := false;
        group := found.value;
      }
    }
    var caption: Option<string> := None;
    if f.caption.Some? {
      var parseMode := GetParseMode(Some(f.caption.value.ext));
      if f.caption.value.path !in env.contents {
        return Err(Unreadable(f.caption.value.path));
      }
      var content := env.contents[f.caption.value.path];
      if parseMode == Some(MarkdownV2) {
        content := MdV2Escape(content);
      }
      caption := Some(content);
    }
    var d := MakeMsgData(f, env, caption);
    var msgs, heads := msgList, bundleList;
    var msgObj: ChatModel := NewSendMessage(env.chatId, None, None, None, None, NoOptions);
    if f.kind == Text {
      var parseMode := GetParseMode(Some(f.ext));
      if f.path !in env.contents {
        return Err(Unreadable(f.path));
      }
      var content := env.contents[f.path];
      if parseMode == Some(MarkdownV2) {
        content := MdV2Escape(content);
      }
      msgObj := NewSendMessage(env.chatId, Some(content), parseMode, None, None, NoOptions);
    } else if isHead {
      msgObj := NewSendMediaGroup(env.chatId, [ItemFor(f, bm.value.fine, d)], None, None, None);
    } else if isMember {
      var k := heads[group];
      if !msgs[k].data.SendMediaGroup? {
        return Err(NoMediaArray(msgs[k].file.name));
      }
      var item := ItemFor(f, bm.value.fine, d);
      msgs := msgs[k := msgs[k].(data := msgs[k].data.(media := msgs[k].data.media + [item]))];
    } else {
      var single := SingleFor(f, env.chatId, d);
      if single.Err? {
        return Err(single.error);
      }
      msgObj := single.value;
    }
    if isMember && !isHead {
      if env.mode == Local && f.thumb.Some? {
        return Err(ThumbTypo(f.name));
      }
      var k := heads[group];
      var h := msgs[k].head.value;
      var copy := MemberCopy(f, bm.value.Name(), bm.value.fine, group);
      msgs := msgs[k := msgs[k].(head := Some(h.(members := h.members + [copy])))];
    } else {
      var head := if isHead then Some(BundleHead(bm.value.Name(), bm.value.fine, [])) else None;
      msgs := msgs + [Message(f, head, msgObj)];
      if isHead {
        heads := heads + [|msgs| - 1];
      }
    }
    return Ok(State(msgs, heads));
  }

  /** The final loop, sorting each head's album items in place by member
      index. */
  method SortBundleMedia(msgList: seq<Message>, bundleList: seq<nat>) returns (r: Result<seq<Message>, AssembleError>)
    requires Valid(State(msgList, bundleList))
    ensures r == SortBundles(State(msgList, bundleList), 0)
  {
    var msgs := msgList;
    var g := 0;
    while g < |bundleList|
      invariant 0 <= g <= |bundleList|
      invariant Valid(State(msgs, bundleList))
      invariant SortBundles(State(msgList, bundleList), 0) == SortBundles(State(msgs, bundleList), g)
    {
      var k := bundleList[g];
      if !msgs[k].data.SendMediaGroup? {
        return Err(NoMediaArray(msgs[k].file.name));
      }
      var media := msgs[k].data.media;
      var a := new InputMedia[|media|](i requires 0 <= i < |media| => media[i]);
      assert a[..] == media;
      SortInPlace(a, MediaIdx);
      msgs := msgs[k := msgs[k].(data := msgs[k].data.(media := a[..]))];
      g := g + 1;
    }
    return Ok(msgs);
  }

  /** One pass of the `createMessages` loop: file `i` processed after the
      earlier ones. */
  method WalkFile(files: seq<ParsedFile>, env: Env, i: nat, msgList: seq<Message>, bundleList: seq<nat>)
    returns (next: Result<State, AssembleError>)
    requires i < |files| && Run(files, env, i) == Ok(State(msgList, bundleList))
    ensures next == Run(files, env, i + 1)
  {
    next := ProcessFile(env, msgList, bundleList, files[i]);
    RunOkStep(files, env, i + 1);
  }

  /** `createMessages`. */
  method CreateMessages(files: seq<ParsedFile>, env: Env) returns (r: Result<seq<Message>, AssembleError>)
    ensures r == Assemble(files, env)
  {
    var msgList: seq<Message> := [];
    var bundleList: seq<nat> := [];
    var i := 0;
    while i < |files|
      invariant 0 <= i <= |files|
      invariant Run(files, env, i) == Ok(State(msgList, bundleList))
    {
      var next := WalkFile(files, env, i, msgList, bundleList);
      if next.Err? {
        RunErrSticks(files, env, i + 1, |files|);
        return Err(next.error);
      }
      msgList, bundleList := next.value.msgs, next.value.heads;
      i := i + 1;
    }
    r := SortBundleMedia(msgList, bundleList);
  }
}
