/** The album item payloads of tg/models/input.js. Each class becomes one
    constructor of `InputMedia`; an optional field is an `Option` that is
    `Some` exactly when the JavaScript constructor stored it (its argument
    was neither `null` nor `undefined`). `HasKey` tells which own properties the
    object ends up with, which is what gets serialised. */
module InputMediaModels {
  import opened Wrappers

  datatype ParseMode = MarkdownV2 | Html

  /** The string stored in `parse_mode`. */
  function ParseModeName(p: ParseMode): string {
    match p
    case MarkdownV2 => "MarkdownV2"
    case Html => "HTML"
  }

  /** A caption or message entity; no code path builds one, so only its
      presence matters here. */
  datatype Entity = Entity(kind: string, offset: int, length: int)

  datatype InputMedia =
    | InputMediaPhoto(mediaIdx: int, media: string, caption: Option<string>,
                      parseMode: Option<ParseMode>, captionEntities: Option<seq<Entity>>)
    | InputMediaVideo(mediaIdx: int, media: string, thumb: Option<string>, caption: Option<string>,
                      parseMode: Option<ParseMode>, captionEntities: Option<seq<Entity>>,
                      width: Option<int>, height: Option<int>, duration: Option<int>,
                      supportsStreaming: Option<bool>)
    | InputMediaAnimation(mediaIdx: int, media: string, thumb: Option<string>, caption: Option<string>,
                          parseMode: Option<ParseMode>, captionEntities: Option<seq<Entity>>,
                          width: Option<int>, height: Option<int>, duration: Option<int>)
    | InputMediaAudio(mediaIdx: int, media: string, thumb: Option<string>, caption: Option<string>,
                      parseMode: Option<ParseMode>, captionEntities: Option<seq<Entity>>,
                      duration: Option<int>, performer: Option<string>, title: Option<string>)
    | InputMediaDocument(mediaIdx: int, media: string, thumb: Option<string>, caption: Option<string>,
                         parseMode: Option<ParseMode>, captionEntities: Option<seq<Entity>>,
                         disableContentTypeDetection: Option<bool>)
  {
    /** The `type` property. */
    function TypeTag(): string {
      match this
      case InputMediaPhoto(_, _, _, _, _) => "photo"
      case InputMediaVideo(_, _, _, _, _, _, _, _, _, _) => "video"
      case InputMediaAnimation(_, _, _, _, _, _, _, _, _) => "animation"
      case InputMediaAudio(_, _, _, _, _, _, _, _, _) => "audio"
      case InputMediaDocument(_, _, _, _, _, _, _) => "document"
    }
  }

  /** The properties an item can have. */
  datatype ItemKey =
    | ItemType | ItemMediaIdx | ItemMedia | ItemThumb | ItemCaption | ItemParseMode
    | ItemCaptionEntities | ItemWidth | ItemHeight | ItemDuration | ItemSupportsStreaming
    | ItemPerformer | ItemTitle | ItemDisableContentTypeDetection

  /** The property name as serialised. */
  function ItemKeyName(k: ItemKey): string {
    match k
    case ItemType => "type"
    case ItemMediaIdx => "mediaIdx"
    case ItemMedia => "media"
    case ItemThumb => "thumb"
    case ItemCaption => "caption"
    case ItemParseMode => "parse_mode"
    case ItemCaptionEntities => "caption_entities"
    case ItemWidth => "width"
    case ItemHeight => "height"
    case ItemDuration => "duration"
    case ItemSupportsStreaming => "supports_streaming"
    case ItemPerformer => "performer"
    case ItemTitle => "title"
    case ItemDisableContentTypeDetection => "disable_content_type_detection"
  }

  /** Whether `k` is an own property of the item. */
  predicate HasKey(m: InputMedia, k: ItemKey) {
    match k
    case ItemType => true
    case ItemMediaIdx => true
    case ItemMedia => true
    case ItemCaption => m.caption.Some?
    case ItemParseMode => m.parseMode.Some?
    case ItemCaptionEntities => m.captionEntities.Some?
    case ItemThumb => !m.InputMediaPhoto? && m.thumb.Some?
    case ItemWidth => (m.InputMediaVideo? || m.InputMediaAnimation?) && m.width.Some?
    case ItemHeight => (m.InputMediaVideo? || m.InputMediaAnimation?) && m.height.Some?
    case ItemDuration => (m.InputMediaVideo? || m.InputMediaAnimation? || m.InputMediaAudio?) && m.duration.Some?
    case ItemSupportsStreaming => m.InputMediaVideo? && m.supportsStreaming.Some?
    case ItemPerformer => m.InputMediaAudio? && m.performer.Some?
    case ItemTitle => m.InputMediaAudio? && m.title.Some?
    case ItemDisableContentTypeDetection => m.InputMediaDocument? && m.disableContentTypeDetection.Some?
  }

  /** The keys every item shares: the three mandatory ones, and the four of
      the base class, each present exactly when its argument is. */
  ghost predicate BaseKeysFollowArgs(m: InputMedia, thumb: Option<string>, caption: Option<string>,
                                     parseMode: Option<ParseMode>, captionEntities: Option<seq<Entity>>)
  {
    && HasKey(m, ItemType) && HasKey(m, ItemMediaIdx) && HasKey(m, ItemMedia)
    && (HasKey(m, ItemThumb) <==> thumb.Some?)
    && (HasKey(m, ItemCaption) <==> caption.Some?)
    && (HasKey(m, ItemParseMode) <==> parseMode.Some?)
    && (HasKey(m, ItemCaptionEntities) <==> captionEntities.Some?)
  }

  /** `new InputMediaPhoto(...)`: the base class is given `null` for the
      thumbnail, so a photo never has one. */
  function NewInputMediaPhoto(mediaIdx: int, media: string, caption: Option<string>,
                              parseMode: Option<ParseMode>, captionEntities: Option<seq<Entity>>): InputMedia
  {
    InputMediaPhoto(mediaIdx, media, caption, parseMode, captionEntities)
  }

  /** A photo item is tagged "photo", keeps its index and media, has the
      caption keys exactly for the arguments given, and never a thumbnail. */
  lemma NewInputMediaPhotoKeys(mediaIdx: int, media: string, caption: Option<string>,
                               parseMode: Option<ParseMode>, captionEntities: Option<seq<Entity>>)
    ensures var m := NewInputMediaPhoto(mediaIdx, media, caption, parseMode, captionEntities);
            && m.TypeTag() == "photo" && m.mediaIdx == mediaIdx && m.media == media
            && BaseKeysFollowArgs(m, None, caption, parseMode, captionEntities)
            && !HasKey(m, ItemThumb)
            && m.caption == caption && m.parseMode == parseMode
  {
  }

  /** `new InputMediaVideo(...)`. */
  function NewInputMediaVideo(mediaIdx: int, media: string, thumb: Option<string>, caption: Option<string>,
                              parseMode: Option<ParseMode>, captionEntities: Option<seq<Entity>>,
                              width: Option<int>, height: Option<int>, duration: Option<int>,
                              supportsStreaming: Option<bool>): InputMedia
  {
    InputMediaVideo(mediaIdx, media, thumb, caption, parseMode, captionEntities, width, height, duration, supportsStreaming)
  }

  /** A video item is tagged "video"; the base keys, width, height,
      duration and streaming flag are present exactly for the arguments
      given. */
  lemma NewInputMediaVideoKeys(mediaIdx: int, media: string, thumb: Option<string>, caption: Option<string>,
                               parseMode: Option<ParseMode>, captionEntities: Option<seq<Entity>>,
                               width: Option<int>, height: Option<int>, duration: Option<int>,
                               supportsStreaming: Option<bool>)
    ensures var m := NewInputMediaVideo(mediaIdx, media, thumb, caption, parseMode, captionEntities,
                                        width, height, duration, supportsStreaming);
            && m.TypeTag() == "video" && m.mediaIdx == mediaIdx && m.media == media
            && BaseKeysFollowArgs(m, thumb, caption, parseMode, captionEntities)
            && (HasKey(m, ItemWidth) <==> width.Some?) && (HasKey(m, ItemHeight) <==> height.Some?)
            && (HasKey(m, ItemDuration) <==> duration.Some?)
            && (HasKey(m, ItemSupportsStreaming) <==> supportsStreaming.Some?)
            && m.thumb == thumb && m.caption == caption && m.parseMode == parseMode
  {
  }

  /** `new InputMediaAnimation(...)`: built as a video with
      `supportsStreaming` null, then re-tagged "animation". */
  function NewInputMediaAnimation(mediaIdx: int, media: string, thumb: Option<string>, caption: Option<string>,
                                  parseMode: Option<ParseMode>, captionEntities: Option<seq<Entity>>,
                                  width: Option<int>, height: Option<int>, duration: Option<int>): InputMedia
  {
    InputMediaAnimation(mediaIdx, media, thumb, caption, parseMode, captionEntities, width, height, duration)
  }

  /** An animation item is tagged "animation"; the base keys, width,
      height and duration are present exactly for the arguments given, and
      it never has a streaming flag. */
  lemma NewInputMediaAnimationKeys(mediaIdx: int, media: string, thumb: Option<string>, caption: Option<string>,
                                   parseMode: Option<ParseMode>, captionEntities: Option<seq<Entity>>,
                                   width: Option<int>, height: Option<int>, duration: Option<int>)
    ensures var m := NewInputMediaAnimation(mediaIdx, media, thumb, caption, parseMode, captionEntities,
                                            width, height, duration);
            && m.TypeTag() == "animation" && m.mediaIdx == mediaIdx && m.media == media
            && BaseKeysFollowArgs(m, thumb, caption, parseMode, captionEntities)
            && (HasKey(m, ItemWidth) <==> width.Some?) && (HasKey(m, ItemHeight) <==> height.Some?)
            && (HasKey(m, ItemDuration) <==> duration.Some?)
            && !HasKey(m, ItemSupportsStreaming)
            && m.thumb == thumb && m.caption == caption && m.parseMode == parseMode
  {
  }

  /** `new InputMediaAudio(...)`. */
  function NewInputMediaAudio(mediaIdx: int, media: string, thumb: Option<string>, caption: Option<string>,
                              parseMode: Option<ParseMode>, captionEntities: Option<seq<Entity>>,
                              duration: Option<int>, performer: Option<string>, title: Option<string>): InputMedia
  {
    InputMediaAudio(mediaIdx, media, thumb, caption, parseMode, captionEntities, duration, performer, title)
  }

  /** An audio item is tagged "audio"; the base keys, duration, performer
      and title are present exactly for the arguments given. */
  lemma NewInputMediaAudioKeys(mediaIdx: int, media: string, thumb: Option<string>, caption: Option<string>,
                               parseMode: Option<ParseMode>, captionEntities: Option<seq<Entity>>,
                               duration: Option<int>, performer: Option<string>, title: Option<string>)
    ensures var m := NewInputMediaAudio(mediaIdx, media, thumb, caption, parseMode, captionEntities,
                                        duration, performer, title);
            && m.TypeTag() == "audio" && m.mediaIdx == mediaIdx && m.media == media
            && BaseKeysFollowArgs(m, thumb, caption, parseMode, captionEntities)
            && (HasKey(m, ItemDuration) <==> duration.Some?)
            && (HasKey(m, ItemPerformer) <==> performer.Some?) && (HasKey(m, ItemTitle) <==> title.Some?)
            && m.thumb == thumb && m.caption == caption && m.parseMode == parseMode
  {
  }

  /** `new InputMediaDocument(...)`. */
  function NewInputMediaDocument(mediaIdx: int, media: string, thumb: Option<string>, caption: Option<string>,
                                 parseMode: Option<ParseMode>, captionEntities: Option<seq<Entity>>,
                                 disableContentTypeDetection: Option<bool>): InputMedia
  {
    InputMediaDocument(mediaIdx, media, thumb, caption, parseMode, captionEntities, disableContentTypeDetection)
  }

  /** A document item is tagged "document"; the base keys and the
      content-type flag are present exactly for the arguments given. */
  lemma NewInputMediaDocumentKeys(mediaIdx: int, media: string, thumb: Option<string>, caption: Option<string>,
                                  parseMode: Option<ParseMode>, captionEntities: Option<seq<Entity>>,
                                  disableContentTypeDetection: Option<bool>)
    ensures var m := NewInputMediaDocument(mediaIdx, media, thumb, caption, parseMode, captionEntities,
                                           disableContentTypeDetection);
            && m.TypeTag() == "document" && m.mediaIdx == mediaIdx && m.media == media
            && BaseKeysFollowArgs(m, thumb, caption, parseMode, captionEntities)
            && (HasKey(m, ItemDisableContentTypeDetection) <==> disableContentTypeDetection.Some?)
            && m.thumb == thumb && m.caption == caption && m.parseMode == parseMode
  {
  }

  /** Every item carries one of the five tags, and the tag names its class. */
  lemma TypeTagsAreFixed(m: InputMedia)
    ensures m.TypeTag() in {"photo", "video", "animation", "audio", "document"}
    ensures m.TypeTag() == "photo" <==> m.InputMediaPhoto?
    ensures m.TypeTag() == "animation" <==> m.InputMediaAnimation?
    ensures m.InputMediaAnimation? ==> !HasKey(m, ItemSupportsStreaming)
  {
  }
}
