/** The send payloads of tg/models/chat.js. The constructor chain
    chat model -> send model -> media model -> photo/document/video ->
    animation is flattened into one datatype; an optional field is an
    `Option` that is `Some` exactly when the chain stored it. `HasKey` tells
    which own properties the object ends up with and `Route` is its `path`. */
module ChatModels {
  import opened Wrappers
  import opened InputMediaModels

  /** A value whose JavaScript type is not fixed by the slot it sits in. */
  datatype JsValue = JsString(s: string) | JsNumber(n: int) | JsBool(b: bool)

  /** The notification and reply fields every send model takes. */
  datatype SendOptions = SendOptions(disableNotification: Option<bool>, replyToMessageId: Option<int>,
                                     allowSendingWithoutReply: Option<bool>, replyMarkup: Option<string>)

  const NoOptions: SendOptions := SendOptions(None, None, None, None)

  datatype ChatModel =
    | SendMessage(chatId: string, text: Option<string>, parseMode: Option<ParseMode>,
                  entities: Option<seq<Entity>>, disableWebPagePreview: Option<bool>, opts: SendOptions)
    | SendPhoto(chatId: string, photo: string, caption: Option<string>, parseMode: Option<ParseMode>,
                captionEntities: Option<seq<Entity>>, opts: SendOptions)
    | SendDocument(chatId: string, document: string, thumb: Option<string>, caption: Option<string>,
                   parseMode: Option<ParseMode>, captionEntities: Option<seq<Entity>>,
                   disableContentTypeDetection: Option<bool>, opts: SendOptions)
    | SendVideo(chatId: string, video: string, duration: Option<JsValue>, width: Option<JsValue>,
                height: Option<JsValue>, thumb: Option<string>, caption: Option<string>,
                parseMode: Option<ParseMode>, captionEntities: Option<seq<Entity>>, opts: SendOptions)
    | SendAnimation(chatId: string, animation: string, duration: Option<JsValue>, width: Option<JsValue>,
                    height: Option<JsValue>, thumb: Option<string>, caption: Option<string>,
                    parseMode: Option<ParseMode>, captionEntities: Option<seq<Entity>>, opts: SendOptions)
    | SendMediaGroup(chatId: string, media: seq<InputMedia>, disableNotification: Option<bool>,
                     replyToMessageId: Option<int>, allowSendingWithoutReply: Option<bool>)
  {
    /** The `path` property: the API method the payload is posted to. */
    function Route(): string {
      match this
      case SendMessage(_, _, _, _, _, _) => "/sendMessage"
      case SendPhoto(_, _, _, _, _, _) => "/sendPhoto"
      case SendDocument(_, _, _, _, _, _, _, _) => "/sendDocument"
      case SendVideo(_, _, _, _, _, _, _, _, _, _) => "/sendVideo"
      case SendAnimation(_, _, _, _, _, _, _, _, _, _) => "/sendAnimation"
      case SendMediaGroup(_, _, _, _, _) => "/sendMediaGroup"
    }

    predicate IsMedia() {
      !SendMessage?
    }

    /** The notification and reply fields, whichever model carries them. */
    function Options(): SendOptions {
      if SendMediaGroup? then SendOptions(disableNotification, replyToMessageId, allowSendingWithoutReply, None)
      else opts
    }
  }

  /** The properties a payload can have. */
  datatype PayloadKey =
    | ChatIdKey | PathKey | TextKey | ParseModeKey | EntitiesKey | DisableWebPagePreviewKey
    | DisableNotificationKey | ReplyToMessageIdKey | AllowSendingWithoutReplyKey | ReplyMarkupKey
    | CaptionKey | CaptionEntitiesKey | PhotoKey | DocumentKey | ThumbKey
    | DisableContentTypeDetectionKey | VideoKey | AnimationKey | DurationKey | WidthKey
    | HeightKey | MediaKey

  /** The property name as serialised; note the camel-case names the media
      models use for caption entities and content-type detection. */
  function KeyName(k: PayloadKey): string {
    match k
    case ChatIdKey => "chat_id"
    case PathKey => "path"
    case TextKey => "text"
    case ParseModeKey => "parse_mode"
    case EntitiesKey => "entities"
    case DisableWebPagePreviewKey => "disable_web_page_preview"
    case DisableNotificationKey => "disable_notification"
    case ReplyToMessageIdKey => "reply_to_message_id"
    case AllowSendingWithoutReplyKey => "allow_sending_without_reply"
    case ReplyMarkupKey => "reply_markup"
    case CaptionKey => "caption"
    case CaptionEntitiesKey => "captionEntities"
    case PhotoKey => "photo"
    case DocumentKey => "document"
    case ThumbKey => "thumb"
    case DisableContentTypeDetectionKey => "disableContentTypeDetection"
    case VideoKey => "video"
    case AnimationKey => "animation"
    case DurationKey => "duration"
    case WidthKey => "width"
    case HeightKey => "height"
    case MediaKey => "media"
  }

  /** Whether `k` is an own property of the payload. */
  predicate HasKey(m: ChatModel, k: PayloadKey) {
    var o := m.Options();
    match k
    case ChatIdKey => true
    case PathKey => true
    case DisableNotificationKey => o.disableNotification.Some?
    case ReplyToMessageIdKey => o.replyToMessageId.Some?
    case AllowSendingWithoutReplyKey => o.allowSendingWithoutReply.Some?
    case ReplyMarkupKey => o.replyMarkup.Some?
    case TextKey => m.SendMessage? && m.text.Some?
    case EntitiesKey => m.SendMessage? && m.entities.Some?
    case DisableWebPagePreviewKey => m.SendMessage? && m.disableWebPagePreview.Some?
    case ParseModeKey => !m.SendMediaGroup? && m.parseMode.Some?
    case CaptionKey => m.IsMedia() && !m.SendMediaGroup? && m.caption.Some?
    case CaptionEntitiesKey => m.IsMedia() && !m.SendMediaGroup? && m.captionEntities.Some?
    case PhotoKey => m.SendPhoto?
    case DocumentKey => m.SendDocument?
    case ThumbKey => (m.SendDocument? || m.SendVideo? || m.SendAnimation?) && m.thumb.Some?
    case DisableContentTypeDetectionKey => m.SendDocument? && m.disableContentTypeDetection.Some?
    case VideoKey => m.SendVideo?
    case AnimationKey => m.SendAnimation?
    case DurationKey => (m.SendVideo? || m.SendAnimation?) && m.duration.Some?
    case WidthKey => (m.SendVideo? || m.SendAnimation?) && m.width.Some?
    case HeightKey => (m.SendVideo? || m.SendAnimation?) && m.height.Some?
    case MediaKey => m.SendMediaGroup?
  }

  /** The keys of the send base class that follow their arguments. */
  ghost predicate OptionKeysFollow(m: ChatModel, o: SendOptions) {
    && HasKey(m, ChatIdKey) && HasKey(m, PathKey)
    && (HasKey(m, DisableNotificationKey) <==> o.disableNotification.Some?)
    && (HasKey(m, ReplyToMessageIdKey) <==> o.replyToMessageId.Some?)
    && (HasKey(m, AllowSendingWithoutReplyKey) <==> o.allowSendingWithoutReply.Some?)
    && (HasKey(m, ReplyMarkupKey) <==> o.replyMarkup.Some?)
  }

  /** The media base class: no text, entities or link-preview keys; a caption
      and `captionEntities` exactly when given. */
  ghost predicate MediaKeysFollow(m: ChatModel, caption: Option<string>, parseMode: Option<ParseMode>,
                                  captionEntities: Option<seq<Entity>>) {
    && !HasKey(m, TextKey) && !HasKey(m, EntitiesKey) && !HasKey(m, DisableWebPagePreviewKey)
    && (HasKey(m, CaptionKey) <==> caption.Some?)
    && (HasKey(m, ParseModeKey) <==> parseMode.Some?)
    && (HasKey(m, CaptionEntitiesKey) <==> captionEntities.Some?)
  }

  /** Whatever the model, the chat id and path are set and each
      notification or reply key is present exactly when its option is. */
  lemma OptionKeysFollowOptions(m: ChatModel)
    ensures OptionKeysFollow(m, m.Options())
  {
  }

  /** Whatever the media model, the text-only keys are absent and the
      caption keys follow its caption slots. */
  lemma MediaKeysFollowSlots(m: ChatModel)
    requires m.IsMedia() && !m.SendMediaGroup?
    ensures MediaKeysFollow(m, m.caption, m.parseMode, m.captionEntities)
  {
  }

  /** `new TgChatSendMessageModel(...)`. */
  function NewSendMessage(chatId: string, text: Option<string>, parseMode: Option<ParseMode>,
                          entities: Option<seq<Entity>>, disableWebPagePreview: Option<bool>,
                          opts: SendOptions): ChatModel
  {
    SendMessage(chatId, text, parseMode, entities, disableWebPagePreview, opts)
  }

  /** A message payload has the text, parse mode, entities and link-preview
      keys exactly for the arguments given, and the send base keys. */
  lemma NewSendMessageKeys(chatId: string, text: Option<string>, parseMode: Option<ParseMode>,
                           entities: Option<seq<Entity>>, disableWebPagePreview: Option<bool>, opts: SendOptions)
    ensures var m := NewSendMessage(chatId, text, parseMode, entities, disableWebPagePreview, opts);
            && m.SendMessage? && m.chatId == chatId && m.Options() == opts
            && (HasKey(m, TextKey) <==> text.Some?) && (HasKey(m, ParseModeKey) <==> parseMode.Some?)
            && (HasKey(m, EntitiesKey) <==> entities.Some?)
            && (HasKey(m, DisableWebPagePreviewKey) <==> disableWebPagePreview.Some?)
  {
  }

  /** `new TgChatSendPhotoModel(...)`: no thumbnail slot at all. */
  function NewSendPhoto(chatId: string, photo: string, caption: Option<string>, parseMode: Option<ParseMode>,
                        captionEntities: Option<seq<Entity>>, opts: SendOptions): ChatModel
  {
    SendPhoto(chatId, photo, caption, parseMode, captionEntities, opts)
  }

  /** A photo payload has the photo key, the caption keys exactly for the
      arguments given, and never a thumbnail. */
  lemma NewSendPhotoKeys(chatId: string, photo: string, caption: Option<string>, parseMode: Option<ParseMode>,
                         captionEntities: Option<seq<Entity>>, opts: SendOptions)
    ensures var m := NewSendPhoto(chatId, photo, caption, parseMode, captionEntities, opts);
            && m.SendPhoto? && m.chatId == chatId && m.Options() == opts && HasKey(m, PhotoKey)
            && (HasKey(m, CaptionKey) <==> caption.Some?) && (HasKey(m, ParseModeKey) <==> parseMode.Some?)
            && !HasKey(m, ThumbKey)
  {
  }

  /** `new TgChatSendDocumentModel(...)`. */
  function NewSendDocument(chatId: string, document: string, thumb: Option<string>, caption: Option<string>,
                           parseMode: Option<ParseMode>, captionEntities: Option<seq<Entity>>,
                           disableContentTypeDetection: Option<bool>, opts: SendOptions): ChatModel
  {
    SendDocument(chatId, document, thumb, caption, parseMode, captionEntities, disableContentTypeDetection, opts)
  }

  /** A document payload has the document key, and the thumbnail, caption
      and content-type keys exactly for the arguments given. */
  lemma NewSendDocumentKeys(chatId: string, document: string, thumb: Option<string>, caption: Option<string>,
                            parseMode: Option<ParseMode>, captionEntities: Option<seq<Entity>>,
                            disableContentTypeDetection: Option<bool>, opts: SendOptions)
    ensures var m := NewSendDocument(chatId, document, thumb, caption, parseMode, captionEntities,
                                     disableContentTypeDetection, opts);
            && m.SendDocument? && m.chatId == chatId && m.Options() == opts && HasKey(m, DocumentKey)
            && (HasKey(m, CaptionKey) <==> caption.Some?) && (HasKey(m, ParseModeKey) <==> parseMode.Some?)
            && (HasKey(m, ThumbKey) <==> thumb.Some?)
            && (HasKey(m, DisableContentTypeDetectionKey) <==> disableContentTypeDetection.Some?)
  {
  }

  /** `new TgChatSendVideoModel(...)`; note the slot order: duration, width
      and height come before the thumbnail and the caption. */
  function NewSendVideo(chatId: string, video: string, duration: Option<JsValue>, width: Option<JsValue>,
                        height: Option<JsValue>, thumb: Option<string>, caption: Option<string>,
                        parseMode: Option<ParseMode>, captionEntities: Option<seq<Entity>>,
                        opts: SendOptions): ChatModel
  {
    SendVideo(chatId, video, duration, width, height, thumb, caption, parseMode, captionEntities, opts)
  }

  /** A video payload has the video key, the chat id and options given,
      and the caption keys exactly for the arguments given. */
  lemma NewSendVideoKeys(chatId: string, video: string, duration: Option<JsValue>, width: Option<JsValue>,
                         height: Option<JsValue>, thumb: Option<string>, caption: Option<string>,
                         parseMode: Option<ParseMode>, captionEntities: Option<seq<Entity>>, opts: SendOptions)
    ensures var m := NewSendVideo(chatId, video, duration, width, height, thumb, caption, parseMode,
                                  captionEntities, opts);
            && m.SendVideo? && m.chatId == chatId && m.Options() == opts && HasKey(m, VideoKey)
            && (HasKey(m, CaptionKey) <==> caption.Some?) && (HasKey(m, ParseModeKey) <==> parseMode.Some?)
  {
  }

  /** The duration, width, height and thumbnail keys of a video payload are
      present exactly for the arguments given. */
  lemma NewSendVideoSlotKeys(chatId: string, video: string, duration: Option<JsValue>, width: Option<JsValue>,
                             height: Option<JsValue>, thumb: Option<string>, caption: Option<string>,
                             parseMode: Option<ParseMode>, captionEntities: Option<seq<Entity>>, opts: SendOptions)
    ensures var m := NewSendVideo(chatId, video, duration, width, height, thumb, caption, parseMode,
                                  captionEntities, opts);
            && (HasKey(m, DurationKey) <==> duration.Some?) && (HasKey(m, WidthKey) <==> width.Some?)
            && (HasKey(m, HeightKey) <==> height.Some?) && (HasKey(m, ThumbKey) <==> thumb.Some?)
  {
  }

  /** `new TgChatSendAnimationModel(...)`: built as a video with a null
      video whose `video` key is then deleted. */
  function NewSendAnimation(chatId: string, animation: string, duration: Option<JsValue>, width: Option<JsValue>,
                            height: Option<JsValue>, thumb: Option<string>, caption: Option<string>,
                            parseMode: Option<ParseMode>, captionEntities: Option<seq<Entity>>,
                            opts: SendOptions): ChatModel
  {
    SendAnimation(chatId, animation, duration, width, height, thumb, caption, parseMode, captionEntities, opts)
  }

  /** An animation payload has the animation key and no video key, the
      chat id and options given, and the caption keys exactly for the
      arguments given. */
  lemma NewSendAnimationKeys(chatId: string, animation: string, duration: Option<JsValue>, width: Option<JsValue>,
                             height: Option<JsValue>, thumb: Option<string>, caption: Option<string>,
                             parseMode: Option<ParseMode>, captionEntities: Option<seq<Entity>>, opts: SendOptions)
    ensures var m := NewSendAnimation(chatId, animation, duration, width, height, thumb, caption, parseMode,
                                      captionEntities, opts);
            && m.SendAnimation? && m.chatId == chatId && m.Options() == opts
            && HasKey(m, AnimationKey) && !HasKey(m, VideoKey)
            && (HasKey(m, CaptionKey) <==> caption.Some?) && (HasKey(m, ParseModeKey) <==> parseMode.Some?)
  {
  }

  /** The duration, width, height and thumbnail keys of an animation payload are
      present exactly for the arguments given. */
  lemma NewSendAnimationSlotKeys(chatId: string, animation: string, duration: Option<JsValue>, width: Option<JsValue>,
                                 height: Option<JsValue>, thumb: Option<string>, caption: Option<string>,
                                 parseMode: Option<ParseMode>, captionEntities: Option<seq<Entity>>, opts: SendOptions)
    ensures var m := NewSendAnimation(chatId, animation, duration, width, height, thumb, caption, parseMode,
                                      captionEntities, opts);
            && (HasKey(m, DurationKey) <==> duration.Some?) && (HasKey(m, WidthKey) <==> width.Some?)
            && (HasKey(m, HeightKey) <==> height.Some?) && (HasKey(m, ThumbKey) <==> thumb.Some?)
  {
  }

  /** `new TgChatSendMediaGroupModel(...)`: the media array as given, and no
      caption, parse mode or reply markup. */
  function NewSendMediaGroup(chatId: string, media: seq<InputMedia>, disableNotification: Option<bool>,
                             replyToMessageId: Option<int>, allowSendingWithoutReply: Option<bool>): ChatModel
  {
    SendMediaGroup(chatId, media, disableNotification, replyToMessageId, allowSendingWithoutReply)
  }

  /** A media group payload carries the given array and the notification
      and reply keys exactly for the arguments given, and no caption, parse
      mode or reply markup. */
  lemma NewSendMediaGroupKeys(chatId: string, media: seq<InputMedia>, disableNotification: Option<bool>,
                              replyToMessageId: Option<int>, allowSendingWithoutReply: Option<bool>)
    ensures var m := NewSendMediaGroup(chatId, media, disableNotification, replyToMessageId, allowSendingWithoutReply);
            && m.SendMediaGroup? && m.chatId == chatId && HasKey(m, MediaKey) && m.media == media
            && m.Options() == SendOptions(disableNotification, replyToMessageId, allowSendingWithoutReply, None)
            && !HasKey(m, CaptionKey) && !HasKey(m, ParseModeKey) && !HasKey(m, ReplyMarkupKey)
  {
  }

  /** Every payload has a chat id and one of the six routes, and the media
      payloads never carry the text-only keys. */
  lemma RoutesAreFixed(m: ChatModel)
    ensures HasKey(m, ChatIdKey)
    ensures m.SendMessage? <==> m.Route() == "/sendMessage"
    ensures m.SendPhoto? <==> m.Route() == "/sendPhoto"
    ensures m.SendDocument? <==> m.Route() == "/sendDocument"
    ensures m.SendVideo? <==> m.Route() == "/sendVideo"
    ensures m.SendAnimation? <==> m.Route() == "/sendAnimation"
    ensures m.SendMediaGroup? <==> m.Route() == "/sendMediaGroup"
    ensures m.IsMedia() ==> !HasKey(m, TextKey) && !HasKey(m, EntitiesKey) && !HasKey(m, DisableWebPagePreviewKey)
    ensures m.SendPhoto? ==> !HasKey(m, ThumbKey)
    ensures m.SendAnimation? ==> !HasKey(m, VideoKey)
  {
  }
}
