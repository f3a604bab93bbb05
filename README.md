# tg-bot file relay, modelled in Dafny

tg-bot watches a directory and relays the files dropped there to a Telegram
chat. This project models the pipeline between the directory listing and the
send queue, and proves properties of it:

- **Records.** `getFileMeta` builds file records and `sortFilesByDate` sorts
  them by change time (`FetchContent`).
- **Classifier.** It gives each record a media kind from the extension table
  (`MediaTypes`) and attaches `<name>_thumb.*` and `<name>_caption.*`
  companion files, skipping them later (`ParseFiles`).
- **Assembler.** `createMessages` turns classified files into Bot API
  payloads (`BuildMessages`). Files named `<base>{<digits><d>}.<ext>` form
  bundles (`BundlePattern`). The first file of a bundle becomes its head and
  collects the album items of the later members. At the end each album is
  stably sorted by member index.
  - `AssemblySpec` describes the resulting list without following the loop.
  - `AssemblyProofs` proves that the loop computes exactly that description.
  - `AssemblyFacts` reads the promised properties off it.
- **Text.** Parse-mode selection and the MarkdownV2 escaper (`MessageText`).
- **Payload records.** The Bot API payload records, with optional fields that
  are present exactly when their argument is non-null (`InputMediaModels`,
  `ChatModels`).
- **Older assembler.** `createQueue` (`BuildQueue`).
- **Helpers.** `arrayDiff`, `escapeRegex` and `flattenFileObject` (`Helpers`).
- **Send queue.** A class over a sequence (`Queue`).
- **Cleanup.** Which paths `moveSentFiles` moves to the history directory,
  and where to (`MoveSent`).

Shared pieces:
- `Wrappers` holds the `Option` and `Result` types.
- `StringUtil` covers JavaScript string and path behaviour: `path.extname`,
  `path.basename`, ASCII lower-casing and a character-by-character string
  order (by code point; see Left out).
- `Sorting` is a stable insertion sort. It is stated as a function and
  implemented in place on an array, matching `Array.prototype.sort`.

The file system, the clock and the configuration are inputs:
- a map from path to contents stands for `readFile`/`readFileSync`, and a
  path missing from it is a read that throws;
- a map from path to `stat` result stands for `fs.stat`;
- `handleFiles` is a two-valued parameter, `Remote` or `Local`, and the chat
  id is a string parameter;
- the outcome of `mkdir` and the set of paths whose `rename` fails are
  parameters of the cleanup.

Where the system's design description and its code disagree, the model
follows the code. The exception is a bug recorded under Findings: there the
main model uses the corrected member, and a separate as-written member shows
the bug.
- The description says a file with an unknown extension becomes a document
  and is never an error. The code as written throws on every non-empty list
  (parse-files.js:17 reads `types.knownMedia`, which is not exported) and,
  with `knownMedias`, still throws for an unknown extension before its
  document fallback. `KnownMediaNotExported` and `UnknownExtensionThrows`
  model that; the classifier uses the corrected lookup (see Findings and
  Left out).
- The description has a queue with a pull lock, a per-item "mark sent" step
  and an exclude list. queue.js has only `addToQueue` and `pullN`, which is
  `splice(0, n)` and removes what it returns.
- The description says an unreadable caption or text file aborts only that
  message. In `createMessages` the failed `readFile` rejects the whole call,
  and the model returns an error for the whole list.
- The description says video duration and dimensions are always omitted.
  The code as written spreads `msgData` into a lone video's or animation's
  constructor so that the thumbnail, caption and parse mode land in those
  very slots. `SingleSpreadAsWritten` models that call; the assembler model
  uses the corrected slots instead (see Findings and Left out).
- The description says files whose `stat` fails are dropped with a warning.
  In `getFileMeta` a failed `fs.stat` rejects the whole `Promise.all`.

## Model

| member | source | states |
|---|---|---|
| MediaTypes.FindFrom | core/assembler/parse-files.js:17-19 | the index found is the first table entry listing the extension; none is found only when no entry lists it |
| MediaTypes.ExtensionsUnique | core/models/types.js:27-79 | no extension is listed by two entries of `knownMedias`, so the lookup is a function of the extension |
| MediaTypes.LookupIsContainingEntry | core/models/types.js:27-79 | an extension listed by entry `i` is found at `i` and gets that entry's kind |
| MediaTypes.LookupKnown | core/models/types.js:27-79 | the lookup succeeds exactly for the eleven listed extensions |
| MediaTypes.VideoExtensions | core/models/types.js:27-33 | `.mp4` is the only video extension |
| MediaTypes.ImageExtensions | core/models/types.js:34-57 | `.jpg`, `.jpeg`, `.png`, `.gif` and `.webp`, and nothing else, map to image |
| MediaTypes.AudioExtensions | core/models/types.js:58-63 | `.mp3` is the only audio extension |
| MediaTypes.TextExtensions | core/models/types.js:64-78 | `.txt`, `.md`, `.htm` and `.html`, and nothing else, map to text |
| MediaTypes.LookupNeverDocumentOrAnimation | core/models/types.js:27-79 | the table never yields document or animation; those come only from the classifier |
| StringUtil.ExtName | core/assembler/parse-files.js:15 | `path.extname` of a name is empty or a '.'-led suffix of it with no further '.' |
| StringUtil.BaseName | core/fs/fetch-content.js:30 | `path.basename` is a suffix of the path containing no '/' |
| StringUtil.ToLower | core/fs/fetch-content.js:32 | ASCII lower-casing keeps the length and maps each character by itself (weaker than `toLowerCase`; see Left out) |
| FetchContent.GetFileMeta | core/fs/fetch-content.js:23-47 | the call resolves exactly when every path could be statted, with at most one record per path |
| FetchContent.GetFileMetaSound | core/fs/fetch-content.js:28-39 | every record comes from a listed path that is not a directory, built from that path's stat |
| FetchContent.GetFileMetaComplete | core/fs/fetch-content.js:28-46 | every listed path that is not a directory yields its record |
| FetchContent.GetFileMetaAppend | core/fs/fetch-content.js:24-46 | records keep the order of the paths: the records of a concatenation are the concatenated records |
| FetchContent.GetFileMetaSingle | core/fs/fetch-content.js:28-46 | one path yields no record for a directory and its own record otherwise |
| FetchContent.RecordShape | core/fs/fetch-content.js:30-39 | a record keeps the path and ctime; its name is the slash-free tail of the path; its extension is lower-case, empty or '.'-led |
| FetchContent.SortFilesByDate | core/fs/fetch-content.js:55-59 | sorts the very array it is given in place, returns it, and leaves the stable sort of the old contents by ctime |
| FetchContent.SortFilesByDateSpec | core/fs/fetch-content.js:55-59 | the sorted list has non-decreasing ctime, is a permutation of the input, and keeps the input order among equal ctimes |
| Sorting.SortBySorted | core/assembler/build-messages.js:344 | the sort result is ordered by the key and has the input's length |
| Sorting.SortByPermutation | core/assembler/build-messages.js:344 | the sort result is a permutation of the input |
| Sorting.SortByStable | core/assembler/build-messages.js:344 | items with equal keys keep their input order |
| Sorting.InsertAt | core/assembler/build-messages.js:344 | one in-place insertion step: the prefix becomes the insertion of the next item and the rest is untouched |
| Sorting.SortInPlace | core/fs/fetch-content.js:56-58 | sorting an array in place leaves exactly the stable sort of its old contents |
| ParseFiles.ResolveKindSpec | core/assembler/parse-files.js:15-32 | an unknown extension gives document; the kind is animation exactly for a `.mp4` or `.gif` whose name contains `_animation.`; otherwise it is the table's kind |
| ParseFiles.FindNamed | core/assembler/parse-files.js:44-49 | the companion found is the first record of the whole list with one of the wanted names; none exactly when no record has one |
| ParseFiles.ClassifySpec | core/assembler/parse-files.js:15-71 | a classified file keeps name, path and ctime, and has `path.extname` as extension and the resolved kind; it has a thumbnail iff its kind takes one and `<name>_thumb.jpg`/`.jpeg` is listed; it has a caption iff it is not text and a `<name>_caption.{txt,md,htm,html}` is listed |
| ParseFiles.ClassifyAllAt | core/assembler/parse-files.js:15-71 | every file is decorated by looking its companions up in the whole list |
| ParseFiles.WalkStep | core/assembler/parse-files.js:10-72 | a skipped file changes nothing; a kept file is appended and its companions join the skip list |
| ParseFiles.Decorate | core/assembler/parse-files.js:15-71 | the in-place decoration of one file is its classification |
| ParseFiles.ParseFiles | core/assembler/parse-files.js:7-74 | the `forEach` loop with its skip list returns the walk's output |
| ParseFiles.KeptIndicesOrdered | core/assembler/parse-files.js:10-72 | the output is the kept files at increasing input positions |
| ParseFiles.KeptIndicesExact | core/assembler/parse-files.js:12 | a position is output exactly when its name is not on the skip list when it is reached |
| ParseFiles.WalkIsKeptSubsequence | core/assembler/parse-files.js:10-72 | the output is exactly the kept files, in input order |
| ParseFiles.ParsedIsKeptSubsequence | core/assembler/parse-files.js:10-72 | the parsed list is the subsequence of the classified input at the kept positions |
| ParseFiles.SkippedNotOutput | core/assembler/parse-files.js:12 | a file whose name is already on the skip list is not output and changes nothing |
| ParseFiles.SkipListGrows | core/assembler/parse-files.js:51-68 | the skip list only grows |
| ParseFiles.CompanionsSkipped | core/assembler/parse-files.js:50-69 | every attached thumbnail and caption name is on the skip list |
| ParseFiles.LaterCompanionNotOutput | core/assembler/parse-files.js:12-68 | a companion met after its owner is not output |
| ParseFiles.CompanionNames | core/assembler/parse-files.js:43-66 | an attached companion is named `<full name>_thumb.jpg/.jpeg` or `<full name>_caption.<text ext>` |
| ParseFiles.CompanionFollowsOwner | core/assembler/parse-files.js:43-66 | in a name-sorted listing a companion comes after its owner |
| ParseFiles.KeptPairExcluded | core/assembler/parse-files.js:10-72 | of two output files of a name-sorted listing, neither is a companion of the other |
| ParseFiles.CompanionsExclusive | core/assembler/parse-files.js:10-72 | in a name-sorted listing no output file is a companion of an output file |
| ParseFiles.EarlierCompanionIsAlsoOutput | core/assembler/parse-files.js:44-49 | a thumbnail listed before its video is both output and attached, since `find` scans the whole list |
| MediaTypes.KnownMediaName | core/models/types.js:81-103 | the table is exported as `knownMedias` and nothing is exported as `knownMedia` |
| ParseFiles.KnownMediaNotExported | core/assembler/parse-files.js:17 | the as-written callback throws on any non-empty list, because the table is exported as `knownMedias` |
| ParseFiles.UnknownExtensionThrows | core/assembler/parse-files.js:17-21 | the as-written lookup throws exactly where the document fallback was meant to apply, e.g. `photo.JPG` and `notes.pdf` |
| InputMediaModels.NewInputMediaPhotoKeys | tg/models/input.js:59-68 | type "photo", with mediaIdx and media always set; caption, parse mode and entities are keys iff non-null; never a `thumb` |
| InputMediaModels.NewInputMediaVideoKeys | tg/models/input.js:90-115 | type "video"; the base keys and width, height, duration and supports_streaming are present iff non-null |
| InputMediaModels.NewInputMediaAnimationKeys | tg/models/input.js:135-159 | type "animation"; the base keys and width, height and duration are present iff non-null; never `supports_streaming` |
| InputMediaModels.NewInputMediaAudioKeys | tg/models/input.js:179-202 | type "audio"; duration, performer and title are present iff non-null |
| InputMediaModels.NewInputMediaDocumentKeys | tg/models/input.js:220-241 | type "document"; disable_content_type_detection is present iff non-null |
| InputMediaModels.TypeTagsAreFixed | tg/models/input.js:1-5 | every item has one of the five fixed type tags, one per class |
| ChatModels.OptionKeysFollowOptions | tg/models/chat.js:51-64 | the notification, reply and markup keys are present exactly for the non-null options |
| ChatModels.MediaKeysFollowSlots | tg/models/chat.js:114-155 | a media payload has caption, parse_mode and caption_entities exactly for its non-null slots, and none of the text-only keys |
| ChatModels.NewSendMessageKeys | tg/models/chat.js:85-108 | a sendMessage payload with the given `chat_id` and options; text, parse_mode, entities and disable_web_page_preview are present iff non-null |
| ChatModels.NewSendPhotoKeys | tg/models/chat.js:174-198 | a sendPhoto payload with `photo`; caption and parse_mode are present iff non-null; never `thumb` |
| ChatModels.NewSendDocumentKeys | tg/models/chat.js:219-247 | a sendDocument payload with `document`; caption, parse_mode, `thumb` and content-type detection are present iff non-null |
| ChatModels.NewSendVideoKeys | tg/models/chat.js:271-302 | a sendVideo payload with `video`; caption and parse_mode are present iff non-null |
| ChatModels.NewSendVideoSlotKeys | tg/models/chat.js:271-302 | duration, width, height and thumb are present iff non-null |
| ChatModels.NewSendAnimationKeys | tg/models/chat.js:326-359 | a sendAnimation payload with `animation` and no `video` key; caption and parse_mode are present iff non-null |
| ChatModels.NewSendAnimationSlotKeys | tg/models/chat.js:326-359 | duration, width, height and thumb are present iff non-null |
| ChatModels.NewSendMediaGroupKeys | tg/models/chat.js:374-393 | a sendMediaGroup payload whose `media` is the given array and whose options are the given ones, with no caption, parse mode or reply markup |
| ChatModels.RoutesAreFixed | tg/models/chat.js:17-19 | `chat_id` is always set; each payload kind has its fixed route; media payloads carry no text keys; photos have no thumb; animations have no video |
| MessageText.GetParseMode | core/assembler/build-messages.js:15-30 | a missing file gives no parse mode |
| MessageText.GetParseModeText | core/assembler/build-messages.js:15-30 | MarkdownV2 exactly for `.md`, HTML exactly for `.htm`/`.html`, none otherwise, and a mode only for a text extension |
| MessageText.MdV2Escape | core/assembler/build-messages.js:38-42 | escaping never shortens the text |
| MessageText.EscapeIsRender | core/assembler/build-messages.js:41 | the left-to-right global replace equals inserting a backslash before exactly the marked characters |
| MessageText.EscapeSuffix | core/assembler/build-messages.js:41 | the replace resumes after each match: escaping a suffix that starts at an unmarked position renders it |
| MessageText.MarkedFacts | core/assembler/build-messages.js:41 | a marked character is special, is not first and follows a non-backslash; the character after a marked one is never marked |
| MessageText.IsolatedSpecialMarked | core/assembler/build-messages.js:41 | a special character after an ordinary non-backslash character is always escaped |
| MessageText.EscapeExamples | core/assembler/build-messages.js:41 | `a..` becomes `a\..`; an escaped dot stays; the first character is never escaped |
| BundlePattern.DigitRunEnd | core/assembler/build-messages.js:83 | the end of a maximal run of digits |
| BundlePattern.Groups | core/assembler/build-messages.js:93-95 | the coarse group of a match is all digits |
| BundlePattern.LongestFrom | core/assembler/build-messages.js:82-84 | a base length found is one at which the pattern matches |
| BundlePattern.LongestFromMax | core/assembler/build-messages.js:82-84 | the greedy `(.*)` takes the longest base that still matches; none is found exactly when none matches |
| BundlePattern.ParseBundleNameSpec | core/assembler/build-messages.js:82-95 | a name matches iff some base works, and then the groups are those of the longest base |
| BundlePattern.RoundTrip | core/assembler/build-messages.js:82-95 | parsing `<base>{<digits>}.<ext>` gives back the base, the leading digits and the last digit's value |
| BundlePattern.RoundTripMatch | core/assembler/build-messages.js:82-95 | a composed name matches at its own base |
| BundlePattern.RoundTripNoLonger | core/assembler/build-messages.js:82-84 | no longer base matches a composed name |
| BundlePattern.DigitRunEndAt | core/assembler/build-messages.js:83 | a digit run bounded by a non-digit ends there |
| BundlePattern.UnderscoreAt | core/assembler/build-messages.js:93 | the bundle name is the base, "_", then the coarse digits |
| BundlePattern.DigitAfterUnderscore | core/assembler/build-messages.js:93 | everything after that underscore is a digit |
| BundlePattern.NameInjective | core/assembler/build-messages.js:93 | two matches share a bundle name exactly when base and coarse digits agree |
| BundlePattern.ExampleGreedyBase | core/assembler/build-messages.js:83 | `a{1}.b{2}.c` has base `a{1}.b` and member index 2 |
| BundlePattern.ExampleTwoDigits | core/assembler/build-messages.js:82-95 | `trip{12}.jpg` is member 2 of bundle `trip_1` |
| BundlePattern.ExampleNoDigits | core/assembler/build-messages.js:83 | `trip{}.jpg` is in no bundle |
| BuildMessages.BundleMembers | core/assembler/build-messages.js:317-335 | a head's `bundleMembers` is the head followed by its member copies |
| BuildMessages.ReadCaptionValue | core/assembler/build-messages.js:113-123 | a caption file is read iff its contents are known; the caption is its contents, MarkdownV2-escaped exactly when the caption file is `.md`; the parse mode is the caption file's |
| BuildMessages.TextPayloadValue | core/assembler/build-messages.js:151-165 | a text file's message is built iff its contents are known; it is those contents, MarkdownV2-escaped exactly when the file is `.md`, under its own extension's parse mode |
| BuildMessages.SpreadShiftsSlots | core/assembler/build-messages.js:261-264 | the as-written lone video/animation has no thumb, caption or parse_mode, and its duration, width and height hold them |
| BuildMessages.SingleForSlots | core/assembler/build-messages.js:252-293 | the corrected lone video/animation carries thumb, caption and parse mode in their own keys and no duration, width or height |
| BuildMessages.FindGroup | core/assembler/build-messages.js:96-107 | the group found is the first bundle-list entry with the name; none iff no entry has it |
| BuildMessages.PushItem | core/assembler/build-messages.js:187-190 | appending to a head's album through `bundleList` keeps every bundle-list entry pointing at a head |
| BuildMessages.AddMember | core/assembler/build-messages.js:301-317 | adding a member keeps `bundleList` pointing at heads |
| BuildMessages.AddTop | core/assembler/build-messages.js:318-337 | pushing a file object (and a head onto `bundleList`) keeps `bundleList` pointing at heads |
| BuildMessages.Step | core/assembler/build-messages.js:53-338 | one iteration keeps `bundleList` pointing at heads |
| BuildMessages.Run | core/assembler/build-messages.js:53-339 | the whole loop keeps `bundleList` pointing at heads |
| BuildMessages.RunErrSticks | core/assembler/build-messages.js:53-339 | once an iteration throws, the call rejects with that same error |
| BuildMessages.FindBundle | core/assembler/build-messages.js:96-107 | the `for ... of bundleList.entries()` search returns the first matching group |
| BuildMessages.ProcessFile | core/assembler/build-messages.js:54-338 | one loop body computes the step's new `msgList` and `bundleList`, or its error |
| BuildMessages.SortBundleMedia | core/assembler/build-messages.js:343-345 | the final loop sorts each head's album, or throws on a head without one |
| BuildMessages.WalkFile | core/assembler/build-messages.js:53-338 | one pass of the loop yields the walk after one more file |
| BuildMessages.CreateMessages | core/assembler/build-messages.js:50-347 | `createMessages` returns the assembled list or the rejection |
| AssemblySpec.FirstSame | core/assembler/build-messages.js:96-107 | the head of a bundle is its first file in input order |
| AssemblyProofs.HeadUnique | core/assembler/build-messages.js:96-110 | a bundle has exactly one head: every file with a head's bundle name resolves to that head |
| AssemblyProofs.HeadOfMember | core/assembler/build-messages.js:96-107 | a non-head member's head comes earlier and has the same bundle name |
| AssemblyProofs.FindGroupExp | core/assembler/build-messages.js:96-107 | a new bundle name is not found in `bundleList`; a member finds its head's group |
| AssemblyProofs.ExpStateHeads | core/assembler/build-messages.js:330-337 | bundle-list entry `g` is the position in `msgList` of the `g`-th head, holding that head's object |
| AssemblyProofs.ExpMsgGrow | core/assembler/build-messages.js:187-317 | processing a member updates only its head: one member copy, and one album item unless it is text |
| AssemblyProofs.ExpMsgAlbum | core/assembler/build-messages.js:175-189 | a head's object carries an album exactly when it is not a text file |
| AssemblyProofs.StepTop | core/assembler/build-messages.js:318-337 | a file opening a message succeeds iff it does not throw, and appends its object to the described state |
| AssemblyProofs.StepJoin | core/assembler/build-messages.js:187-317 | a member succeeds iff its caption/text can be read, its head has an album when it is media, and it has no thumbnail in local mode; its head is then updated in place |
| AssemblyProofs.StepMember | core/assembler/build-messages.js:301-317 | a member step succeeds iff it does not throw, and yields the described state |
| AssemblyProofs.RunStep | core/assembler/build-messages.js:53-339 | if the walk over `n - 1` files is described, so is the walk over `n` files |
| AssemblyProofs.RunExp | core/assembler/build-messages.js:53-339 | the loop succeeds iff no file throws, and then `msgList` and `bundleList` are the description |
| AssemblyProofs.SortBundlesSpec | core/assembler/build-messages.js:343-345 | the final loop succeeds iff every head has an album, and then sorts exactly the heads' albums |
| AssemblyProofs.ExpStateHeadSet | core/assembler/build-messages.js:330-337 | `bundleList` is increasing, and an object is a head exactly when it is on `bundleList` |
| AssemblyProofs.ExpHeadsAlbums | core/assembler/build-messages.js:343-345 | every head has an album exactly when no head is a text file |
| AssemblyProofs.SortExp | core/assembler/build-messages.js:343-346 | the final sort succeeds iff no head is text, and returns the described final list |
| AssemblyProofs.AssembleExp | core/assembler/build-messages.js:50-347 | `createMessages` resolves iff no file throws and no head is a text file, and it then returns the described list |
| AssemblyFacts.SameAfterMembers | core/assembler/build-messages.js:96-317 | a head's later members are exactly the later files with its bundle name |
| AssemblyFacts.TopPayloadShape | core/assembler/build-messages.js:149-293 | a file's own payload is an album iff it is bundled media, and a text message iff it is text |
| AssemblyFacts.TopPayloadFails | core/assembler/build-messages.js:154-220 | a file's own payload throws iff its text cannot be read or it is a lone audio file |
| AssemblyFacts.FinalFiles | core/assembler/build-messages.js:301-338 | the returned list holds exactly the non-bundle files and the heads, in input order; later members never appear |
| AssemblyFacts.FinalBundle | core/assembler/build-messages.js:93-317 | a head carries its bundle name and index; its `bundleMembers` is itself and then its later members in order |
| AssemblyFacts.FinalBundleGroups | core/assembler/build-messages.js:301-335 | each member copy's `bundleGroup` leads back, through `bundleList`, to its head |
| AssemblyFacts.FinalAlbum | core/assembler/build-messages.js:343-345 | a returned album is sorted by `mediaIdx` and is a permutation of the head's item and the later media members' items |
| AssemblyFacts.TopPayloadText | core/assembler/build-messages.js:113-293 | a text payload holds the rendered file contents and its parse mode; a single media payload holds the rendered caption and the caption file's parse mode |
| AssemblyFacts.FinalAt | core/assembler/build-messages.js:318-337 | the k-th returned file object is the k-th file with a message of its own, and outside albums its payload is that file's |
| AssemblyFacts.ItemCaption | core/assembler/build-messages.js:113-141 | an album item carries its file's rendered caption and the caption file's parse mode |
| AssemblyFacts.FinalAlbumHead | core/assembler/build-messages.js:168-293 | a returned album holds an item with its head's rendered caption and parse mode |
| AssemblyFacts.FinalText | core/assembler/build-messages.js:113-293 | each returned file object's text message, single media payload or album carries that file's rendered text or caption and parse mode |
| AssemblyFacts.AssembledText | core/assembler/build-messages.js:53-345 | on success, every caption file of a returned file object was readable; text messages, single media payloads and albums carry the rendered contents and parse mode |
| AssemblyFacts.ItemIndex | core/assembler/build-messages.js:180-182 | an album item's `mediaIdx` is its file's member index |
| BuildQueue.CreateQueue | core/assembler/build-queue.js:37-141 | the `forEach` pushes the entry of each file in turn, or stops at the first read that throws |
| BuildQueue.PushedErrSticks | core/assembler/build-queue.js:52 | once `readFileSync` throws, the walk has thrown that same error |
| BuildQueue.PushedOnePerFile | core/assembler/build-queue.js:42-140 | the walk succeeds iff no entry throws, and then pushes exactly one entry per file, in input order; otherwise it throws the first error |
| BuildQueue.QueueEntryFails | core/assembler/build-queue.js:49-137 | an entry throws iff a text file, or the caption of a document, video or animation, cannot be read |
| BuildQueue.QueueEntryTextImage | core/assembler/build-queue.js:49-76 | audio gets undefined; text is sent raw with its own parse mode; an image caption is `file://` plus the caption path |
| BuildQueue.QueueEntryMedia | core/assembler/build-queue.js:79-137 | documents, videos and animations get `thumb` iff a thumbnail exists and the caption contents iff a caption exists; no duration, width or height |
| Helpers.ArrayDiff | util/helpers.js:8-18 | the loop returns the difference, built without changing either input |
| Helpers.DiffAppend | util/helpers.js:11-15 | the difference keeps the order of A |
| Helpers.DiffCount | util/helpers.js:8-18 | each item not in B keeps all its occurrences in A, duplicates included; items in B have none |
| Helpers.DiffMember | util/helpers.js:12 | an item is in the result iff it is in A and not in B |
| Helpers.DiffNothing | util/helpers.js:8-18 | `arrayDiff(A, [])` is A |
| Helpers.DiffSelf | util/helpers.js:8-18 | `arrayDiff(A, A)` is empty |
| Helpers.EscapeRegex | util/helpers.js:26-28 | escaping never shortens the string |
| Helpers.EscapeRoundTrip | util/helpers.js:26-28 | reading the escaped pattern back gives the original string |
| Helpers.EscapeAppend | util/helpers.js:27 | escaping works character by character |
| Helpers.EscapePlain | util/helpers.js:27 | a string without special characters is unchanged |
| Helpers.Triple | util/helpers.js:46-48 | a file contributes its own prop first, then at most its thumbnail's and caption's |
| Helpers.FlattenFileObject | util/helpers.js:37-51 | the members' values, then the object's own, with falsy values dropped |
| Helpers.PushTriple | util/helpers.js:41-43 | the three pushes for one file append its triple |
| Helpers.FilterTruthy | util/helpers.js:50 | `filter(f => f)` drops exactly the empty strings |
| Helpers.NonEmptyAppend | util/helpers.js:50 | filtering distributes over concatenation |
| Helpers.NonEmptyMember | util/helpers.js:50 | a value survives the filter iff it was listed and is non-empty |
| Helpers.FlattenShape | util/helpers.js:39-48 | without members the result is `[path, thumb?, caption?]`; a head lists its members (itself first) and then itself again |
| Helpers.TriplesFirst | util/helpers.js:40-44 | the members' values start with the first member's triple |
| Helpers.FlattenComplete | util/helpers.js:37-51 | every result is non-empty, and the object's own non-empty prop is always listed |
| Queue.Taken | core/queue/queue.js:7-9 | `splice(0, n)` removes none for n <= 0, n items for 0 <= n <= length, and all of them beyond |
| Queue.Pull | core/queue/queue.js:7-9 | pulled items followed by the remaining ones give back the old queue, with the clamped count pulled |
| Queue.SendQueue.constructor | core/queue/queue.js:1 | the queue starts empty |
| Queue.SendQueue.AddToQueue | core/queue/queue.js:3-5 | the messages are appended at the tail in argument order |
| Queue.SendQueue.PullN | core/queue/queue.js:7-9 | returns the front `max(0, min(n, length))` items and removes them |
| Queue.PullNothing | core/queue/queue.js:7-9 | `pullN(0)` returns nothing and changes nothing |
| Queue.PullFront | core/queue/queue.js:7-9 | the front is returned, and the length left is `max(0, length - n)` |
| Queue.PullFifo | core/queue/queue.js:3-9 | items added later never come out before earlier ones |
| Queue.PullTwice | core/queue/queue.js:7-9 | two pulls in a row return what one pull of both counts returns |
| Queue.AddedThenPulled | core/queue/queue.js:3-9 | after adding `a` and then `b`, pulling `|a|` returns `a` and leaves `b` |
| MoveSent.MoveSentFiles | core/fs/move-sent.js:27-57 | the nested loops start one move per source path, or reject with the `mkdir` error |
| MoveSent.PushMembers | core/fs/move-sent.js:36-44 | the inner loop moves each member's path, thumbnail and caption, in member order |
| MoveSent.PushMoves | core/fs/move-sent.js:48-54 | one file moves its path, then its thumbnail and caption when present |
| MoveSent.PlanOutcome | core/fs/move-sent.js:28-32 | rejects iff `mkdir` fails with a code other than EEXIST; a failed rename is only logged and never makes the call reject |
| MoveSent.JoinPathBase | core/fs/move-sent.js:18 | the destination lies in the history directory and ends with the source's base name |
| MoveSent.MoveDestination | core/fs/move-sent.js:16-19 | each destination keeps its source's base name and lies under the history path |
| MoveSent.SourcesAppend | core/fs/move-sent.js:34 | entries are processed in list order |
| MoveSent.SourcesOfShape | core/fs/move-sent.js:35-54 | a head moves only its members' files, itself first and not again; any other entry moves its path, thumbnail and caption |
| MoveSent.SourcesFlatten | core/fs/move-sent.js:35-46 | the moved paths are `flattenFileObject`'s values, except that flattening lists a head's own files a second time |

## Left out

- File system and network: `readdir`, `stat`, `readFile`, `createReadStream`,
  `mkdir` and `rename` are inputs or parameters. send.js, the timer-driven
  routines (sender.js, queue-fill.js, sent-cleanup.js) and config.js are not
  part of this model.
- The default `handleFiles` value "server" matches neither branch of
  `createMessages`; the model's mode is `Remote` or `Local` only.
- Local-mode read streams: the keys named after files that
  `createMessages` adds to payloads (build-messages.js:307-326) are not
  modelled. A member with a thumbnail in local mode is modelled as the
  rejection that the `file.thumbfile` typo at line 313 causes.
- tg/models/entity.js is not part of this model: no code path builds one,
  and entity lists are opaque values.
- `sortFilesByDate` compares `ctime` as whole milliseconds, as
  `getTime()` gives them; dates are integers.
- MoveSent.JoinPath: `path.resolve` also makes a relative history path
  absolute against the working directory and normalises `.` and `..`
  segments. The model only joins with one '/'.
- Move order: the renames run concurrently under `Promise.all`. The model
  lists the moves in the order they are started, not the order in which they
  finish.
- BuildQueue.CreateQueue: the source never returns or exports its `queue`
  array. The model returns what the array holds when no read throws. A text
  body is passed as the Buffer from `readFileSync`, and the model takes it as
  the file's text. When a read throws, the model returns `Err` with the
  unreadable path. The source's `.catch` (build-queue.js:143-146) instead
  logs the error and resolves to `undefined`, and the entries pushed before
  the throw stay in `queue`; the model does not keep that prefix.
- ParseFiles.ParseFiles: like `Classify`, `ClassifySpec`, `ResolveKind` and
  `ResolveKindSpec`, it classifies with the corrected lookup in
  `knownMedias` and its document fallback (first two Findings rows). The
  source as written throws inside the `forEach` callback, which its `.catch`
  (parse-files.js:76-79) turns into a resolved `undefined`; only
  `ParsedAsWritten`, `KnownMediaNotExported`, `ResolveKindAsWritten` and
  `UnknownExtensionThrows` model that.
- BuildMessages.CreateMessages: like `Step`, `Run`, `Assemble` and everything
  in `AssemblySpec`, `AssemblyProofs` and `AssemblyFacts`, it builds a lone
  video or animation with the corrected `SingleFor` (third Findings row), so
  its thumbnail, caption and parse mode sit in their own slots. The source
  as written puts them in the duration, width and height slots; only
  `SingleSpreadAsWritten` and `SpreadShiftsSlots` model that.
- StringUtil.ToLower: it lower-cases `A`-`Z` only. JavaScript's
  `toLowerCase` maps all of Unicode and can lengthen a string (U+0130 becomes
  two code units). Every extension in the media table is ASCII. Apart from
  the Kelvin sign (U+212A, which becomes `k`), no non-ASCII character
  lower-cases to ASCII, and no table extension contains `k`. So a lookup
  after lower-casing succeeds in the model exactly when it does in the
  source, though the lower-cased text itself can differ.
- StringUtil.LexLess: it orders characters by code point. JavaScript's
  default sort compares UTF-16 code units, which places U+E000-U+FFFF after
  the characters above U+FFFF. The two orders agree on names without
  characters from U+E000 up.
- ParseFiles.CompanionsExclusive: it holds only for name-sorted listings.
  `EarlierCompanionIsAlsoOutput` shows the other order.
- Helpers.FlattenFileObject: only the `path`, `name` and `ext` props are
  modelled.

## Findings

| source | as written | input that shows it | evidently intended | confidence | as-written member | corrected member |
|---|---|---|---|---|---|---|
| core/assembler/parse-files.js:17 | reads `types.knownMedia`, but types.js exports `knownMedias`, so `.find` is called on undefined | any non-empty file list | look the extension up in `knownMedias` | high, not executed | ParseFiles.KnownMediaNotExported | ParseFiles.ClassifySpec |
| core/assembler/parse-files.js:17-21 | takes `.type` of the result of `find`, which is undefined for an unknown extension, so the document fallback is never reached | `notes.pdf`, or `photo.JPG` (the extension is not lower-cased here) | unknown extensions become documents | high, not executed | ParseFiles.UnknownExtensionThrows | ParseFiles.ResolveKindSpec |
| core/assembler/build-messages.js:261-264 | spreads `[media, thumb, caption, parseMode]` into `TgChatSendVideoModel(chatID, video, duration, width, height, thumb, caption, parseMode, ...)`; the same holds for animations at 286-289 | a lone `clip.mp4` with `clip.mp4_thumb.jpg` and `clip.mp4_caption.md` | thumbnail, caption and parse mode in their own slots | high, not executed | BuildMessages.SpreadShiftsSlots | BuildMessages.SingleForSlots |
