/** A description of the result of `createMessages` that does not follow
    its loop: which files open a message of their own, which files each
    bundle collects, and which album items its payload holds. The lemmas of
    `AssemblyProofs` show that the loop computes exactly this.

    The description works on entries: each file together with the match of
    the bundle pattern against its name, computed once by `Entries`. */
module AssemblySpec {
  import opened Wrappers
  import opened MediaTypes
  import opened ParseFiles
  import opened InputMediaModels
  import opened ChatModels
  import opened BundlePattern
  import opened Sorting
  import opened BuildMessages

  /** A file and the bundle its name puts it in. */
  datatype Entry = Entry(file: ParsedFile, bm: Option<BundleMatch>)
  {
    /** The bundle name, if the name follows the pattern. */
    function Name(): Option<string> {
      match bm
      case None => None
      case Some(b) => Some(b.Name())
    }

    /** The member index (0 outside bundles, where it is unused). */
    function Fine(): nat {
      match bm
      case None => 0
      case Some(b) => b.fine
    }
  }

  /** The entries of the walked files. */
  function Entries(files: seq<ParsedFile>): seq<Entry> {
    seq(|files|, j requires 0 <= j < |files| => Entry(files[j], ParseBundleName(files[j].name)))
  }

  lemma EntriesAt(files: seq<ParsedFile>, j: nat)
    requires j < |files|
    ensures |Entries(files)| == |files| && Entries(files)[j] == Entry(files[j], ParseBundleName(files[j].name))
  {
  }

  /** Entry `j` opens a message of its own: it is in no bundle, or no earlier
      entry is in its bundle. */
  predicate IsTop(es: seq<Entry>, j: nat)
    requires j < |es|
  {
    es[j].Name().None? || forall i :: 0 <= i < j ==> es[i].Name() != es[j].Name()
  }

  /** Which positions a list of positions selects: the entries with a
      message of their own, or only the bundle heads among them. */
  datatype Selector = Top | Head

  predicate Selected(es: seq<Entry>, sel: Selector, j: nat)
    requires j < |es|
  {
    match sel
    case Top => IsTop(es, j)
    case Head => IsTop(es, j) && es[j].Name().Some?
  }

  /** The selected positions below `n`, in increasing order. */
  function Indices(es: seq<Entry>, sel: Selector, n: nat): (r: seq<nat>)
    requires n <= |es|
    ensures forall k :: 0 <= k < |r| ==> r[k] < n && Selected(es, sel, r[k])
    ensures forall k, l :: 0 <= k < l < |r| ==> r[k] < r[l]
    ensures |r| <= n
  {
    if n == 0 then []
    else Indices(es, sel, n - 1) + (if Selected(es, sel, n - 1) then [n - 1] else [])
  }

  /** Every selected position below `n` is listed. */
  lemma {:induction false} IndicesComplete(es: seq<Entry>, sel: Selector, n: nat, j: nat)
    requires j < n <= |es| && Selected(es, sel, j)
    ensures j in Indices(es, sel, n)
    decreases n
  {
    if j < n - 1 {
      IndicesComplete(es, sel, n - 1, j);
    }
  }

  /** The list below `m` is a prefix of the list below `n`. */
  lemma {:induction false} IndicesPrefix(es: seq<Entry>, sel: Selector, m: nat, n: nat)
    requires m <= n <= |es|
    ensures |Indices(es, sel, m)| <= |Indices(es, sel, n)|
    ensures Indices(es, sel, m) == Indices(es, sel, n)[..|Indices(es, sel, m)|]
    decreases n - m
  {
    if m < n {
      IndicesPrefix(es, sel, m, n - 1);
      var a, b := Indices(es, sel, m), Indices(es, sel, n - 1);
      assert Indices(es, sel, n)[..|b|] == b;
      assert b[..|a|] == a;
    }
  }

  /** A selected position sits at the place given by the number of selected
      positions before it. */
  lemma IndicesPos(es: seq<Entry>, sel: Selector, n: nat, i: nat)
    requires i < n <= |es| && Selected(es, sel, i)
    ensures |Indices(es, sel, i)| < |Indices(es, sel, n)|
    ensures Indices(es, sel, n)[|Indices(es, sel, i)|] == i
  {
    IndicesPrefix(es, sel, i + 1, n);
    assert Indices(es, sel, i + 1) == Indices(es, sel, i) + [i];
  }

  /** Conversely, the element at place `k` has `k` selected positions
      before it. */
  lemma IndicesInverse(es: seq<Entry>, sel: Selector, n: nat, k: nat)
    requires n <= |es| && k < |Indices(es, sel, n)|
    ensures |Indices(es, sel, Indices(es, sel, n)[k])| == k
  {
    IndicesPos(es, sel, n, Indices(es, sel, n)[k]);
  }

  /** The first entry of the bundle of entry `j`, searching from `i`. */
  function FirstSame(es: seq<Entry>, j: nat, i: nat): (h: nat)
    requires i <= j < |es|
    ensures i <= h <= j && es[h].Name() == es[j].Name()
    ensures forall l :: i <= l < h ==> es[l].Name() != es[j].Name()
    decreases j - i
  {
    if es[i].Name() == es[j].Name() then i else FirstSame(es, j, i + 1)
  }

  /** The head of the bundle of entry `j`. */
  function HeadOf(es: seq<Entry>, j: nat): nat
    requires j < |es|
  {
    FirstSame(es, j, 0)
  }

  /** The later members of the bundle of entry `i` among the first `n`
      entries. */
  function SameAfter(es: seq<Entry>, i: nat, n: nat): seq<Entry>
    requires i < n <= |es|
  {
    if n == i + 1 then []
    else SameAfter(es, i, n - 1) + (if es[n - 1].Name() == es[i].Name() then [es[n - 1]] else [])
  }

  /** The caption as read, when the read succeeds. */
  function CaptionOr(f: ParsedFile, env: Env): Option<string> {
    match ReadCaption(f, env)
    case Ok(c) => c
    case Err(_) => None
  }

  function DataOf(f: ParsedFile, env: Env): MsgData {
    MakeMsgData(f, env, CaptionOr(f, env))
  }

  /** The album item of a bundled media entry. */
  function ItemOf(e: Entry, env: Env): InputMedia
    requires e.file.kind != Text
  {
    ItemFor(e.file, e.Fine(), DataOf(e.file, env))
  }

  /** The album items of some entries; text files add none. */
  function Items(ms: seq<Entry>, env: Env): seq<InputMedia> {
    if ms == [] then []
    else
      var e := ms[|ms| - 1];
      Items(ms[..|ms| - 1], env) + (if e.file.kind == Text then [] else [ItemOf(e, env)])
  }

  /** The member copies of some entries, in bundle `name` at bundle-list
      position `group`. */
  function Copies(ms: seq<Entry>, name: string, group: nat): seq<MemberCopy> {
    seq(|ms|, k requires 0 <= k < |ms| => MemberCopy(ms[k].file, name, ms[k].Fine(), group))
  }

  /** The payload an entry gets when it opens a message: a text message, a
      media group of its own item, or the single-media payload. */
  function TopPayload(e: Entry, env: Env): Result<ChatModel, AssembleError> {
    if e.file.kind == Text then TextPayload(e.file, env)
    else if e.bm.Some? then Ok(NewSendMediaGroup(env.chatId, [ItemOf(e, env)], None, None, None))
    else SingleFor(e.file, env.chatId, DataOf(e.file, env))
  }

  /** The file object of an entry with payload `data`, at bundle-list
      position `group`, once the later members `same` of its bundle joined:
      a head collects their copies and, unless it is a text message, their
      album items after its own. */
  function MsgWith(e: Entry, env: Env, data: ChatModel, same: seq<Entry>, group: nat): Message {
    match e.bm
    case None => Message(e.file, None, data)
    case Some(b) =>
      var data' := if data.SendMediaGroup? then data.(media := data.media + Items(same, env)) else data;
      Message(e.file, Some(BundleHead(b.Name(), b.fine, Copies(same, b.Name(), group))), data')
  }

  /** Why the processing of entry `j` throws: its caption or text cannot be
      read, it has no payload of its own (a lone audio file), it is a media
      member of a bundle whose head is a text file, or it is a bundle member
      with a thumbnail in local mode. */
  predicate StepFails(es: seq<Entry>, env: Env, j: nat)
    requires j < |es|
  {
    var f := es[j].file;
    || ReadCaption(f, env).Err?
    || (IsTop(es, j) && TopPayload(es[j], env).Err?)
    || (!IsTop(es, j) && f.kind == Text && TextPayload(f, env).Err?)
    || (!IsTop(es, j) && f.kind != Text && es[HeadOf(es, j)].file.kind == Text)
    || (!IsTop(es, j) && env.mode == Local && f.thumb.Some?)
  }

  predicate NoFails(es: seq<Entry>, env: Env, n: nat)
    requires n <= |es|
  {
    forall j :: 0 <= j < n ==> !StepFails(es, env, j)
  }

  /** A failing step among the first `m` entries is one among the first `n`. */
  lemma FailsPersist(es: seq<Entry>, env: Env, m: nat, n: nat)
    requires m <= n <= |es| && !NoFails(es, env, m)
    ensures !NoFails(es, env, n)
  {
    var j :| 0 <= j < m && StepFails(es, env, j);
    assert j < n;
  }

  /** The file object of top-level entry `i` once the first `n` entries are
      processed. */
  function ExpMsg(es: seq<Entry>, env: Env, i: nat, n: nat): Message
    requires i < n <= |es| && IsTop(es, i) && !StepFails(es, env, i)
  {
    MsgWith(es[i], env, TopPayload(es[i], env).value, SameAfter(es, i, n), |Indices(es, Head, i)|)
  }

  /** `msgList` and `bundleList` after the first `n` entries, when none of
      them throws. */
  function ExpState(es: seq<Entry>, env: Env, n: nat): State
    requires n <= |es| && NoFails(es, env, n)
  {
    var top := Indices(es, Top, n);
    var heads := Indices(es, Head, n);
    State(seq(|top|, k requires 0 <= k < |top| => ExpMsg(es, env, top[k], n)),
          seq(|heads|, g requires 0 <= g < |heads| => |Indices(es, Top, heads[g])|))
  }

  /** A head's payload with its album items sorted by member index. */
  function SortMsg(m: Message): Message {
    if m.data.SendMediaGroup? then m.(data := m.data.(media := SortBy(m.data.media, MediaIdx))) else m
  }

  /** The list `createMessages` resolves to, when it does not throw. */
  function Final(es: seq<Entry>, env: Env): seq<Message>
    requires NoFails(es, env, |es|)
  {
    var top := Indices(es, Top, |es|);
    seq(|top|, k requires 0 <= k < |top| =>
      var m := ExpMsg(es, env, top[k], |es|);
      if m.head.Some? then SortMsg(m) else m)
  }
}
