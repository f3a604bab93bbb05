/** What the list `createMessages` resolves to looks like, read off the
    description of `AssemblySpec` through the theorem `AssembleExp`. */
module AssemblyFacts {
  import opened Wrappers
  import opened MediaTypes
  import opened ParseFiles
  import opened InputMediaModels
  import opened ChatModels
  import opened BundlePattern
  import opened Sorting
  import opened BuildMessages
  import opened AssemblySpec
  import opened AssemblyProofs
  import opened MessageText

  /** The files of some entries. */
  function FilesOf(ms: seq<Entry>): (r: seq<ParsedFile>)
    ensures |r| == |ms| && forall k :: 0 <= k < |ms| ==> r[k] == ms[k].file
  {
    seq(|ms|, k requires 0 <= k < |ms| => ms[k].file)
  }

  /** The later members of a bundle are exactly the later entries with the
      same bundle name. */
  lemma {:induction false} SameAfterMembers(es: seq<Entry>, i: nat, n: nat)
    requires i < n <= |es|
    ensures forall x :: x in SameAfter(es, i, n) ==> x.Name() == es[i].Name()
    ensures forall j :: i < j < n && es[j].Name() == es[i].Name() ==> es[j] in SameAfter(es, i, n)
    ensures |SameAfter(es, i, n)| < n - i
    decreases n
  {
    if n > i + 1 {
      SameAfterMembers(es, i, n - 1);
    }
  }

  /** The payload of a file with a message of its own is an album exactly
      when the file is a bundled media file, and a text message exactly when
      it is a text file. */
  lemma TopPayloadShape(e: Entry, env: Env)
    requires TopPayload(e, env).Ok?
    ensures TopPayload(e, env).value.SendMediaGroup? <==> e.bm.Some? && e.file.kind != Text
    ensures TopPayload(e, env).value.SendMessage? <==> e.file.kind == Text
  {
  }

  /** A file with a message of its own makes the whole call reject exactly
      when its text cannot be read or it is a lone audio file. */
  lemma TopPayloadFails(e: Entry, env: Env)
    ensures TopPayload(e, env).Err? <==>
              || (e.file.kind == Text && e.file.path !in env.contents)
              || (e.file.kind == Audio && e.bm.None?)
  {
  }

  /** The resolved list holds exactly the files that are in no bundle and
      the bundle heads, in input order; the later members of a bundle never
      appear in it. */
  lemma FinalFiles(es: seq<Entry>, env: Env)
    requires NoFails(es, env, |es|)
    ensures var r := Final(es, env);
            var top := Indices(es, Top, |es|);
            && |r| == |top|
            && (forall k :: 0 <= k < |r| ==> r[k].file == es[top[k]].file)
            && (forall k, l :: 0 <= k < l < |r| ==> top[k] < top[l])
            && (forall j :: 0 <= j < |es| ==> (j in top <==> IsTop(es, j)))
  {
    var top := Indices(es, Top, |es|);
    forall j | 0 <= j < |es| && IsTop(es, j)
      ensures j in top
    {
      IndicesComplete(es, Top, |es|, j);
    }
  }

  /** A bundle head's `bundleMembers` is the head followed by the later
      files of its bundle in input order, each copy carrying the head's
      position in `bundleList`; the head carries its bundle name and member
      index. */
  lemma FinalBundle(es: seq<Entry>, env: Env, k: nat)
    requires NoFails(es, env, |es|) && k < |Final(es, env)| && Final(es, env)[k].head.Some?
    ensures var h := Indices(es, Top, |es|)[k];
            var m := Final(es, env)[k];
            && es[h].bm.Some?
            && m.head.value.bundleName == es[h].bm.value.Name()
            && m.head.value.memberIndex == es[h].bm.value.fine
            && BundleMembers(m) == [es[h].file] + FilesOf(SameAfter(es, h, |es|))
  {
    var n := |es|;
    var h := Indices(es, Top, n)[k];
    var m := Final(es, env)[k];
    assert m.head == ExpMsg(es, env, h, n).head;
    assert BundleMembers(m) == [es[h].file] + FilesOf(SameAfter(es, h, n));
  }

  /** Each member copy in a head's record names, through `bundleList`, the
      position of its head in `msgList`. */
  lemma FinalBundleGroups(es: seq<Entry>, env: Env, k: nat)
    requires NoFails(es, env, |es|) && k < |Final(es, env)| && Final(es, env)[k].head.Some?
    ensures var bundleList := ExpState(es, env, |es|).heads;
            forall c :: c in Final(es, env)[k].head.value.members ==> c.group < |bundleList| && bundleList[c.group] == k
  {
    var n := |es|;
    var h := Indices(es, Top, n)[k];
    var m := Final(es, env)[k];
    assert m.head == ExpMsg(es, env, h, n).head;
    assert Selected(es, Head, h);
    var g := |Indices(es, Head, h)|;
    IndicesPos(es, Head, n, h);
    ExpStateHeads(es, env, n, g);
    IndicesInverse(es, Top, n, k);
  }

  /** A message with an album heads a bundle of media files, and on return
      its album is sorted by member index and holds exactly the head's item
      and the items of the later media files of its bundle. */
  lemma FinalAlbum(es: seq<Entry>, env: Env, k: nat)
    requires NoFails(es, env, |es|) && k < |Final(es, env)| && Final(es, env)[k].data.SendMediaGroup?
    ensures var h := Indices(es, Top, |es|)[k];
            var media := Final(es, env)[k].data.media;
            && es[h].bm.Some? && es[h].file.kind != Text
            && SortedBy(media, MediaIdx)
            && multiset(media) == multiset([ItemOf(es[h], env)] + Items(SameAfter(es, h, |es|), env))
  {
    var n := |es|;
    var h := Indices(es, Top, n)[k];
    var m := ExpMsg(es, env, h, n);
    TopPayloadShape(es[h], env);
    assert m.data.SendMediaGroup?;
    var media := m.data.media;
    assert media == [ItemOf(es[h], env)] + Items(SameAfter(es, h, n), env);
    SortBySorted(media, MediaIdx);
    SortByPermutation(media, MediaIdx);
  }

  /** The member index of an album item is that of its file. */
  lemma ItemIndex(e: Entry, env: Env)
    requires e.file.kind != Text
    ensures MediaIdx(ItemOf(e, env)) == e.Fine()
  {
  }

  /** The caption of a file: the contents of its caption file rendered by
      the caption file's extension, or none without a caption file. */
  function CaptionOf(f: ParsedFile, env: Env): Option<string>
    requires f.caption.Some? ==> f.caption.value.path in env.contents
  {
    match f.caption
    case None => None
    case Some(c) => Some(Rendered(c.ext, env.contents[c.path]))
  }

  /** The text of the payload a file with a message of its own gets, when
      its caption file can be read. */
  lemma TopPayloadText(e: Entry, env: Env)
    requires TopPayload(e, env).Ok? && ReadCaption(e.file, env).Ok?
    ensures var d := TopPayload(e, env).value;
            var f := e.file;
            && (f.caption.Some? ==> f.caption.value.path in env.contents)
            && (f.kind == Text ==>
                  && f.path in env.contents && d.SendMessage?
                  && d.text == Some(Rendered(f.ext, env.contents[f.path]))
                  && d.parseMode == GetParseMode(Some(f.ext)))
            && (f.kind != Text && !d.SendMediaGroup? ==>
                  && !d.SendMessage?
                  && d.caption == CaptionOf(f, env) && d.parseMode == CaptionMode(f))
  {
    ReadCaptionValue(e.file, env);
    if e.file.kind == Text {
      TextPayloadValue(e.file, env);
    }
  }

  /** The `k`-th returned file object belongs to the `k`-th entry with a
      message of its own, and unless it is an album its payload is that
      entry's. */
  lemma FinalAt(es: seq<Entry>, env: Env, k: nat)
    requires NoFails(es, env, |es|) && k < |Final(es, env)|
    ensures var h := Indices(es, Top, |es|)[k];
            var m := Final(es, env)[k];
            && h < |es| && IsTop(es, h) && !StepFails(es, env, h)
            && m.file == es[h].file
            && (!m.data.SendMediaGroup? ==> m.data == TopPayload(es[h], env).value)
  {
    var h := Indices(es, Top, |es|)[k];
    assert Selected(es, Top, h);
  }

  /** The text an entry with a message of its own carries, once no step
      throws. */
  lemma FinalText(es: seq<Entry>, env: Env, k: nat)
    requires NoFails(es, env, |es|) && k < |Final(es, env)|
    ensures var m := Final(es, env)[k];
            var f := m.file;
            && (f.caption.Some? ==> f.caption.value.path in env.contents)
            && (f.kind == Text ==>
                  && f.path in env.contents && m.data.SendMessage?
                  && m.data.text == Some(Rendered(f.ext, env.contents[f.path]))
                  && m.data.parseMode == GetParseMode(Some(f.ext)))
            && (f.kind != Text && !m.data.SendMediaGroup? ==>
                  && !m.data.SendMessage?
                  && m.data.caption == CaptionOf(f, env) && m.data.parseMode == CaptionMode(f))
            && (m.data.SendMediaGroup? ==>
                  exists it :: it in m.data.media && it.caption == CaptionOf(f, env) && it.parseMode == CaptionMode(f))
  {
    FinalAt(es, env, k);
    var e := es[Indices(es, Top, |es|)[k]];
    var m := Final(es, env)[k];
    TopPayloadText(e, env);
    if m.data.SendMediaGroup? {
      FinalAlbumHead(es, env, k);
    }
  }

  /** An album holds the item of its head, which carries the head's caption
      and parse mode. */
  lemma FinalAlbumHead(es: seq<Entry>, env: Env, k: nat)
    requires NoFails(es, env, |es|) && k < |Final(es, env)| && Final(es, env)[k].data.SendMediaGroup?
    ensures var m := Final(es, env)[k];
            var f := m.file;
            && (f.caption.Some? ==> f.caption.value.path in env.contents)
            && exists it :: it in m.data.media && it.caption == CaptionOf(f, env) && it.parseMode == CaptionMode(f)
  {
    FinalAt(es, env, k);
    var h := Indices(es, Top, |es|)[k];
    var media := Final(es, env)[k].data.media;
    FinalAlbum(es, env, k);
    var it := ItemOf(es[h], env);
    var rest := Items(SameAfter(es, h, |es|), env);
    assert it in multiset([it] + rest);
    assert it in media;
    ItemCaption(es[h], env);
  }

  /** The album item of a file carries its caption and parse mode. */
  lemma ItemCaption(e: Entry, env: Env)
    requires e.file.kind != Text && ReadCaption(e.file, env).Ok?
    ensures e.file.caption.Some? ==> e.file.caption.value.path in env.contents
    ensures ItemOf(e, env).caption == CaptionOf(e.file, env)
    ensures ItemOf(e, env).parseMode == CaptionMode(e.file)
  {
    ReadCaptionValue(e.file, env);
  }

  /** On return, every file with a message of its own had its caption file
      read; a text file's message is its contents rendered by its own
      extension, under that extension's parse mode; a single media payload
      carries the file's caption and the caption file's parse mode; and an
      album holds an item for the head with that caption and parse mode. */
  lemma AssembledText(files: seq<ParsedFile>, env: Env, k: nat)
    requires Assemble(files, env).Ok? && k < |Assemble(files, env).value|
    ensures var m := Assemble(files, env).value[k];
            var f := m.file;
            && (f.caption.Some? ==> f.caption.value.path in env.contents)
            && (f.kind == Text ==>
                  && f.path in env.contents && m.data.SendMessage?
                  && m.data.text == Some(Rendered(f.ext, env.contents[f.path]))
                  && m.data.parseMode == GetParseMode(Some(f.ext)))
            && (f.kind != Text && !m.data.SendMediaGroup? ==>
                  && !m.data.SendMessage?
                  && m.data.caption == CaptionOf(f, env) && m.data.parseMode == CaptionMode(f))
            && (m.data.SendMediaGroup? ==>
                  exists it :: it in m.data.media && it.caption == CaptionOf(f, env) && it.parseMode == CaptionMode(f))
  {
    AssembleExp(files, env);
    FinalText(Entries(files), env, k);
  }
}
