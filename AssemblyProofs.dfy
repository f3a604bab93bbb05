/** `createMessages` computes the description of `AssemblySpec`: it rejects
    exactly when some file's processing throws or some bundle is headed by
    a text file, and otherwise resolves to `Final`. */
module AssemblyProofs {
  import opened Wrappers
  import opened MediaTypes
  import opened ParseFiles
  import opened InputMediaModels
  import opened ChatModels
  import opened BundlePattern
  import opened Sorting
  import opened BuildMessages
  import opened AssemblySpec

  /** Every bundle-list entry of the described state points at the message
      of the corresponding head, which carries that head's bundle name. */
  lemma ExpStateHeads(es: seq<Entry>, env: Env, n: nat, g: nat)
    requires n <= |es| && NoFails(es, env, n) && g < |Indices(es, Head, n)|
    ensures var st := ExpState(es, env, n);
            var h := Indices(es, Head, n)[g];
            g < |st.heads| && st.heads[g] < |st.msgs| && st.msgs[st.heads[g]] == ExpMsg(es, env, h, n)
            && HeadName(st, g) == es[h].Name()
  {
    var h := Indices(es, Head, n)[g];
    assert Selected(es, Head, h);
    IndicesPos(es, Top, n, h);
  }

  lemma ExpStateValid(es: seq<Entry>, env: Env, n: nat)
    requires n <= |es| && NoFails(es, env, n)
    ensures Valid(ExpState(es, env, n))
  {
    forall g | 0 <= g < |Indices(es, Head, n)| {
      ExpStateHeads(es, env, n, g);
    }
  }

  /** The head of a bundle member that does not open a message comes
      earlier and is a head. */
  lemma HeadOfMember(es: seq<Entry>, j: nat)
    requires j < |es| && !IsTop(es, j)
    ensures HeadOf(es, j) < j && Selected(es, Head, HeadOf(es, j))
    ensures es[HeadOf(es, j)].Name() == es[j].Name()
  {
    var i :| 0 <= i < j && es[i].Name() == es[j].Name();
    assert HeadOf(es, j) <= i;
  }

  /** A head is the head of every entry of its bundle. */
  lemma HeadUnique(es: seq<Entry>, i: nat, j: nat)
    requires i < |es| && j < |es| && Selected(es, Head, i) && es[i].Name() == es[j].Name()
    ensures HeadOf(es, j) == i
  {
    var h := HeadOf(es, j);
    if h < i {
      assert false;
    } else if h > i {
      assert false;
    }
  }

  /** The bundle-list search finds nothing for a head, and finds the
      position of the head of its bundle for any other member. */
  lemma FindGroupExp(es: seq<Entry>, env: Env, n: nat)
    requires n < |es| && NoFails(es, env, n) && es[n].Name().Some?
    ensures IsTop(es, n) ==> FindGroup(ExpState(es, env, n), es[n].Name().value, 0).None?
    ensures !IsTop(es, n) ==> FindGroup(ExpState(es, env, n), es[n].Name().value, 0)
                              == Some(|Indices(es, Head, HeadOf(es, n))|)
  {
    var st := ExpState(es, env, n);
    var r := FindGroup(st, es[n].Name().value, 0);
    if IsTop(es, n) {
      if r.Some? {
        ExpStateHeads(es, env, n, r.value);
        assert false;
      }
    } else {
      var h0 := HeadOf(es, n);
      HeadOfMember(es, n);
      var g0 := |Indices(es, Head, h0)|;
      IndicesPos(es, Head, n, h0);
      ExpStateHeads(es, env, n, g0);
      if r.None? {
        assert false;
      } else if r.value < g0 {
        ExpStateHeads(es, env, n, r.value);
        assert false;
      } else if r.value > g0 {
        assert false;
      }
    }
  }

  /** A message whose bundle the new entry is not in does not change. */
  lemma ExpMsgStable(es: seq<Entry>, env: Env, i: nat, n: nat)
    requires i < n < |es| && IsTop(es, i) && !StepFails(es, env, i)
    requires es[i].Name().None? || es[n].Name() != es[i].Name()
    ensures ExpMsg(es, env, i, n + 1) == ExpMsg(es, env, i, n)
  {
    if es[i].bm.Some? {
      assert SameAfter(es, i, n + 1) == SameAfter(es, i, n);
    }
  }

  /** A message just opened has no members and only its own payload. */
  lemma ExpMsgNew(es: seq<Entry>, env: Env, n: nat)
    requires n < |es| && IsTop(es, n) && !StepFails(es, env, n)
    ensures var m := ExpMsg(es, env, n, n + 1);
            && m.file == es[n].file
            && m.data == TopPayload(es[n], env).value
            && m.head == (match es[n].bm
                          case None => None
                          case Some(b) => Some(BundleHead(b.Name(), b.fine, [])))
  {
    var data := TopPayload(es[n], env).value;
    if es[n].bm.Some? {
      assert Copies([], es[n].bm.value.Name(), |Indices(es, Head, n)|) == [];
    }
    if data.SendMediaGroup? {
      assert data.(media := data.media + []) == data;
    }
  }

  /** One more member adds its copy and, to a media group, its item. */
  lemma MsgWithSnoc(e: Entry, env: Env, data: ChatModel, same: seq<Entry>, x: Entry, group: nat)
    requires e.bm.Some?
    ensures var m := MsgWith(e, env, data, same, group);
            var m' := MsgWith(e, env, data, same + [x], group);
            && m.head.Some?
            && m'.file == m.file
            && m'.head == Some(m.head.value.(members := m.head.value.members
                                   + [MemberCopy(x.file, e.bm.value.Name(), x.Fine(), group)]))
            && m'.data == (if m.data.SendMediaGroup? && x.file.kind != Text
                           then m.data.(media := m.data.media + [ItemOf(x, env)])
                           else m.data)
  {
    var name := e.bm.value.Name();
    assert (same + [x])[..|same|] == same;
    assert Copies(same + [x], name, group) == Copies(same, name, group) + [MemberCopy(x.file, name, x.Fine(), group)];
  }

  /** A member that does not open a message joins its head's message. */
  lemma ExpMsgGrow(es: seq<Entry>, env: Env, n: nat)
    requires n < |es| && !IsTop(es, n)
    requires !StepFails(es, env, HeadOf(es, n))
    ensures HeadOf(es, n) < n && Selected(es, Head, HeadOf(es, n)) && es[n].bm.Some?
    ensures ExpMsg(es, env, HeadOf(es, n), n).head.Some?
    ensures var h := HeadOf(es, n);
            ExpMsg(es, env, h, n + 1) == Join(ExpMsg(es, env, h, n), env, es[n], |Indices(es, Head, h)|)
  {
    var h := HeadOf(es, n);
    HeadOfMember(es, n);
    assert SameAfter(es, h, n + 1) == SameAfter(es, h, n) + [es[n]];
    MsgWithSnoc(es[h], env, TopPayload(es[h], env).value, SameAfter(es, h, n), es[n], |Indices(es, Head, h)|);
  }

  /** An entry that opens a message appends it to `msgList`, and a head
      also appends its position to `bundleList`. */
  lemma TopExtend(es: seq<Entry>, env: Env, n: nat)
    requires n < |es| && NoFails(es, env, n + 1) && IsTop(es, n)
    ensures NoFails(es, env, n) && Valid(ExpState(es, env, n)) && TopPayload(es[n], env).Ok?
    ensures AddTop(ExpState(es, env, n), es[n].file, es[n].bm, TopPayload(es[n], env).value)
            == ExpState(es, env, n + 1)
  {
    assert !StepFails(es, env, n);
    ExpStateValid(es, env, n);
    var st, st' := ExpState(es, env, n), ExpState(es, env, n + 1);
    var top := Indices(es, Top, n);
    var heads := Indices(es, Head, n);
    assert Indices(es, Top, n + 1) == top + [n];
    var msgs := st.msgs + [ExpMsg(es, env, n, n + 1)];
    forall k | 0 <= k < |top|
      ensures st'.msgs[k] == st.msgs[k]
    {
      ExpMsgStable(es, env, top[k], n);
    }
    assert st'.msgs == msgs;
    ExpMsgNew(es, env, n);
    if es[n].bm.Some? {
      assert Indices(es, Head, n + 1) == heads + [n];
      assert st'.heads == st.heads + [|st.msgs|];
    } else {
      assert Indices(es, Head, n + 1) == heads;
      assert st'.heads == st.heads;
    }
  }

  /** An entry that joins an earlier bundle changes only its head's message
      in `msgList`. */
  lemma MemberExtend(es: seq<Entry>, env: Env, n: nat)
    requires n < |es| && NoFails(es, env, n + 1) && !IsTop(es, n)
    ensures NoFails(es, env, n) && HeadOf(es, n) < n && Selected(es, Head, HeadOf(es, n))
    ensures var st := ExpState(es, env, n);
            var h := HeadOf(es, n);
            var g := |Indices(es, Head, h)|;
            var k := |Indices(es, Top, h)|;
            && g < |st.heads| && st.heads[g] == k && k < |st.msgs|
            && st.msgs[k] == ExpMsg(es, env, h, n)
            && ExpState(es, env, n + 1) == State(st.msgs[k := ExpMsg(es, env, h, n + 1)], st.heads)
  {
    var st, st' := ExpState(es, env, n), ExpState(es, env, n + 1);
    var h := HeadOf(es, n);
    HeadOfMember(es, n);
    var g := |Indices(es, Head, h)|;
    IndicesPos(es, Head, n, h);
    ExpStateHeads(es, env, n, g);
    var top := Indices(es, Top, n);
    IndicesPos(es, Top, n, h);
    var k := |Indices(es, Top, h)|;
    assert Indices(es, Top, n + 1) == top;
    assert Indices(es, Head, n + 1) == Indices(es, Head, n);
    forall k' | 0 <= k' < |top| && k' != k
      ensures st'.msgs[k'] == st.msgs[k']
    {
      if es[top[k']].Name().Some? && es[top[k']].Name() == es[n].Name() {
        HeadUnique(es, top[k'], n);
      }
      ExpMsgStable(es, env, top[k'], n);
    }
    assert st'.msgs == st.msgs[k := ExpMsg(es, env, h, n + 1)];
  }

  /** Processing an entry that opens a message throws exactly when its
      caption or payload fails, and otherwise gives the described state. */
  lemma StepTop(es: seq<Entry>, env: Env, n: nat)
    requires n < |es| && NoFails(es, env, n) && IsTop(es, n)
    requires es[n].bm == ParseBundleName(es[n].file.name)
    ensures Valid(ExpState(es, env, n))
    ensures Step(env, ExpState(es, env, n), es[n].file).Ok? <==> !StepFails(es, env, n)
    ensures Step(env, ExpState(es, env, n), es[n].file).Ok? ==>
              NoFails(es, env, n + 1) && Step(env, ExpState(es, env, n), es[n].file).value == ExpState(es, env, n + 1)
  {
    ExpStateValid(es, env, n);
    if es[n].bm.Some? {
      FindGroupExp(es, env, n);
    }
    if !StepFails(es, env, n) {
      assert NoFails(es, env, n + 1);
      TopExtend(es, env, n);
    }
  }

  /** A head's message has an album exactly when the head is not a text
      file. */
  lemma ExpMsgAlbum(es: seq<Entry>, env: Env, i: nat, n: nat)
    requires i < n <= |es| && Selected(es, Head, i) && !StepFails(es, env, i)
    ensures ExpMsg(es, env, i, n).head.Some?
    ensures ExpMsg(es, env, i, n).data.SendMediaGroup? <==> es[i].file.kind != Text
  {
  }

  /** A head's message once member `x` joined at bundle-list position
      `group`: its copy is appended to the members and, when it is a media
      file and the payload is a media group, its item to the album. */
  function Join(m: Message, env: Env, x: Entry, group: nat): Message
    requires m.head.Some? && x.bm.Some?
  {
    var copy := MemberCopy(x.file, x.bm.value.Name(), x.Fine(), group);
    var data := if m.data.SendMediaGroup? && x.file.kind != Text then m.data.(media := m.data.media + [ItemOf(x, env)])
                else m.data;
    m.(head := Some(m.head.value.(members := m.head.value.members + [copy])), data := data)
  }

  /** What one iteration does to any state for a file whose bundle is found
      at position `g` of `bundleList`. */
  lemma StepJoin(env: Env, st: State, x: Entry, g: nat)
    requires Valid(st) && x.bm.Some? && x.bm == ParseBundleName(x.file.name)
    requires FindGroup(st, x.bm.value.Name(), 0) == Some(g)
    ensures var m := st.msgs[st.heads[g]];
            Step(env, st, x.file).Ok? <==>
              && ReadCaption(x.file, env).Ok?
              && (x.file.kind == Text ==> TextPayload(x.file, env).Ok?)
              && (x.file.kind != Text ==> m.data.SendMediaGroup?)
              && !(env.mode == Local && x.file.thumb.Some?)
    ensures Step(env, st, x.file).Ok? ==>
              Step(env, st, x.file).value == State(st.msgs[st.heads[g] := Join(st.msgs[st.heads[g]], env, x, g)], st.heads)
  {
    var f := x.file;
    if ReadCaption(f, env).Ok? {
      var d := MakeMsgData(f, env, ReadCaption(f, env).value);
      assert d == DataOf(f, env);
      var k := st.heads[g];
      var m := st.msgs[k];
      if f.kind != Text && m.data.SendMediaGroup? {
        var m1 := m.(data := m.data.(media := m.data.media + [ItemFor(f, x.Fine(), d)]));
        var st1 := State(st.msgs[k := m1], st.heads);
        assert PushItem(st, g, ItemFor(f, x.Fine(), d)) == Ok(st1);
        assert st1.msgs[k := Join(m, env, x, g)] == st.msgs[k := Join(m, env, x, g)];
      }
    }
  }

  /** No failing step among the first `n` entries nor at entry `n`. */
  lemma NoFailsGrow(es: seq<Entry>, env: Env, n: nat)
    requires n < |es| && NoFails(es, env, n) && !StepFails(es, env, n)
    ensures NoFails(es, env, n + 1)
  {
  }

  /** Processing an entry that joins an earlier bundle throws exactly when
      its caption or text fails, its head's payload has no album, or it has
      a thumbnail in local mode. */
  lemma StepMemberOk(es: seq<Entry>, env: Env, n: nat)
    requires n < |es| && NoFails(es, env, n) && !IsTop(es, n)
    requires es[n].bm == ParseBundleName(es[n].file.name)
    ensures Valid(ExpState(es, env, n))
    ensures Step(env, ExpState(es, env, n), es[n].file).Ok? <==> !StepFails(es, env, n)
  {
    ExpStateValid(es, env, n);
    FindGroupExp(es, env, n);
    HeadOfMember(es, n);
    var h := HeadOf(es, n);
    var g := |Indices(es, Head, h)|;
    IndicesPos(es, Head, n, h);
    ExpStateHeads(es, env, n, g);
    ExpMsgAlbum(es, env, h, n);
    StepJoin(env, ExpState(es, env, n), es[n], g);
  }

  /** Otherwise it gives the described state. */
  lemma StepMemberValue(es: seq<Entry>, env: Env, n: nat)
    requires n < |es| && NoFails(es, env, n) && !StepFails(es, env, n) && !IsTop(es, n)
    requires es[n].bm == ParseBundleName(es[n].file.name)
    ensures NoFails(es, env, n + 1) && Valid(ExpState(es, env, n))
    ensures Step(env, ExpState(es, env, n), es[n].file).Ok? ==>
              Step(env, ExpState(es, env, n), es[n].file).value == ExpState(es, env, n + 1)
  {
    NoFailsGrow(es, env, n);
    MemberExtend(es, env, n);
    ExpStateValid(es, env, n);
    FindGroupExp(es, env, n);
    ExpMsgGrow(es, env, n);
    var h := HeadOf(es, n);
    var g := |Indices(es, Head, h)|;
    StepJoin(env, ExpState(es, env, n), es[n], g);
  }

  /** Processing an entry that joins an earlier bundle throws exactly when
      its own step fails, and otherwise gives the described state. */
  lemma StepMember(es: seq<Entry>, env: Env, n: nat)
    requires n < |es| && NoFails(es, env, n) && !IsTop(es, n)
    requires es[n].bm == ParseBundleName(es[n].file.name)
    ensures Valid(ExpState(es, env, n))
    ensures Step(env, ExpState(es, env, n), es[n].file).Ok? <==> !StepFails(es, env, n)
    ensures Step(env, ExpState(es, env, n), es[n].file).Ok? ==>
              NoFails(es, env, n + 1) && Step(env, ExpState(es, env, n), es[n].file).value == ExpState(es, env, n + 1)
  {
    StepMemberOk(es, env, n);
    if !StepFails(es, env, n) {
      StepMemberValue(es, env, n);
    }
  }

  /** One more file of the walk, from the described state. */
  lemma RunStepExp(files: seq<ParsedFile>, env: Env, n: nat)
    requires 0 < n <= |files| && NoFails(Entries(files), env, n - 1)
    requires Run(files, env, n - 1).Ok? && Run(files, env, n - 1).value == ExpState(Entries(files), env, n - 1)
    ensures RunDescribed(files, env, n)
  {
    var es, i := Entries(files), n - 1;
    EntriesAt(files, i);
    RunOkStep(files, env, n);
    var r := Step(env, ExpState(es, env, i), es[i].file);
    assert Run(files, env, n) == r;
    if IsTop(es, i) {
      StepTop(es, env, i);
    } else {
      StepMember(es, env, i);
    }
    DescribedStep(es, env, i, r);
  }

  /** One more file of the walk after a throw: the walk still throws, and a
      failing step remains among the files walked. */
  lemma RunStepErr(files: seq<ParsedFile>, env: Env, n: nat)
    requires 0 < n <= |files| && !NoFails(Entries(files), env, n - 1) && Run(files, env, n - 1).Err?
    ensures Run(files, env, n).Err? && !NoFails(Entries(files), env, n)
  {
    RunErrSticks(files, env, n - 1, n);
    FailsPersist(Entries(files), env, n - 1, n);
  }

  /** `r` throws exactly when one of the first `n` steps throws, and
      otherwise holds the described `msgList` and `bundleList`. */
  predicate Described(es: seq<Entry>, env: Env, n: nat, r: Result<State, AssembleError>)
    requires n <= |es|
  {
    && (r.Ok? <==> NoFails(es, env, n))
    && (r.Ok? ==> NoFails(es, env, n) && r.value == ExpState(es, env, n))
  }

  /** The walk over the first `n` files is described. */
  predicate RunDescribed(files: seq<ParsedFile>, env: Env, n: nat)
    requires n <= |files|
  {
    Described(Entries(files), env, n, Run(files, env, n))
  }

  /** A step that throws exactly when entry `i` fails, and otherwise gives
      the described state, gives the described outcome of `i + 1` entries. */
  lemma DescribedStep(es: seq<Entry>, env: Env, i: nat, r: Result<State, AssembleError>)
    requires i < |es| && NoFails(es, env, i)
    requires r.Ok? <==> !StepFails(es, env, i)
    requires r.Ok? ==> NoFails(es, env, i + 1) && r.value == ExpState(es, env, i + 1)
    ensures Described(es, env, i + 1, r)
  {
    if !r.Ok? {
      assert StepFails(es, env, i);
    }
  }

  /** The described walk over `n - 1` files extends to `n` files. */
  lemma RunStep(files: seq<ParsedFile>, env: Env, n: nat)
    requires 0 < n <= |files| && RunDescribed(files, env, n - 1)
    ensures RunDescribed(files, env, n)
  {
    if Run(files, env, n - 1).Ok? {
      RunStepExp(files, env, n);
    } else {
      RunStepErr(files, env, n);
    }
  }

  /** Before any file the walk holds the described empty state. */
  lemma RunEmpty(files: seq<ParsedFile>, env: Env, n: nat)
    requires n == 0
    ensures Run(files, env, n) == Ok(State([], [])) && RunDescribed(files, env, n)
  {
    ExpStateEmpty(Entries(files), env);
  }

  lemma ExpStateEmpty(es: seq<Entry>, env: Env)
    ensures NoFails(es, env, 0) && ExpState(es, env, 0) == State([], [])
  {
  }

  /** The walk over the first `n` files throws exactly when one of their
      steps throws, and otherwise builds the described `msgList` and
      `bundleList`. */
  lemma {:induction false} RunExp(files: seq<ParsedFile>, env: Env, n: nat)
    requires n <= |files|
    ensures RunDescribed(files, env, n)
    decreases n
  {
    if n == 0 {
      RunEmpty(files, env, n);
    } else {
      RunExp(files, env, n - 1);
      RunStep(files, env, n);
    }
  }

  /** The final loop, on any state whose bundle-list entries are distinct:
      it throws exactly when some remaining head has no album, and
      otherwise sorts the album of exactly the remaining heads. */
  lemma {:induction false} SortBundlesSpec(st: State, g: nat)
    requires Valid(st) && g <= |st.heads|
    requires forall a, b :: g <= a < b < |st.heads| ==> st.heads[a] != st.heads[b]
    ensures SortBundles(st, g).Ok? <==> forall a :: g <= a < |st.heads| ==> st.msgs[st.heads[a]].data.SendMediaGroup?
    ensures SortBundles(st, g).Ok? ==>
              var r := SortBundles(st, g).value;
              && |r| == |st.msgs|
              && forall k :: 0 <= k < |st.msgs| ==> r[k] == if k in st.heads[g..] then SortMsg(st.msgs[k]) else st.msgs[k]
    decreases |st.heads| - g
  {
    if g < |st.heads| {
      var k0 := st.heads[g];
      var m := st.msgs[k0];
      if m.data.SendMediaGroup? {
        var st' := State(st.msgs[k0 := SortMsg(m)], st.heads);
        SortBundlesSpec(st', g + 1);
        assert forall a :: g < a < |st.heads| ==> st'.msgs[st.heads[a]] == st.msgs[st.heads[a]];
        if SortBundles(st, g).Ok? {
          var r := SortBundles(st, g).value;
          forall k | 0 <= k < |st.msgs|
            ensures r[k] == if k in st.heads[g..] then SortMsg(st.msgs[k]) else st.msgs[k]
          {
            assert k in st.heads[g..] <==> k == k0 || k in st.heads[g + 1..];
          }
        }
      }
    }
  }

  /** In the described state the bundle list is increasing, and a message
      is on it exactly when it heads a bundle. */
  lemma ExpStateHeadSet(es: seq<Entry>, env: Env, n: nat)
    requires n <= |es| && NoFails(es, env, n)
    ensures var st := ExpState(es, env, n);
            forall a, b :: 0 <= a < b < |st.heads| ==> st.heads[a] < st.heads[b]
    ensures var st := ExpState(es, env, n);
            forall k :: 0 <= k < |st.msgs| ==> (st.msgs[k].head.Some? <==> k in st.heads)
  {
    var st := ExpState(es, env, n);
    var hs := Indices(es, Head, n);
    var top := Indices(es, Top, n);
    forall a, b | 0 <= a < b < |st.heads|
      ensures st.heads[a] < st.heads[b]
    {
      assert Selected(es, Head, hs[b]);
      IndicesPos(es, Top, hs[b], hs[a]);
    }
    forall k | 0 <= k < |st.msgs|
      ensures st.msgs[k].head.Some? <==> k in st.heads
    {
      var j := top[k];
      if st.msgs[k].head.Some? {
        assert Selected(es, Head, j);
        IndicesPos(es, Head, n, j);
        IndicesInverse(es, Top, n, k);
        assert st.heads[|Indices(es, Head, j)|] == k;
      }
      if k in st.heads {
        var g :| 0 <= g < |st.heads| && st.heads[g] == k;
        ExpStateHeads(es, env, n, g);
      }
    }
  }

  /** The heads of the described state have albums exactly when no bundle
      is headed by a text file. */
  lemma ExpHeadsAlbums(es: seq<Entry>, env: Env, n: nat)
    requires n <= |es| && NoFails(es, env, n)
    ensures Valid(ExpState(es, env, n))
    ensures var st := ExpState(es, env, n);
            (forall a :: 0 <= a < |st.heads| ==> st.msgs[st.heads[a]].data.SendMediaGroup?)
            <==> (forall j :: 0 <= j < n && Selected(es, Head, j) ==> es[j].file.kind != Text)
  {
    ExpStateValid(es, env, n);
    var st := ExpState(es, env, n);
    var hs := Indices(es, Head, n);
    forall a | 0 <= a < |st.heads|
      ensures st.msgs[st.heads[a]].data.SendMediaGroup? <==> es[hs[a]].file.kind != Text
    {
      ExpStateHeads(es, env, n, a);
      ExpMsgAlbum(es, env, hs[a], n);
    }
    forall j | 0 <= j < n && Selected(es, Head, j)
      ensures exists a :: 0 <= a < |hs| && hs[a] == j
    {
      IndicesComplete(es, Head, n, j);
    }
  }

  /** The final loop on the described state after all entries. */
  lemma SortExp(es: seq<Entry>, env: Env)
    requires NoFails(es, env, |es|)
    ensures Valid(ExpState(es, env, |es|))
    ensures SortBundles(ExpState(es, env, |es|), 0).Ok? <==>
              forall j :: 0 <= j < |es| && Selected(es, Head, j) ==> es[j].file.kind != Text
    ensures SortBundles(ExpState(es, env, |es|), 0).Ok? ==> SortBundles(ExpState(es, env, |es|), 0).value == Final(es, env)
  {
    var st := ExpState(es, env, |es|);
    ExpStateValid(es, env, |es|);
    ExpStateHeadSet(es, env, |es|);
    SortBundlesSpec(st, 0);
    ExpHeadsAlbums(es, env, |es|);
    assert st.heads[0..] == st.heads;
  }

  /** `createMessages` rejects exactly when the processing of some file
      throws or some bundle is headed by a text file, and otherwise
      resolves to the described list with every album sorted. */
  lemma AssembleExp(files: seq<ParsedFile>, env: Env)
    ensures Assemble(files, env).Ok? <==>
              && NoFails(Entries(files), env, |files|)
              && forall j :: 0 <= j < |files| && Selected(Entries(files), Head, j) ==> files[j].kind != Text
    ensures Assemble(files, env).Ok? ==>
              NoFails(Entries(files), env, |files|) && Assemble(files, env).value == Final(Entries(files), env)
  {
    var es := Entries(files);
    RunExp(files, env, |files|);
    if NoFails(es, env, |es|) {
      SortExp(es, env);
    }
  }
}
