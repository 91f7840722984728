/**
  The model input of a turn on its fields: what stripping leaves, what each placeholder of an
  earlier turn is filled with, and what each attachment of the current turn becomes.
 */
module InputReading {
  import opened Wrappers
  import opened Chat
  import opened ModelMessages
  import opened AttachmentMessages
  import opened AttachmentLifecycle
  import opened MessageReading
  import opened Blocks
  import Seqs

  // ---------------------------------------------------------------- stripping

  /** The mention of the first receipt that is no image; nothing when all are images. */
  predicate Mentions(sdk: Sdk, receipts: Receipts, content: string)
  {
    && (forall k :: 0 <= k < |receipts| && FirstWord(sdk, receipts, k) ==>
          content == if sdk.kind(receipts[k]) == TextKind then sdk.textMention(receipts[k]) else sdk.fileMention(receipts[k]))
    && ((forall k :: 0 <= k < |receipts| ==> sdk.kind(receipts[k]) == ImageKind) ==> content == "")
  }

  predicate FirstWord(sdk: Sdk, receipts: Receipts, k: int)
  {
    && 0 <= k < |receipts| && sdk.kind(receipts[k]) != ImageKind
    && forall j :: 0 <= j < k ==> sdk.kind(receipts[j]) == ImageKind
  }

  lemma {:induction false} MentionIs(sdk: Sdk, receipts: Receipts)
    ensures Mentions(sdk, receipts, Mention(sdk, receipts))
  {
    if receipts != [] {
      var rest := receipts[1..];
      MentionIs(sdk, rest);
      forall k | 0 <= k < |receipts| && FirstWord(sdk, receipts, k)
        ensures k > 0 ==> FirstWord(sdk, rest, k - 1)
      {
        if k > 0 {
          assert forall j :: 0 <= j < |rest| ==> rest[j] == receipts[j + 1];
        }
      }
      if forall k :: 0 <= k < |receipts| ==> sdk.kind(receipts[k]) == ImageKind {
        assert forall j :: 0 <= j < |rest| ==> rest[j] == receipts[j + 1];
      }
    }
  }

  /** A message of the running turn alone. */
  predicate Transient(m: Message) { m.Message? && m.marks.current && !m.marks.historical }

  /** What stripping leaves of one message. */
  predicate StripBlock(sdk: Sdk, m: Message, out: Messages)
  {
    if m.Message? && m.marks.historical
    then |out| == 1 && out[0].Message? && out[0] == m.(content := out[0].content, parts := [])
         && Mentions(sdk, Firsts(Recorded(sdk, m)), out[0].content)
    else out == if Transient(m) then [] else [m]
  }

  lemma StripOneIs(sdk: Sdk, m: Message)
    ensures StripBlock(sdk, m, StripOne(sdk, m))
  {
    hide ReceiptsOf, Recorded, Firsts, Mention, Mentions;
    RecordedIs(sdk, m);
    MentionIs(sdk, ReceiptsOf(sdk, m));
  }

  /**
    Stripping, message by message: a placeholder keeps its marks and receipts and loses its
    parts, its content becomes its mention; messages of the running turn go, others stay.
   */
  lemma {:induction false} StrippedByFields(sdk: Sdk, messages: Messages) returns (blocks: seq<Messages>)
    ensures |blocks| == |messages| && Strip(sdk, messages) == Seqs.Flatten(blocks)
    ensures forall i :: 0 <= i < |messages| ==> StripBlock(sdk, messages[i], blocks[i])
  {
    hide StripOne, StripBlock;
    if messages == [] {
      blocks := [];
    } else {
      var m := messages[|messages| - 1];
      blocks := StrippedByFields(sdk, messages[..|messages| - 1]);
      StripOneIs(sdk, m);
      Seqs.FlattenAppend(blocks, [StripOne(sdk, m)]);
      OneBlock(StripOne(sdk, m));
      blocks := blocks + [StripOne(sdk, m)];
    }
  }

  // ---------------------------------------------------------------- what the store gives

  /** The store gives exactly these bytes, all of them, and no more than `max`. */
  predicate Stores(reader: Reader, r: Receipt, max: int, data: Data)
  {
    reader.configured && reader.read(r, max + 1) == Some(ReadResult(data, true)) && |data| <= max
  }

  /** A verified image. */
  predicate Pictures(sdk: Sdk, reader: Reader, r: Receipt, data: Data)
  {
    r.sizeBytes <= sdk.imageMax && Stores(reader, r, sdk.imageMax, data) && data != [] && sdk.valid(r, data)
  }

  lemma ReadWholeIs(reader: Reader, r: Receipt, max: int, data: Data)
    ensures ReadWhole(reader, r, max) == Some(data) <==> Stores(reader, r, max, data)
  {}

  lemma ReadImageIs(sdk: Sdk, reader: Reader, r: Receipt, data: Data)
    ensures ReadImage(sdk, reader, r) == Some(data) <==> Pictures(sdk, reader, r, data)
  {
    hide ReadWhole;
    ReadWholeIs(reader, r, sdk.imageMax, data);
    if ReadWhole(reader, r, sdk.imageMax).Some? {
      ReadWholeIs(reader, r, sdk.imageMax, ReadWhole(reader, r, sdk.imageMax).value);
    }
  }

  // ---------------------------------------------------------------- earlier turns

  /** What the placeholder of `r` is filled with; `again`: `r` is also part of the current turn. */
  ghost predicate FilledAs(sdk: Sdk, reader: Reader, again: bool, r: Receipt, out: Message)
  {
    && out.Message? && out == Message(User, out.content, "", "", "", [], map[], out.marks, out.parts)
    && out.marks.historical && !out.marks.current && out.marks.receipts == Listed([r])
    && (if again || sdk.kind(r) != ImageKind
        then out.parts == [] && out.marks.id == Some(r.id) && out.marks.filename == Some(r.filename)
        else out.marks.id == None && out.marks.filename == None)
    && (again ==> out.content == "")
    && (!again && sdk.kind(r) == FileKind ==> out.content == sdk.fileMention(r))
    && (!again && sdk.kind(r) == TextKind ==> FilledText(sdk, reader, r, out.content))
    && (!again && sdk.kind(r) == ImageKind ==> out.content == "" && FilledParts(sdk, reader, r, out.parts))
  }

  /** A long text is mentioned; a short one stands inline with its verified bytes. */
  ghost predicate FilledText(sdk: Sdk, reader: Reader, r: Receipt, content: string)
  {
    if r.sizeBytes > sdk.inlineMax then content == sdk.textMention(r)
    else exists data: Data :: Stores(reader, r, sdk.inlineMax, data) && sdk.valid(r, data) && content == sdk.inline(r, data)
  }

  ghost predicate FilledParts(sdk: Sdk, reader: Reader, r: Receipt, parts: seq<Part>)
  {
    exists data: Data :: Pictures(sdk, reader, r, data) && parts == [TextPart(sdk.caption(r)), ImagePart(data, r.contentType)]
  }

  ghost predicate Fillable(sdk: Sdk, reader: Reader, again: bool, r: Receipt)
  {
    && (!again && sdk.kind(r) == TextKind && r.sizeBytes <= sdk.inlineMax ==>
          exists data: Data :: Stores(reader, r, sdk.inlineMax, data) && sdk.valid(r, data))
    && (!again && sdk.kind(r) == ImageKind ==> exists data: Data :: Pictures(sdk, reader, r, data))
  }

  lemma FillOneIs(sdk: Sdk, reader: Reader, current: set<string>, r: Receipt)
    ensures var filled := FillOne(sdk, reader, current, PlaceholderMessage(sdk, r), r);
            && (filled.Success? <==> Fillable(sdk, reader, r.id in current, r))
            && (filled.Success? ==> FilledAs(sdk, reader, r.id in current, r, filled.value))
  {
    hide ReadWhole, ReadImage, Stores, Pictures;
    if ReadWhole(reader, r, sdk.inlineMax).Some? {
      ReadWholeIs(reader, r, sdk.inlineMax, ReadWhole(reader, r, sdk.inlineMax).value);
    }
    if data: Data :| Stores(reader, r, sdk.inlineMax, data) && sdk.valid(r, data) {
      ReadWholeIs(reader, r, sdk.inlineMax, data);
    }
    if ReadImage(sdk, reader, r).Some? {
      ReadImageIs(sdk, reader, r, ReadImage(sdk, reader, r).value);
    }
    if data: Data :| Pictures(sdk, reader, r, data) {
      ReadImageIs(sdk, reader, r, data);
    }
  }

  ghost predicate AllFillable(sdk: Sdk, reader: Reader, current: set<string>, receipts: Receipts)
  {
    forall k :: 0 <= k < |receipts| ==> Fillable(sdk, reader, receipts[k].id in current, receipts[k])
  }

  ghost predicate AllFilled(sdk: Sdk, reader: Reader, current: set<string>, receipts: Receipts, out: Messages)
  {
    |out| == |receipts|
    && forall k :: 0 <= k < |receipts| ==> FilledAs(sdk, reader, receipts[k].id in current, receipts[k], out[k])
  }

  lemma {:induction false} PlaceholdersFill(sdk: Sdk, reader: Reader, current: set<string>, receipts: Receipts)
    requires Sound(sdk) && AllNormal(sdk, receipts)
    ensures var filled := Collect(Placeholders(sdk, receipts), Rehydrator(sdk, reader, current));
            && (filled.Success? <==> AllFillable(sdk, reader, current, receipts))
            && (filled.Success? ==> AllFilled(sdk, reader, current, receipts, filled.value))
  {
    hide Normal, Fillable, FilledAs, FillOne, RehydrateOne, PlaceholderMessage, Sound;
    if receipts != [] {
      var init, r := receipts[..|receipts| - 1], receipts[|receipts| - 1];
      PlaceholdersFill(sdk, reader, current, init);
      FilledPlaceholder(sdk, reader, current, r);
      FillOneIs(sdk, reader, current, r);
    }
  }

  lemma {:induction false} CollectConcat<T, U, E>(a: seq<T>, b: seq<T>, f: T -> Result<seq<U>, E>)
    ensures Collect(a + b, f).Success? <==> Collect(a, f).Success? && Collect(b, f).Success?
    ensures Collect(a + b, f).Success? ==> Collect(a + b, f).value == Collect(a, f).value + Collect(b, f).value
    decreases |b|
  {
    if b == [] {
      assert a + b == a;
    } else {
      assert (a + b)[..|a + b| - 1] == a + b[..|b| - 1];
      CollectConcat(a, b[..|b| - 1], f);
    }
  }

  lemma CollectSingle<T, U, E>(x: T, f: T -> Result<seq<U>, E>)
    ensures Collect([x], f).Success? <==> f(x).Success?
    ensures f(x).Success? ==> Collect([x], f).value == f(x).value
  {
    assert [x][..0] == [];
  }

  /** One message, stripped, expanded and filled. */
  function Refilled(sdk: Sdk, reader: Reader, current: set<string>, m: Message): Result<Messages, Blame>
  {
    match Expand(sdk, StripOne(sdk, m))
    case Failure(e) => Failure(e)
    case Success(expanded) => Collect(expanded, Rehydrator(sdk, reader, current))
  }

  ghost predicate HistoryFillable(sdk: Sdk, reader: Reader, current: set<string>, m: Message)
  {
    m.Message? && m.marks.historical ==>
      Readable(sdk, m) && AllFillable(sdk, reader, current, Firsts(Recorded(sdk, m)))
  }

  /** What a message of the original input becomes. */
  ghost predicate HistoryBlock(sdk: Sdk, reader: Reader, current: set<string>, m: Message, out: Messages)
  {
    if m.Message? && m.marks.historical then AllFilled(sdk, reader, current, Firsts(Recorded(sdk, m)), out)
    else out == if Transient(m) then [] else [m]
  }

  lemma StripReads(sdk: Sdk, m: Message)
    requires Placeholder(m)
    ensures |StripOne(sdk, m)| == 1 && Placeholder(StripOne(sdk, m)[0])
    ensures ReadReceipts(sdk, StripOne(sdk, m)[0]) == ReadReceipts(sdk, m)
  {}

  lemma RefilledIs(sdk: Sdk, reader: Reader, current: set<string>, m: Message)
    requires Sound(sdk)
    ensures Refilled(sdk, reader, current, m).Success? <==> HistoryFillable(sdk, reader, current, m)
    ensures Refilled(sdk, reader, current, m).Success? ==>
              HistoryBlock(sdk, reader, current, m, Refilled(sdk, reader, current, m).value)
  {
    hide AllFillable, AllFilled, Readable, Recorded, Firsts, ReadReceipts, Collect, Sound, Placeholders, AllNormal, DistinctIDs;
    if Placeholder(m) {
      StripReads(sdk, m);
      RecordedIs(sdk, m);
      CollectSingle(StripOne(sdk, m)[0], Expander(sdk));
      assert StripOne(sdk, m) == [StripOne(sdk, m)[0]];
      if Readable(sdk, m) {
        ReadIsCanonical(sdk, m);
        PlaceholdersFill(sdk, reader, current, Firsts(Recorded(sdk, m)));
      }
    } else if Transient(m) {
      assert Collect([], Expander(sdk)) == Success([]) by { NothingCollected(Expander(sdk)); }
      assert Collect([], Rehydrator(sdk, reader, current)) == Success([]) by { NothingCollected(Rehydrator(sdk, reader, current)); }
    } else {
      CollectSingle(m, Expander(sdk));
      CollectSingle(m, Rehydrator(sdk, reader, current));
    }
  }

  lemma NothingCollected(f: Message -> Result<Messages, Blame>)
    ensures Collect([], f) == Success([])
  {}

  /** The messages in front, stripped, expanded and filled. */
  function AllRefilled(sdk: Sdk, reader: Reader, current: set<string>, messages: Messages): Result<Messages, Blame>
  {
    match Expand(sdk, Strip(sdk, messages))
    case Failure(e) => Failure(e)
    case Success(expanded) => Collect(expanded, Rehydrator(sdk, reader, current))
  }

  ghost predicate AllHistory(sdk: Sdk, reader: Reader, current: set<string>, messages: Messages, blocks: seq<Messages>)
  {
    |blocks| == |messages|
    && forall i :: 0 <= i < |messages| ==> HistoryBlock(sdk, reader, current, messages[i], blocks[i])
  }

  ghost predicate HistoryOpen(sdk: Sdk, reader: Reader, current: set<string>, messages: Messages)
  {
    forall i :: 0 <= i < |messages| ==> HistoryFillable(sdk, reader, current, messages[i])
  }

  lemma RefilledStep(sdk: Sdk, reader: Reader, current: set<string>, messages: Messages, m: Message)
    ensures var all, init, one := AllRefilled(sdk, reader, current, messages + [m]),
                                  AllRefilled(sdk, reader, current, messages), Refilled(sdk, reader, current, m);
            && (all.Success? <==> init.Success? && one.Success?)
            && (all.Success? ==> all.value == init.value + one.value)
  {
    hide StripOne, Collect, Expander, Rehydrator;
    assert (messages + [m])[..|messages|] == messages;
    CollectConcat(Strip(sdk, messages), StripOne(sdk, m), Expander(sdk));
    if Expand(sdk, Strip(sdk, messages)).Success? && Expand(sdk, StripOne(sdk, m)).Success? {
      CollectConcat(Expand(sdk, Strip(sdk, messages)).value, Expand(sdk, StripOne(sdk, m)).value,
                    Rehydrator(sdk, reader, current));
    }
  }

  lemma {:induction false} HistoryByFields(sdk: Sdk, reader: Reader, current: set<string>, messages: Messages)
    returns (blocks: seq<Messages>)
    requires Sound(sdk)
    ensures AllRefilled(sdk, reader, current, messages).Success? <==> HistoryOpen(sdk, reader, current, messages)
    ensures AllRefilled(sdk, reader, current, messages).Success? ==>
              && AllHistory(sdk, reader, current, messages, blocks)
              && AllRefilled(sdk, reader, current, messages).value == Seqs.Flatten(blocks)
  {
    hide AllRefilled, Refilled, HistoryFillable, HistoryBlock, Sound;
    if messages == [] {
      blocks := [];
      NothingRefilled(sdk, reader, current);
    } else {
      var init, m := messages[..|messages| - 1], messages[|messages| - 1];
      assert messages == init + [m];
      blocks := HistoryByFields(sdk, reader, current, init);
      RefilledStep(sdk, reader, current, init, m);
      RefilledIs(sdk, reader, current, m);
      if AllRefilled(sdk, reader, current, messages).Success? {
        var block := Refilled(sdk, reader, current, m).value;
        Seqs.FlattenAppend(blocks, [block]);
        OneBlock(block);
        blocks := blocks + [block];
      }
    }
  }

  lemma NothingRefilled(sdk: Sdk, reader: Reader, current: set<string>)
    ensures AllRefilled(sdk, reader, current, []) == Success([])
  {}

  // ---------------------------------------------------------------- the current turn

  /** The message of one attachment of the turn. */
  predicate Presents(r: Receipt, content: string, parts: seq<Part>, receipts: ReceiptList, m: Message)
  {
    m == Message(User, content, "", "", "", [], map[], Marks(false, true, Some(r.id), Some(r.filename), receipts), parts)
  }

  /** What attachment `r` of the current turn becomes. */
  ghost predicate CurrentBlock(sdk: Sdk, reader: Reader, r: Receipt, out: Messages)
  {
    && (sdk.kind(r) == FileKind ==> |out| == 1 && Presents(r, sdk.fileMention(r), [], Absent, out[0]))
    && (sdk.kind(r) == ImageKind ==>
          |out| == 1 && out[0].Message? && Presents(r, "", out[0].parts, Listed([r]), out[0])
          && FilledParts(sdk, reader, r, out[0].parts))
    && (sdk.kind(r) == TextKind ==>
          if r.sizeBytes <= sdk.inlineMax && exists data: Data :: Gives(sdk, reader, r, data)
          then exists data: Data :: Gives(sdk, reader, r, data) && |out| == 1 && Presents(r, sdk.inline(r, data), [], Absent, out[0])
          else out == [])
  }

  /** The store gives the whole of a short text. */
  predicate Gives(sdk: Sdk, reader: Reader, r: Receipt, data: Data)
  {
    reader.read(r, sdk.inlineMax + 1) == Some(ReadResult(data, true)) && |data| <= sdk.inlineMax
  }

  /** An image must be verified; a short text must be answered for, and verified when it is whole. */
  ghost predicate Presentable(sdk: Sdk, reader: Reader, r: Receipt)
  {
    && (sdk.kind(r) == ImageKind ==> exists data: Data :: Pictures(sdk, reader, r, data))
    && (sdk.kind(r) == TextKind && r.sizeBytes <= sdk.inlineMax ==>
          reader.read(r, sdk.inlineMax + 1).Some? && forall data: Data :: Gives(sdk, reader, r, data) ==> sdk.valid(r, data))
  }

  lemma CurrentOneIs(sdk: Sdk, reader: Reader, excluded: set<string>, r: Receipt)
    requires r.id !in excluded
    ensures CurrentOne(sdk, reader, excluded, r).Success? <==> Presentable(sdk, reader, r)
    ensures CurrentOne(sdk, reader, excluded, r).Success? ==>
              CurrentBlock(sdk, reader, r, CurrentOne(sdk, reader, excluded, r).value)
  {
    hide ReadImage, Pictures;
    if ReadImage(sdk, reader, r).Some? {
      ReadImageIs(sdk, reader, r, ReadImage(sdk, reader, r).value);
    }
    if data: Data :| Pictures(sdk, reader, r, data) {
      ReadImageIs(sdk, reader, r, data);
    }
    if sdk.kind(r) == TextKind && reader.read(r, sdk.inlineMax + 1).Some? {
      var read := reader.read(r, sdk.inlineMax + 1).value;
      assert read.complete ==> read == ReadResult(read.content, true);
      assert read.complete && |read.content| <= sdk.inlineMax ==> Gives(sdk, reader, r, read.content);
    }
  }

  ghost predicate AllPresentable(sdk: Sdk, reader: Reader, receipts: Receipts)
  {
    forall k :: 0 <= k < |receipts| ==> Presentable(sdk, reader, receipts[k])
  }

  ghost predicate AllPresented(sdk: Sdk, reader: Reader, receipts: Receipts, blocks: seq<Messages>)
  {
    |blocks| == |receipts| && forall k :: 0 <= k < |receipts| ==> CurrentBlock(sdk, reader, receipts[k], blocks[k])
  }

  lemma {:induction false} CurrentByFields(sdk: Sdk, reader: Reader, excluded: set<string>, receipts: Receipts)
    returns (blocks: seq<Messages>)
    requires forall k :: 0 <= k < |receipts| ==> receipts[k].id !in excluded
    ensures Collect(receipts, CurrentMaker(sdk, reader, excluded)).Success? <==> AllPresentable(sdk, reader, receipts)
    ensures Collect(receipts, CurrentMaker(sdk, reader, excluded)).Success? ==>
              && AllPresented(sdk, reader, receipts, blocks)
              && Collect(receipts, CurrentMaker(sdk, reader, excluded)).value == Seqs.Flatten(blocks)
  {
    hide CurrentOne, Presentable, CurrentBlock;
    if receipts == [] {
      blocks := [];
    } else {
      var init, r := receipts[..|receipts| - 1], receipts[|receipts| - 1];
      assert receipts == init + [r];
      blocks := CurrentByFields(sdk, reader, excluded, init);
      CurrentOneIs(sdk, reader, excluded, r);
      if AllPresentable(sdk, reader, receipts) {
        var block := CurrentOne(sdk, reader, excluded, r).value;
        Seqs.FlattenAppend(blocks, [block]);
        OneBlock(block);
        blocks := blocks + [block];
      }
    }
  }

  // ---------------------------------------------------------------- the selection

  /** Taking up part `n` keeps the images within both caps. */
  predicate WithinCaps(sdk: Sdk, parts: Receipts, n: nat)
    requires n < |parts| && AllReadable(sdk, parts)
  {
    var before, normal := Normals(sdk, parts)[..n], Normals(sdk, parts)[n];
    var firsts := Firsts(Normals(sdk, parts)[..n + 1]);
    sdk.kind(normal) == ImageKind && !Seen(before, normal.id) ==>
      ImageCount(sdk, firsts) <= sdk.imageCountMax && ImageBytes(sdk, firsts) <= sdk.imageBytesMax
  }

  /** Every part is readable, and no new image exceeds a cap. */
  predicate Selectable(sdk: Sdk, parts: Receipts)
  {
    AllReadable(sdk, parts) && forall n :: 0 <= n < |parts| ==> WithinCaps(sdk, parts, n)
  }

  lemma SelectableStep(sdk: Sdk, parts: Receipts, r: Receipt)
    ensures Selectable(sdk, parts + [r]) <==>
              && Selectable(sdk, parts) && sdk.normalize(r).Some?
              && (AllReadable(sdk, parts + [r]) ==> WithinCaps(sdk, parts + [r], |parts|))
  {
    hide Firsts, Seen, ImageCount, ImageBytes;
    var all := parts + [r];
    if AllReadable(sdk, parts) && sdk.normalize(r).Some? {
      assert Normals(sdk, all)[..|parts|] == Normals(sdk, parts);
      forall n | 0 <= n < |parts|
        ensures WithinCaps(sdk, all, n) <==> WithinCaps(sdk, parts, n)
      {
        assert Normals(sdk, all)[..n] == Normals(sdk, parts)[..n];
        assert Normals(sdk, all)[..n + 1] == Normals(sdk, parts)[..n + 1];
      }
    }
    assert AllReadable(sdk, all) <==> AllReadable(sdk, parts) && sdk.normalize(r).Some? by {
      assert all[|parts|] == r;
      assert forall i :: 0 <= i < |parts| ==> all[i] == parts[i];
    }
  }

  ghost predicate Tallied(sdk: Sdk, parts: Receipts, t: Tally)
    requires AllReadable(sdk, parts)
  {
    var firsts := Firsts(Normals(sdk, parts));
    t.receipts == firsts && t.images == ImageCount(sdk, firsts) && t.bytes == ImageBytes(sdk, firsts)
  }

  lemma TallyOneIs(sdk: Sdk, parts: Receipts, before: Tally, r: Receipt)
    requires AllReadable(sdk, parts) && Tallied(sdk, parts, before) && sdk.normalize(r).Some?
    ensures AllReadable(sdk, parts + [r])
    ensures TallyOne(sdk, before, r).Success? <==> WithinCaps(sdk, parts + [r], |parts|)
    ensures TallyOne(sdk, before, r).Success? ==> Tallied(sdk, parts + [r], TallyOne(sdk, before, r).value)
  {
    hide Firsts, Seen, HasID, ImageCount, ImageBytes;
    var all, normals, normal := parts + [r], Normals(sdk, parts), sdk.normalize(r).value;
    NormalsSnoc(sdk, parts, r);
    FirstsSnoc(normals, normal);
    FirstsSeen(normals, normal.id);
    SeenIsHas(Firsts(normals), normal.id);
    CountsSnoc(sdk, Firsts(normals), normal);
    hide Normals, AllReadable;
  }

  lemma NormalsSnoc(sdk: Sdk, parts: Receipts, r: Receipt)
    requires AllReadable(sdk, parts) && sdk.normalize(r).Some?
    ensures AllReadable(sdk, parts + [r])
    ensures var normals := Normals(sdk, parts + [r]);
            && normals == Normals(sdk, parts) + [sdk.normalize(r).value]
            && normals[..|parts|] == Normals(sdk, parts) && normals[..|parts| + 1] == normals
  {
    assert forall i :: 0 <= i < |parts| ==> (parts + [r])[i] == parts[i];
  }

  lemma CountsSnoc(sdk: Sdk, receipts: Receipts, r: Receipt)
    ensures ImageCount(sdk, receipts + [r]) == ImageCount(sdk, receipts) + (if sdk.kind(r).ImageKind? then 1 else 0)
    ensures ImageBytes(sdk, receipts + [r]) == ImageBytes(sdk, receipts) + (if sdk.kind(r).ImageKind? then r.sizeBytes else 0)
  {
    assert (receipts + [r])[..|receipts|] == receipts;
  }

  lemma {:induction false} TallyByFields(sdk: Sdk, parts: Receipts)
    ensures TallyAll(sdk, parts).Success? <==> Selectable(sdk, parts)
    ensures TallyAll(sdk, parts).Success? ==> Tallied(sdk, parts, TallyAll(sdk, parts).value)
  {
    hide TallyOne, Tallied, WithinCaps, AllReadable;
    if parts == [] {
      NothingTallied(sdk);
    } else {
      var init, r := parts[..|parts| - 1], parts[|parts| - 1];
      assert parts == init + [r];
      TallyByFields(sdk, init);
      SelectableStep(sdk, init, r);
      if Selectable(sdk, init) {
        if sdk.normalize(r).Some? {
          TallyOneIs(sdk, init, TallyAll(sdk, init).value, r);
        } else {
          assert TallyOne(sdk, TallyAll(sdk, init).value, r).Failure? by { NotTallied(sdk, TallyAll(sdk, init).value, r); }
        }
      }
    }
  }

  lemma NotTallied(sdk: Sdk, before: Tally, r: Receipt)
    requires sdk.normalize(r).None?
    ensures TallyOne(sdk, before, r).Failure?
  {}

  lemma NothingTallied(sdk: Sdk)
    ensures Selectable(sdk, []) && Tallied(sdk, [], Tally([], 0, 0))
  {}

  // ---------------------------------------------------------------- the model input

  /** The receipts of the turn: the first of each ID, in normal form. */
  function TurnReceipts(sdk: Sdk, turn: Turn): Receipts
  {
    if AllReadable(sdk, turn.parts) then Firsts(Normals(sdk, turn.parts)) else []
  }

  /** A receipt with this ID is part of the turn. */
  function TurnIDs(receipts: Receipts): set<string>
  {
    set i | 0 <= i < |receipts| :: receipts[i].id
  }

  /** Every placeholder, every part of the turn and every attachment can be read. */
  ghost predicate Buildable(sdk: Sdk, turn: Turn, messages: Messages)
  {
    var receipts := TurnReceipts(sdk, turn);
    && Selectable(sdk, turn.parts) && HistoryOpen(sdk, turn.reader, TurnIDs(receipts), messages)
    && (receipts == [] || turn.reader.configured) && AllPresentable(sdk, turn.reader, receipts)
  }

  ghost predicate Built(sdk: Sdk, turn: Turn, messages: Messages, history: seq<Messages>, current: seq<Messages>)
  {
    var receipts := TurnReceipts(sdk, turn);
    AllHistory(sdk, turn.reader, TurnIDs(receipts), messages, history) && AllPresented(sdk, turn.reader, receipts, current)
  }

  lemma RehydratedIs(sdk: Sdk, turn: Turn, messages: Messages)
    requires Selectable(sdk, turn.parts)
    ensures var receipts := TurnReceipts(sdk, turn);
            var ids := TurnIDs(receipts);
            && ReceiptsForModel(sdk, turn.parts) == Success(receipts) && IDs(receipts) == ids
            && (Expand(sdk, Strip(sdk, messages)).Success? ==>
                  Rehydrated(sdk, turn, messages) == Filled(sdk, turn, receipts, Expand(sdk, Strip(sdk, messages)).value))
            && (Expand(sdk, Strip(sdk, messages)).Failure? ==> Rehydrated(sdk, turn, messages).Failure?)
  {
    hide TallyAll, Strip, Expand, Selectable, Filled, Firsts, AllReadable, Normals;
    TallyByFields(sdk, turn.parts);
    SelectableReads(sdk, turn.parts);
  }

  lemma SelectableReads(sdk: Sdk, parts: Receipts)
    requires Selectable(sdk, parts)
    ensures AllReadable(sdk, parts)
  {}

  lemma NotInHistory(sdk: Sdk, receipts: Receipts, messages: Messages)
    ensures forall k :: 0 <= k < |receipts| ==> receipts[k].id !in HistoricalIDs(sdk, IDs(receipts), messages)
  {
    hide HistoricalIDs;
    HistoricalIsOther(sdk, IDs(receipts), messages);
  }

  /**
    The model input of a turn, message by message. It is built if and only if every
    placeholder and attachment can be read back within its bounds; it then holds, for each
    message, what stripping and refilling make of it, and behind them the attachments of the
    turn, the first of each ID.
   */
  lemma InputByFields(sdk: Sdk, turn: Turn, messages: Messages) returns (history: seq<Messages>, current: seq<Messages>)
    requires Sound(sdk)
    ensures Rehydrated(sdk, turn, messages).Success? <==> Buildable(sdk, turn, messages)
    ensures Rehydrated(sdk, turn, messages).Success? ==>
              && Built(sdk, turn, messages, history, current)
              && Rehydrated(sdk, turn, messages).value == Seqs.Flatten(history) + Seqs.Flatten(current)
  {
    hide Sound, Selectable, HistoryOpen, AllPresentable, AllHistory, AllPresented, TurnReceipts, TurnIDs, IDs, Strip, Expand,
         Collect, HistoricalIDs, ReceiptsForModel, FirstImage, Rehydrated;
    var receipts := TurnReceipts(sdk, turn);
    var ids := TurnIDs(receipts);
    history, current := [], [];
    if Selectable(sdk, turn.parts) {
      RehydratedIs(sdk, turn, messages);
      history := HistoryByFields(sdk, turn.reader, ids, messages);
      if Expand(sdk, Strip(sdk, messages)).Success? {
        var expanded := Expand(sdk, Strip(sdk, messages)).value;
        NotInHistory(sdk, receipts, expanded);
        current := CurrentByFields(sdk, turn.reader, HistoricalIDs(sdk, ids, expanded), receipts);
        if receipts == [] {
          NothingPresented(sdk, turn.reader, receipts);
          current := [];
        }
      }
    } else {
      NotSelectable(sdk, turn, messages);
    }
  }

  lemma NothingPresented(sdk: Sdk, reader: Reader, receipts: Receipts)
    requires receipts == []
    ensures AllPresentable(sdk, reader, receipts) && AllPresented(sdk, reader, receipts, [])
  {}

  lemma NotSelectable(sdk: Sdk, turn: Turn, messages: Messages)
    requires !Selectable(sdk, turn.parts)
    ensures Rehydrated(sdk, turn, messages).Failure?
  {
    hide TallyAll, Strip, Expand, Selectable, Filled;
    TallyByFields(sdk, turn.parts);
  }
}
