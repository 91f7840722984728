/**
  The model boundary: placeholders are stripped, expanded to one per receipt, filled with
  attachment bytes for a single provider call, and followed by the running turn's own
  attachment messages. None of it may reach the durable conversation.
 */
module AttachmentLifecycle {
  import opened Wrappers
  import Seqs
  import opened Blocks
  import opened Chat
  import opened ModelMessages
  import opened AttachmentMessages

  datatype ReadResult = ReadResult(content: Data, complete: bool)

  /** What the attachment store answers during one call of the lifecycle. */
  datatype Reader = Reader(configured: bool, read: (Receipt, int) -> Option<ReadResult>)

  /** The receipt a model-input error is about, when it names one. */
  type Blame = Option<Receipt>

  // ---------------------------------------------------------------- stripping

  /** The mention of the first text or file receipt. */
  function Mention(sdk: Sdk, receipts: Receipts): string
  {
    if receipts == [] then ""
    else
      match sdk.kind(receipts[0])
      case TextKind => sdk.textMention(receipts[0])
      case FileKind => sdk.fileMention(receipts[0])
      case ImageKind => Mention(sdk, receipts[1..])
  }

  function StripOne(sdk: Sdk, m: Message): Messages
  {
    if Placeholder(m) then [m.(content := Mention(sdk, ReceiptsOf(sdk, m)), parts := [])]
    else if CurrentOnly(m) then []
    else [m]
  }

  function Strip(sdk: Sdk, messages: Messages): Messages
  {
    if messages == [] then []
    else Strip(sdk, messages[..|messages| - 1]) + StripOne(sdk, messages[|messages| - 1])
  }

  method FindMention(sdk: Sdk, receipts: Receipts) returns (content: string)
    ensures content == Mention(sdk, receipts)
  {
    content := "";
    for i := 0 to |receipts|
      invariant content == ""
      invariant Mention(sdk, receipts[i..]) == Mention(sdk, receipts)
    {
      assert receipts[i..][1..] == receipts[i + 1..];
      match sdk.kind(receipts[i])
      case TextKind => return sdk.textMention(receipts[i]);
      case FileKind => return sdk.fileMention(receipts[i]);
      case ImageKind =>
    }
  }

  /** projectEinoAssistantMessagesWithoutAttachments. */
  method WithoutAttachments(sdk: Sdk, messages: Messages) returns (out: Messages)
    ensures out == Strip(sdk, messages)
  {
    out := [];
    for i := 0 to |messages|
      invariant out == Strip(sdk, messages[..i])
    {
      hide ReceiptsOf, Mention;
      assert messages[..i + 1][..i] == messages[..i];
      var m := messages[i];
      if Placeholder(m) {
        var content := FindMention(sdk, ReceiptsOf(sdk, m));
        out := out + [m.(content := content, parts := [])];
        continue;
      }
      if CurrentOnly(m) {
        continue;
      }
      out := out + [m];
    }
    assert messages[..|messages|] == messages;
  }

  // ---------------------------------------------------------------- expanding

  function ExpandOne(sdk: Sdk, m: Message): Result<Messages, Blame>
  {
    if !Placeholder(m) then Success([m])
    else
      match ReadReceipts(sdk, m)
      case None => Failure(None)
      case Some(receipts) => Success(Placeholders(sdk, receipts))
  }

  function Expander(sdk: Sdk): Message -> Result<Messages, Blame> { m => ExpandOne(sdk, m) }

  function Expand(sdk: Sdk, messages: Messages): Result<Messages, Blame> { Collect(messages, Expander(sdk)) }

  /** projectEinoAssistantExpandHistoricalAttachmentMessages. */
  method ExpandHistorical(sdk: Sdk, messages: Messages) returns (r: Result<Messages, Blame>)
    ensures r == Expand(sdk, messages)
  {
    var out := [];
    for i := 0 to |messages|
      invariant Collect(messages[..i], Expander(sdk)) == Success(out)
    {
      hide ReadReceipts, Placeholders, Collect;
      CollectOne(messages[..i], messages[i], Expander(sdk));
      assert messages[..i + 1] == messages[..i] + [messages[i]];
      if !Placeholder(messages[i]) {
        out := out + [messages[i]];
        continue;
      }
      match ReadReceipts(sdk, messages[i]) {
        case None =>
          CollectStops(messages, i + 1, Expander(sdk));
          return Failure(None);
        case Some(receipts) =>
          out := out + Placeholders(sdk, receipts);
      }
    }
    assert messages[..|messages|] == messages;
    return Success(out);
  }

  // ---------------------------------------------------------------- rehydrating placeholders

  function ImageParts(sdk: Sdk, r: Receipt, data: Data): seq<Part>
  {
    [TextPart(sdk.caption(r)), ImagePart(data, r.contentType)]
  }

  /** A complete read of at most `max` bytes. */
  function ReadWhole(reader: Reader, r: Receipt, max: int): Option<Data>
  {
    if !reader.configured then None
    else
      match reader.read(r, max + 1)
      case None => None
      case Some(read) => if !read.complete || |read.content| > max then None else Some(read.content)
  }

  /** An image's bytes: bounded, complete, not empty, and those of the receipt. */
  function ReadImage(sdk: Sdk, reader: Reader, r: Receipt): Option<Data>
  {
    if r.sizeBytes > sdk.imageMax then None
    else
      match ReadWhole(reader, r, sdk.imageMax)
      case None => None
      case Some(data) => if data == [] || !sdk.valid(r, data) then None else Some(data)
  }

  /** What one receipt of a placeholder does to it. */
  function FillOne(sdk: Sdk, reader: Reader, current: set<string>, m: Message, r: Receipt): Result<Message, Blame>
    requires m.Message?
  {
    if r.id in current then Success(m.(content := ""))
    else
      match sdk.kind(r)
      case FileKind => Success(m)
      case TextKind =>
        if r.sizeBytes > sdk.inlineMax then Success(m)
        else (
          match ReadWhole(reader, r, sdk.inlineMax)
          case None => Failure(Some(r))
          case Some(data) =>
            if sdk.valid(r, data) then Success(m.(content := sdk.inline(r, data))) else Failure(Some(r)))
      case ImageKind =>
        match ReadImage(sdk, reader, r)
        case None => Failure(Some(r))
        case Some(data) =>
          Success(m.(parts := ImageParts(sdk, r, data),
                     marks := m.marks.(current := false, id := None, filename := None)))
  }

  function Fill(sdk: Sdk, reader: Reader, current: set<string>, m: Message, receipts: Receipts): (r: Result<Message, Blame>)
    requires m.Message?
    ensures r.Success? ==> r.value.Message?
    decreases |receipts|
  {
    if receipts == [] then Success(m)
    else
      match FillOne(sdk, reader, current, m, receipts[0])
      case Failure(e) => Failure(e)
      case Success(next) => Fill(sdk, reader, current, next, receipts[1..])
  }

  function RehydrateOne(sdk: Sdk, reader: Reader, current: set<string>, m: Message): Result<Messages, Blame>
  {
    if !Placeholder(m) then Success([m])
    else
      match ReadReceipts(sdk, m)
      case None => Failure(None)
      case Some(receipts) =>
        match Fill(sdk, reader, current, m, receipts)
        case Failure(e) => Failure(e)
        case Success(filled) => Success([filled])
  }

  function Rehydrator(sdk: Sdk, reader: Reader, current: set<string>): Message -> Result<Messages, Blame>
  {
    m => RehydrateOne(sdk, reader, current, m)
  }

  /** IDs of the receipts of every placeholder, the current turn's aside. */
  function HistoricalIDs(sdk: Sdk, current: set<string>, messages: Messages): set<string>
  {
    if messages == [] then {}
    else
      var m := messages[|messages| - 1];
      HistoricalIDs(sdk, current, messages[..|messages| - 1])
        + (if Placeholder(m) then IDs(ReceiptsOf(sdk, m)) - current else {})
  }

  function IDs(receipts: Receipts): set<string>
  {
    set i | 0 <= i < |receipts| :: receipts[i].id
  }

  lemma IDsAre(receipts: Receipts)
    ensures forall id :: id in IDs(receipts) <==> HasID(receipts, id)
  {
    forall id
      ensures id in IDs(receipts) <==> HasID(receipts, id)
    {
      if HasID(receipts, id) {
        var i :| 0 <= i < |receipts| && receipts[i].id == id;
        assert receipts[i].id in IDs(receipts);
      }
    }
  }

  lemma HistoricalStep(sdk: Sdk, current: set<string>, messages: Messages, i: nat)
    requires i < |messages|
    ensures HistoricalIDs(sdk, current, messages[..i + 1])
         == HistoricalIDs(sdk, current, messages[..i])
            + (if Placeholder(messages[i]) then IDs(ReceiptsOf(sdk, messages[i])) - current else {})
  {
    hide IDs, ReceiptsOf;
    assert messages[..i + 1][..i] == messages[..i];
  }

  /** The inner loop over the receipts of one placeholder. */
  method FillPlaceholder(sdk: Sdk, reader: Reader, current: set<string>, m: Message, receipts: Receipts)
    returns (r: Result<Message, Blame>)
    requires m.Message?
    ensures r == Fill(sdk, reader, current, m, receipts)
  {
    var filled := m;
    for i := 0 to |receipts|
      invariant filled.Message?
      invariant Fill(sdk, reader, current, filled, receipts[i..]) == Fill(sdk, reader, current, m, receipts)
    {
      hide ReadWhole, ReadImage, ImageParts;
      assert receipts[i..][1..] == receipts[i + 1..];
      var receipt := receipts[i];
      if receipt.id in current {
        filled := filled.(content := "");
        continue;
      }
      match sdk.kind(receipt) {
        case FileKind =>
        case TextKind =>
          if receipt.sizeBytes <= sdk.inlineMax {
            match ReadWhole(reader, receipt, sdk.inlineMax) {
              case None => return Failure(Some(receipt));
              case Some(data) =>
                if !sdk.valid(receipt, data) {
                  return Failure(Some(receipt));
                }
                filled := filled.(content := sdk.inline(receipt, data));
            }
          }
        case ImageKind =>
          match ReadImage(sdk, reader, receipt) {
            case None => return Failure(Some(receipt));
            case Some(data) =>
              filled := filled.(parts := ImageParts(sdk, receipt, data),
                                marks := filled.marks.(current := false, id := None, filename := None));
          }
      }
    }
    return Success(filled);
  }

  /** rehydrateHistoricalAttachmentMessages, on placeholders nobody else holds. */
  method RehydrateHistorical(sdk: Sdk, reader: Reader, current: set<string>, messages: Messages)
    returns (r: Result<Messages, Blame>, historical: set<string>)
    ensures r == Collect(messages, Rehydrator(sdk, reader, current))
    ensures r.Success? ==> historical == HistoricalIDs(sdk, current, messages)
  {
    var out := messages;
    historical := {};
    ghost var done: Messages := [];
    for i := 0 to |messages|
      invariant |done| == i && out == done + messages[i..]
      invariant Collect(messages[..i], Rehydrator(sdk, reader, current)) == Success(done)
      invariant historical == HistoricalIDs(sdk, current, messages[..i])
    {
      hide ReadReceipts, Fill, Collect, IDs, HistoricalIDs;
      HistoricalStep(sdk, current, messages, i);
      CollectOne(messages[..i], messages[i], Rehydrator(sdk, reader, current));
      Seqs.Suffix(messages, i);
      Seqs.ReplaceHead(done, messages[i..], out[i]);
      if !Placeholder(out[i]) {
        done := done + [out[i]];
        continue;
      }
      match ReadReceipts(sdk, out[i]) {
        case None =>
          CollectStops(messages, i + 1, Rehydrator(sdk, reader, current));
          return Failure(None), {};
        case Some(receipts) =>
          var filled := FillPlaceholder(sdk, reader, current, out[i], receipts);
          match filled {
            case Failure(e) =>
              CollectStops(messages, i + 1, Rehydrator(sdk, reader, current));
              return Failure(e), {};
            case Success(m) =>
              historical := historical + (IDs(receipts) - current);
              Seqs.ReplaceHead(done, messages[i..], m);
              out := out[i := m];
              done := done + [m];
          }
      }
    }
    assert messages[..|messages|] == messages && out == done;
    return Success(out), historical;
  }

  // ---------------------------------------------------------------- the current turn

  datatype Tally = Tally(receipts: Receipts, images: int, bytes: int)

  function TallyOne(sdk: Sdk, before: Tally, r: Receipt): Result<Tally, Blame>
  {
    match sdk.normalize(r)
    case None => Failure(if sdk.kind(r).ImageKind? then Some(r) else None)
    case Some(normal) =>
      if HasID(before.receipts, normal.id) then Success(before)
      else
        var image := sdk.kind(normal).ImageKind?;
        var next := Tally(before.receipts + [normal], before.images + (if image then 1 else 0),
                          before.bytes + (if image then normal.sizeBytes else 0));
        if image && (next.images > sdk.imageCountMax || next.bytes > sdk.imageBytesMax) then Failure(None)
        else Success(next)
  }

  function TallyAll(sdk: Sdk, parts: Receipts): Result<Tally, Blame>
  {
    if parts == [] then Success(Tally([], 0, 0))
    else
      match TallyAll(sdk, parts[..|parts| - 1])
      case Failure(e) => Failure(e)
      case Success(before) => TallyOne(sdk, before, parts[|parts| - 1])
  }

  function ReceiptsForModel(sdk: Sdk, parts: Receipts): Result<Receipts, Blame>
  {
    match TallyAll(sdk, parts) case Failure(e) => Failure(e) case Success(t) => Success(t.receipts)
  }

  lemma {:induction false} TallyStops(sdk: Sdk, parts: Receipts, n: nat)
    requires n <= |parts| && TallyAll(sdk, parts[..n]).Failure?
    ensures TallyAll(sdk, parts) == TallyAll(sdk, parts[..n])
    decreases |parts| - n
  {
    if n == |parts| {
      assert parts[..n] == parts;
    } else {
      assert parts[..n + 1][..n] == parts[..n];
      TallyStops(sdk, parts, n + 1);
    }
  }

  lemma Member(receipts: Receipts, seen: set<string>, r: Option<Receipt>)
    requires seen == IDs(receipts)
    ensures r.Some? ==> (r.value.id in seen <==> HasID(receipts, r.value.id))
  {
    hide HasID, IDs;
    IDsAre(receipts);
  }

  lemma MemberAdd(receipts: Receipts, r: Receipt)
    ensures IDs(receipts + [r]) == IDs(receipts) + {r.id}
  {
    hide HasID, IDs;
    IDsAre(receipts);
    IDsAre(receipts + [r]);
    HasIDAppend(receipts, r);
  }

  /** projectAssistantAttachmentReceiptsForModel over the attachment parts of the run. */
  method SelectReceipts(sdk: Sdk, parts: Receipts) returns (r: Result<Receipts, Blame>)
    ensures r == ReceiptsForModel(sdk, parts)
  {
    var out: Receipts, seen: set<string>, imageCount, imageBytes := [], {}, 0, 0;
    for i := 0 to |parts|
      invariant TallyAll(sdk, parts[..i]) == Success(Tally(out, imageCount, imageBytes))
      invariant seen == IDs(out)
    {
      hide TallyAll, HasID, IDs;
      TallyStep(sdk, parts, i);
      Member(out, seen, sdk.normalize(parts[i]));
      match sdk.normalize(parts[i])
      case None =>
        TallyStops(sdk, parts, i + 1);
        return Failure(if sdk.kind(parts[i]).ImageKind? then Some(parts[i]) else None);
      case Some(normal) =>
        if normal.id in seen {
          continue;
        }
        if sdk.kind(normal).ImageKind? {
          imageCount := imageCount + 1;
          imageBytes := imageBytes + normal.sizeBytes;
          if imageCount > sdk.imageCountMax || imageBytes > sdk.imageBytesMax {
            TallyStops(sdk, parts, i + 1);
            return Failure(None);
          }
        }
        MemberAdd(out, normal);
        seen := seen + {normal.id};
        out := out + [normal];
    }
    assert parts[..|parts|] == parts;
    return Success(out);
  }

  lemma TallyStep(sdk: Sdk, parts: Receipts, i: nat)
    requires i < |parts| && TallyAll(sdk, parts[..i]).Success?
    ensures TallyAll(sdk, parts[..i + 1]) == TallyOne(sdk, TallyAll(sdk, parts[..i]).value, parts[i])
  {
    hide TallyOne;
    assert parts[..i + 1][..i] == parts[..i];
  }

  /** The message of one current receipt, if it has one. */
  function CurrentOne(sdk: Sdk, reader: Reader, excluded: set<string>, r: Receipt): Result<Messages, Blame>
  {
    var marks := Marks(false, true, Some(r.id), Some(r.filename), Absent);
    match sdk.kind(r)
    case ImageKind =>
      if r.id in excluded then Success([])
      else (
        match ReadImage(sdk, reader, r)
        case None => Failure(Some(r))
        case Some(data) =>
          Success([UserMessage("").(parts := ImageParts(sdk, r, data), marks := marks.(receipts := Listed([r])))]))
    case FileKind => Success([UserMessage(sdk.fileMention(r)).(marks := marks)])
    case TextKind =>
      if r.sizeBytes > sdk.inlineMax then Success([])
      else
        match reader.read(r, sdk.inlineMax + 1)
        case None => Failure(None)
        case Some(read) =>
          if !read.complete || |read.content| > sdk.inlineMax then Success([])
          else if !sdk.valid(r, read.content) then Failure(None)
          else Success([UserMessage(sdk.inline(r, read.content)).(marks := marks)])
  }

  function CurrentMaker(sdk: Sdk, reader: Reader, excluded: set<string>): Receipt -> Result<Messages, Blame>
  {
    r => CurrentOne(sdk, reader, excluded, r)
  }

  function FirstImage(sdk: Sdk, receipts: Receipts): Blame
  {
    if receipts == [] then None
    else if sdk.kind(receipts[0]).ImageKind? then Some(receipts[0])
    else FirstImage(sdk, receipts[1..])
  }

  function CurrentMessages(sdk: Sdk, reader: Reader, excluded: set<string>, receipts: Receipts): Result<Messages, Blame>
  {
    if receipts == [] then Success([])
    else if !reader.configured then Failure(FirstImage(sdk, receipts))
    else Collect(receipts, CurrentMaker(sdk, reader, excluded))
  }

  /** projectAssistantAttachmentMessagesExcludingIDs. */
  method MessagesExcluding(sdk: Sdk, reader: Reader, excluded: set<string>, receipts: Receipts)
    returns (r: Result<Messages, Blame>)
    ensures r == CurrentMessages(sdk, reader, excluded, receipts)
  {
    if |receipts| == 0 {
      return Success([]);
    }
    if !reader.configured {
      for i := 0 to |receipts|
        invariant FirstImage(sdk, receipts[i..]) == FirstImage(sdk, receipts)
      {
        assert receipts[i..][1..] == receipts[i + 1..];
        if sdk.kind(receipts[i]).ImageKind? {
          return Failure(Some(receipts[i]));
        }
      }
      return Failure(None);
    }
    var out := [];
    for i := 0 to |receipts|
      invariant Collect(receipts[..i], CurrentMaker(sdk, reader, excluded)) == Success(out)
    {
      hide Collect, ReadImage, ImageParts;
      CollectOne(receipts[..i], receipts[i], CurrentMaker(sdk, reader, excluded));
      assert receipts[..i + 1] == receipts[..i] + [receipts[i]];
      match CurrentOne(sdk, reader, excluded, receipts[i])
      case Failure(e) =>
        CollectStops(receipts, i + 1, CurrentMaker(sdk, reader, excluded));
        return Failure(e);
      case Success(more) =>
        out := out + more;
    }
    assert receipts[..|receipts|] == receipts;
    return Success(out);
  }

  // ---------------------------------------------------------------- the model boundary

  /** The attachment parts the run holds and the store it reads from. */
  datatype Turn = Turn(reader: Reader, parts: Receipts)

  function Filled(sdk: Sdk, turn: Turn, receipts: Receipts, expanded: Messages): Result<Messages, Blame>
  {
    match Collect(expanded, Rehydrator(sdk, turn.reader, IDs(receipts)))
    case Failure(e) => Failure(e)
    case Success(historical) =>
      match CurrentMessages(sdk, turn.reader, HistoricalIDs(sdk, IDs(receipts), expanded), receipts)
      case Failure(e) => Failure(e)
      case Success(current) => Success(historical + current)
  }

  /** The model input of one provider call. */
  function Rehydrated(sdk: Sdk, turn: Turn, messages: Messages): Result<Messages, Blame>
  {
    match Expand(sdk, Strip(sdk, messages))
    case Failure(e) => Failure(e)
    case Success(expanded) =>
      match ReceiptsForModel(sdk, turn.parts)
      case Failure(e) => Failure(e)
      case Success(receipts) => Filled(sdk, turn, receipts, expanded)
  }

  /** The agent state the lifecycle rewrites around each provider call. */
  class ModelState {
    var messages: Messages

    constructor (messages: Messages)
      ensures this.messages == messages
    {
      this.messages := messages;
    }

    /** rehydrateAttachmentMessages: all of the new input, or an untouched state. */
    method Rehydrate(sdk: Sdk, turn: Turn) returns (r: Result<(), Blame>)
      modifies this
      ensures r.Success? <==> Rehydrated(sdk, turn, old(messages)).Success?
      ensures r.Success? ==> messages == Rehydrated(sdk, turn, old(messages)).value
      ensures r.Failure? ==> messages == old(messages) && r.error == Rehydrated(sdk, turn, old(messages)).error
    {
      hide Strip, Expand, ReceiptsForModel, Collect, CurrentMessages, HistoricalIDs, IDs;
      var stripped := WithoutAttachments(sdk, messages);
      var expansion := ExpandHistorical(sdk, stripped);
      match expansion
      case Failure(e) => return Failure(e);
      case Success(expanded) =>
        var selection := SelectReceipts(sdk, turn.parts);
        match selection {
          case Failure(e) => return Failure(e);
          case Success(receipts) =>
            var filled, historical := RehydrateHistorical(sdk, turn.reader, IDs(receipts), expanded);
            match filled {
              case Failure(e) => return Failure(e);
              case Success(without) =>
                var added := MessagesExcluding(sdk, turn.reader, historical, receipts);
                match added {
                  case Failure(e) => return Failure(e);
                  case Success(current) =>
                    messages := without + current;
                    return Success(());
                }
            }
        }
    }

    /** AfterModelRewriteState: attachment bytes leave the state again. */
    method AfterModel(sdk: Sdk)
      modifies this
      ensures messages == Strip(sdk, old(messages))
    {
      messages := WithoutAttachments(sdk, messages);
    }
  }

  // ---------------------------------------------------------------- the durable projection

  /** ToChat continued from a projection already under way. */
  function ToChatFrom(sdk: Sdk, out: seq<ChatMessage>, messages: Messages): seq<ChatMessage>
  {
    if messages == [] then out
    else Folded(sdk, ToChatFrom(sdk, out, messages[..|messages| - 1]), messages[|messages| - 1])
  }

  lemma {:induction false} ToChatConcat(sdk: Sdk, a: Messages, b: Messages)
    ensures ToChat(sdk, a + b) == ToChatFrom(sdk, ToChat(sdk, a), b)
    decreases |b|
  {
    hide Folded;
    if b == [] {
      assert a + b == a;
    } else {
      assert a + b == a + b[..|b| - 1] + [b[|b| - 1]];
      ToChatConcat(sdk, a, b[..|b| - 1]);
      ToChatAppend(sdk, a + b[..|b| - 1], b[|b| - 1]);
    }
  }

  lemma ToChatFromOne(sdk: Sdk, out: seq<ChatMessage>, m: Message)
    ensures ToChatFrom(sdk, out, [m]) == Folded(sdk, out, m)
    ensures ToChatFrom(sdk, out, []) == out
  {
    hide Folded;
    assert [m][..0] == [];
  }

  /** Replacing a message by its block changes no projection. */
  ghost predicate Transparent(sdk: Sdk, f: Message -> Result<Messages, Blame>)
  {
    forall out: seq<ChatMessage>, m: Message :: f(m).Success? ==>
      ToChatFrom(sdk, out, f(m).value) == Folded(sdk, out, m)
  }

  lemma {:induction false} TransparentPreserves(sdk: Sdk, messages: Messages, f: Message -> Result<Messages, Blame>)
    requires Transparent(sdk, f) && Collect(messages, f).Success?
    ensures ToChat(sdk, Collect(messages, f).value) == ToChat(sdk, messages)
  {
    hide Folded, ToChatFrom;
    if messages != [] {
      var init, m := messages[..|messages| - 1], messages[|messages| - 1];
      CollectPrefix(messages, f);
      TransparentPreserves(sdk, init, f);
      ToChatConcat(sdk, Collect(init, f).value, f(m).value);
    }
  }

  /** The projection reads nothing of a placeholder but its receipts. */
  lemma FoldedReads(sdk: Sdk, out: seq<ChatMessage>, a: Message, b: Message)
    requires Placeholder(a) && Placeholder(b) && a.marks.receipts == b.marks.receipts
    ensures Folded(sdk, out, a) == Folded(sdk, out, b)
  {
    hide Append, Canonicalized;
  }

  lemma StripOneFolded(sdk: Sdk, out: seq<ChatMessage>, m: Message)
    ensures ToChatFrom(sdk, out, StripOne(sdk, m)) == Folded(sdk, out, m)
  {
    hide ToChatFrom, Mention, ReceiptsOf;
    ToChatFromOne(sdk, out, m);
    if Placeholder(m) {
      var stripped := m.(content := Mention(sdk, ReceiptsOf(sdk, m)), parts := []);
      ToChatFromOne(sdk, out, stripped);
      FoldedReads(sdk, out, m, stripped);
    }
  }

  /** Stripping leaves the durable projection of any list as it is. */
  lemma {:induction false} StripKeepsChat(sdk: Sdk, messages: Messages)
    ensures ToChat(sdk, Strip(sdk, messages)) == ToChat(sdk, messages)
  {
    hide StripOne, Folded, ToChatFrom;
    if messages != [] {
      var init, m := messages[..|messages| - 1], messages[|messages| - 1];
      StripKeepsChat(sdk, init);
      ToChatConcat(sdk, Strip(sdk, init), StripOne(sdk, m));
      StripOneFolded(sdk, ToChat(sdk, init), m);
    }
  }

  /** Receipts attached to the newest chat message, when it is a user message. */
  function Attaching(out: seq<ChatMessage>, receipts: Receipts): seq<ChatMessage>
  {
    if out != [] && out[|out| - 1].role == "user"
    then out[|out| - 1 := out[|out| - 1].(attachments := Append(out[|out| - 1].attachments, receipts))]
    else out
  }

  lemma AttachingOne(sdk: Sdk, out: seq<ChatMessage>, receipts: Receipts, r: Receipt, m: Message)
    requires Placeholder(m) && ReceiptsOf(sdk, m) == [r]
    ensures Folded(sdk, Attaching(out, receipts), m) == Attaching(out, receipts + [r])
  {
    hide Append, ReceiptsOf;
    if out != [] {
      AppendConcat(out[|out| - 1].attachments, receipts, [r]);
    }
  }

  /** One placeholder per receipt folds back to the same attachments. */
  lemma {:induction false} PlaceholdersFold(sdk: Sdk, out: seq<ChatMessage>, receipts: Receipts)
    requires Sound(sdk) && AllNormal(sdk, receipts)
    ensures ToChatFrom(sdk, out, Placeholders(sdk, receipts)) == Attaching(out, receipts)
    decreases |receipts|
  {
    hide ToChatFrom, Placeholders, PlaceholderMessage, Placeholder, Attaching, Normal, ReceiptsOf, Folded, Sound;
    if receipts == [] {
      NothingFolds(sdk, out, receipts);
    } else {
      var init, r := receipts[..|receipts| - 1], receipts[|receipts| - 1];
      PlaceholdersFold(sdk, out, init);
      PlaceholderReceipts(sdk, r);
      PlaceholdersSnoc(sdk, init, r);
      assert init + [r] == receipts;
      ToChatFromSnoc(sdk, out, Placeholders(sdk, init), PlaceholderMessage(sdk, r));
      AttachingOne(sdk, out, init, r, PlaceholderMessage(sdk, r));
    }
  }

  lemma NothingFolds(sdk: Sdk, out: seq<ChatMessage>, receipts: Receipts)
    requires receipts == []
    ensures ToChatFrom(sdk, out, Placeholders(sdk, receipts)) == Attaching(out, receipts)
  {
    AppendNothing(if out != [] then out[|out| - 1].attachments else []);
  }

  lemma PlaceholdersSnoc(sdk: Sdk, receipts: Receipts, r: Receipt)
    ensures Placeholders(sdk, receipts + [r]) == Placeholders(sdk, receipts) + [PlaceholderMessage(sdk, r)]
  {
    hide PlaceholderMessage;
    assert (receipts + [r])[..|receipts|] == receipts;
  }

  lemma ToChatFromSnoc(sdk: Sdk, out: seq<ChatMessage>, messages: Messages, m: Message)
    ensures ToChatFrom(sdk, out, messages + [m]) == Folded(sdk, ToChatFrom(sdk, out, messages), m)
  {
    assert (messages + [m])[..|messages|] == messages;
  }

  lemma AppendNothing(dst: Receipts)
    ensures Append(dst, []) == dst
  {}

  lemma ExpandOneFolded(sdk: Sdk, out: seq<ChatMessage>, m: Message)
    requires Sound(sdk) && ExpandOne(sdk, m).Success?
    ensures ToChatFrom(sdk, out, ExpandOne(sdk, m).value) == Folded(sdk, out, m)
  {
    hide ToChatFrom, Append, Canonicalized, Placeholders, AllNormal;
    if Placeholder(m) {
      var receipts := ReadReceipts(sdk, m).value;
      ReadIsCanonical(sdk, m);
      PlaceholdersFold(sdk, out, receipts);
    } else {
      ToChatFromOne(sdk, out, m);
    }
  }

  lemma ReadIsCanonical(sdk: Sdk, m: Message)
    requires Sound(sdk) && Placeholder(m) && ReadReceipts(sdk, m).Some?
    ensures var receipts := ReadReceipts(sdk, m).value;
            receipts != [] && AllNormal(sdk, receipts) && DistinctIDs(receipts)
  {
    hide Canonicalized, AllNormal, DistinctIDs;
    CanonicalReceipts(sdk, m.marks.receipts.receipts);
  }

  /** Expanding placeholders leaves the durable projection as it is. */
  lemma ExpandKeepsChat(sdk: Sdk, messages: Messages)
    requires Sound(sdk) && Expand(sdk, messages).Success?
    ensures ToChat(sdk, Expand(sdk, messages).value) == ToChat(sdk, messages)
  {
    hide ExpandOne, Folded, ToChatFrom, Collect;
    forall out: seq<ChatMessage>, m: Message | Expander(sdk)(m).Success?
      ensures ToChatFrom(sdk, out, Expander(sdk)(m).value) == Folded(sdk, out, m)
    {
      ExpandOneFolded(sdk, out, m);
    }
    TransparentPreserves(sdk, messages, Expander(sdk));
  }

  /** Filling touches content, parts and the transient marks alone. */
  lemma {:induction false} FillKeeps(sdk: Sdk, reader: Reader, current: set<string>, m: Message, receipts: Receipts)
    requires Placeholder(m) && Fill(sdk, reader, current, m, receipts).Success?
    ensures var filled := Fill(sdk, reader, current, m, receipts).value;
            Placeholder(filled) && filled.marks.receipts == m.marks.receipts
    decreases |receipts|
  {
    hide ReadWhole, ReadImage, ImageParts;
    if receipts != [] {
      FillKeeps(sdk, reader, current, FillOne(sdk, reader, current, m, receipts[0]).value, receipts[1..]);
    }
  }

  lemma RehydrateOneFolded(sdk: Sdk, reader: Reader, current: set<string>, out: seq<ChatMessage>, m: Message)
    requires RehydrateOne(sdk, reader, current, m).Success?
    ensures ToChatFrom(sdk, out, RehydrateOne(sdk, reader, current, m).value) == Folded(sdk, out, m)
  {
    hide ToChatFrom, Folded, Fill, ReadReceipts;
    if Placeholder(m) {
      var filled := Fill(sdk, reader, current, m, ReadReceipts(sdk, m).value).value;
      FillKeeps(sdk, reader, current, m, ReadReceipts(sdk, m).value);
      ToChatFromOne(sdk, out, filled);
      FoldedReads(sdk, out, filled, m);
    } else {
      ToChatFromOne(sdk, out, m);
    }
  }

  lemma FillingKeepsChat(sdk: Sdk, reader: Reader, current: set<string>, messages: Messages)
    requires Collect(messages, Rehydrator(sdk, reader, current)).Success?
    ensures ToChat(sdk, Collect(messages, Rehydrator(sdk, reader, current)).value) == ToChat(sdk, messages)
  {
    hide RehydrateOne, Folded, ToChatFrom, Collect;
    forall out: seq<ChatMessage>, m: Message | Rehydrator(sdk, reader, current)(m).Success?
      ensures ToChatFrom(sdk, out, Rehydrator(sdk, reader, current)(m).value) == Folded(sdk, out, m)
    {
      RehydrateOneFolded(sdk, reader, current, out, m);
    }
    TransparentPreserves(sdk, messages, Rehydrator(sdk, reader, current));
  }

  lemma CurrentAreTransient(sdk: Sdk, reader: Reader, excluded: set<string>, receipts: Receipts)
    requires CurrentMessages(sdk, reader, excluded, receipts).Success?
    ensures forall i :: 0 <= i < |CurrentMessages(sdk, reader, excluded, receipts).value| ==>
              CurrentOnly(CurrentMessages(sdk, reader, excluded, receipts).value[i])
  {
    hide Collect, ReadImage, ImageParts;
    if receipts != [] {
      CollectAll(receipts, CurrentMaker(sdk, reader, excluded), CurrentOnly);
    }
  }

  lemma {:induction false} TransientVanishes(sdk: Sdk, out: seq<ChatMessage>, messages: Messages)
    requires forall i :: 0 <= i < |messages| ==> CurrentOnly(messages[i])
    ensures ToChatFrom(sdk, out, messages) == out
    ensures Strip(sdk, messages) == []
  {
    if messages != [] {
      TransientVanishes(sdk, out, messages[..|messages| - 1]);
    }
  }

  /** Rehydrating a model input leaves the durable projection as it is. */
  lemma RehydrateKeepsChat(sdk: Sdk, turn: Turn, messages: Messages)
    requires Sound(sdk) && Rehydrated(sdk, turn, messages).Success?
    ensures ToChat(sdk, Rehydrated(sdk, turn, messages).value) == ToChat(sdk, messages)
  {
    hide ToChat, ToChatFrom, Strip, Expand, ReceiptsForModel, Collect, CurrentMessages, HistoricalIDs, IDs, Rehydrator;
    var expanded, receipts := Expand(sdk, Strip(sdk, messages)).value, ReceiptsForModel(sdk, turn.parts).value;
    var ids := IDs(receipts);
    var historical := Collect(expanded, Rehydrator(sdk, turn.reader, ids)).value;
    var current := CurrentMessages(sdk, turn.reader, HistoricalIDs(sdk, ids, expanded), receipts).value;
    StripKeepsChat(sdk, messages);
    ExpandKeepsChat(sdk, Strip(sdk, messages));
    FillingKeepsChat(sdk, turn.reader, ids, expanded);
    CurrentAreTransient(sdk, turn.reader, HistoricalIDs(sdk, ids, expanded), receipts);
    ToChatConcat(sdk, historical, current);
    TransientVanishes(sdk, ToChat(sdk, historical), current);
  }

  /** A step of the lifecycle; one that fails leaves the state alone. */
  datatype Step = StripStep | ExpandStep | RehydrateStep(turn: Turn)

  function Next(sdk: Sdk, messages: Messages, step: Step): Messages
  {
    match step
    case StripStep => Strip(sdk, messages)
    case ExpandStep => (match Expand(sdk, messages) case Success(out) => out case Failure(_) => messages)
    case RehydrateStep(turn) => (match Rehydrated(sdk, turn, messages) case Success(out) => out case Failure(_) => messages)
  }

  function Run(sdk: Sdk, messages: Messages, steps: seq<Step>): Messages
  {
    if steps == [] then messages
    else Next(sdk, Run(sdk, messages, steps[..|steps| - 1]), steps[|steps| - 1])
  }

  /** No composition of lifecycle steps changes what is stored durably. */
  lemma {:induction false} RunKeepsChat(sdk: Sdk, messages: Messages, steps: seq<Step>)
    requires Sound(sdk)
    ensures ToChat(sdk, Run(sdk, messages, steps)) == ToChat(sdk, messages)
    decreases |steps|
  {
    hide ToChat, Strip, Expand, Rehydrated;
    if steps != [] {
      var before := Run(sdk, messages, steps[..|steps| - 1]);
      RunKeepsChat(sdk, messages, steps[..|steps| - 1]);
      match steps[|steps| - 1]
      case StripStep => StripKeepsChat(sdk, before);
      case ExpandStep => if Expand(sdk, before).Success? { ExpandKeepsChat(sdk, before); }
      case RehydrateStep(turn) => if Rehydrated(sdk, turn, before).Success? { RehydrateKeepsChat(sdk, turn, before); }
    }
  }

  // ---------------------------------------------------------------- no trace of the bytes

  /** What expansion leaves: single-receipt placeholders and no current-turn messages. */
  predicate Boundary(sdk: Sdk, m: Message)
  {
    !CurrentOnly(m) && (Placeholder(m) ==> SinglePlaceholder(sdk, m))
  }

  predicate AtBoundary(sdk: Sdk, messages: Messages)
  {
    forall i :: 0 <= i < |messages| ==> Boundary(sdk, messages[i])
  }

  lemma {:induction false} StripDropsCurrent(sdk: Sdk, messages: Messages)
    ensures forall i :: 0 <= i < |Strip(sdk, messages)| ==> !CurrentOnly(Strip(sdk, messages)[i])
  {
    hide Mention, ReceiptsOf;
    if messages != [] {
      StripDropsCurrent(sdk, messages[..|messages| - 1]);
    }
  }

  lemma ExpandOneBoundary(sdk: Sdk, m: Message)
    requires Sound(sdk) && !CurrentOnly(m) && ExpandOne(sdk, m).Success?
    ensures AtBoundary(sdk, ExpandOne(sdk, m).value)
  {
    hide ReadReceipts, Placeholders, SinglePlaceholder, Normal;
    if Placeholder(m) {
      ReadIsCanonical(sdk, m);
      var receipts := ReadReceipts(sdk, m).value;
      forall i | 0 <= i < |receipts|
        ensures Boundary(sdk, Placeholders(sdk, receipts)[i])
      {
        PlaceholdersAt(sdk, receipts, i);
        PlaceholderBoundary(sdk, receipts[i]);
      }
    }
  }

  lemma PlaceholderBoundary(sdk: Sdk, r: Receipt)
    requires Normal(sdk, r)
    ensures Boundary(sdk, PlaceholderMessage(sdk, r))
  {
    hide Normal;
  }

  lemma ExpandedAtBoundary(sdk: Sdk, messages: Messages)
    requires Sound(sdk) && Expand(sdk, Strip(sdk, messages)).Success?
    ensures AtBoundary(sdk, Expand(sdk, Strip(sdk, messages)).value)
  {
    hide Strip, ExpandOne, Boundary, Collect, CurrentOnly;
    var stripped := Strip(sdk, messages);
    StripDropsCurrent(sdk, messages);
    forall m | m in stripped && Expander(sdk)(m).Success?
      ensures forall i :: 0 <= i < |Expander(sdk)(m).value| ==> Boundary(sdk, Expander(sdk)(m).value[i])
    {
      ExpandOneBoundary(sdk, m);
    }
    CollectAll(stripped, Expander(sdk), m => Boundary(sdk, m));
  }

  /**
    What a placeholder is after it was filled and stripped again: itself, an image's ID and
    filename marks aside. Nothing in it depends on what the store answered.
   */
  function ResidueOne(sdk: Sdk, current: set<string>, m: Message): Message
  {
    if Placeholder(m) && SingleReceipt(m).Some?
       && SingleReceipt(m).value.id !in current && sdk.kind(SingleReceipt(m).value).ImageKind?
    then m.(marks := m.marks.(id := None, filename := None))
    else m
  }

  function Residue(sdk: Sdk, current: set<string>, messages: Messages): Messages
  {
    if messages == [] then []
    else Residue(sdk, current, messages[..|messages| - 1]) + [ResidueOne(sdk, current, messages[|messages| - 1])]
  }

  lemma FillSingle(sdk: Sdk, reader: Reader, current: set<string>, m: Message, r: Receipt)
    requires m.Message?
    ensures Fill(sdk, reader, current, m, [r]) == FillOne(sdk, reader, current, m, r)
  {
    hide FillOne;
    assert [r][1..] == [];
  }

  /** One single-receipt placeholder after filling, whatever was read. */
  lemma FilledPlaceholder(sdk: Sdk, reader: Reader, current: set<string>, r: Receipt)
    requires Sound(sdk) && Normal(sdk, r)
    ensures RehydrateOne(sdk, reader, current, PlaceholderMessage(sdk, r))
         == match FillOne(sdk, reader, current, PlaceholderMessage(sdk, r), r)
            case Failure(e) => Failure(e)
            case Success(filled) => Success([filled])
  {
    hide FillOne, Fill, PlaceholderMessage, ReadReceipts, Normal;
    PlaceholderReceipts(sdk, r);
    FillSingle(sdk, reader, current, PlaceholderMessage(sdk, r), r);
  }

  lemma MentionOne(sdk: Sdk, r: Receipt)
    ensures Mention(sdk, [r]) == PlaceholderMessage(sdk, r).content
  {
    assert [r][1..] == [];
  }

  lemma FilledStrips(sdk: Sdk, reader: Reader, current: set<string>, m: Message)
    requires Sound(sdk) && Boundary(sdk, m) && RehydrateOne(sdk, reader, current, m).Success?
    ensures Strip(sdk, RehydrateOne(sdk, reader, current, m).value) == [ResidueOne(sdk, current, m)]
  {
    hide ReadReceipts, Fill, FillOne, PlaceholderMessage, ReceiptsOf, Normal, Mention, RehydrateOne;
    if Placeholder(m) {
      SingleNormal(sdk, m);
      var r := SingleReceipt(m).value;
      FilledPlaceholder(sdk, reader, current, r);
      var filled := FillOne(sdk, reader, current, m, r).value;
      FilledReads(sdk, reader, current, r);
      assert [filled][..0] == [];
      assert Strip(sdk, [filled]) == StripOne(sdk, filled);
    } else {
      assert RehydrateOne(sdk, reader, current, m) == Success([m]) by { PlainRehydrates(sdk, reader, current, m); }
      assert [m][..0] == [];
    }
  }

  lemma PlainRehydrates(sdk: Sdk, reader: Reader, current: set<string>, m: Message)
    requires !Placeholder(m)
    ensures RehydrateOne(sdk, reader, current, m) == Success([m])
  {}

  lemma FilledReads(sdk: Sdk, reader: Reader, current: set<string>, r: Receipt)
    requires Sound(sdk) && Normal(sdk, r)
    requires FillOne(sdk, reader, current, PlaceholderMessage(sdk, r), r).Success?
    ensures var filled := FillOne(sdk, reader, current, PlaceholderMessage(sdk, r), r).value;
            Placeholder(filled) && StripOne(sdk, filled) == [ResidueOne(sdk, current, PlaceholderMessage(sdk, r))]
  {
    hide ReadWhole, ReadImage, ImageParts, Mention, Normal, Canonicalized;
    MentionOne(sdk, r);
    PlaceholderReceipts(sdk, r);
    var filled := FillOne(sdk, reader, current, PlaceholderMessage(sdk, r), r).value;
    assert ReceiptsOf(sdk, filled) == [r];
  }

  lemma {:induction false} StripConcat(sdk: Sdk, a: Messages, b: Messages)
    ensures Strip(sdk, a + b) == Strip(sdk, a) + Strip(sdk, b)
    decreases |b|
  {
    hide StripOne;
    if b == [] {
      assert a + b == a;
    } else {
      assert (a + b)[..|a + b| - 1] == a + b[..|b| - 1];
      StripConcat(sdk, a, b[..|b| - 1]);
    }
  }

  lemma {:induction false} FillingStrips(sdk: Sdk, reader: Reader, current: set<string>, expanded: Messages)
    requires Sound(sdk) && AtBoundary(sdk, expanded)
    requires Collect(expanded, Rehydrator(sdk, reader, current)).Success?
    ensures Strip(sdk, Collect(expanded, Rehydrator(sdk, reader, current)).value) == Residue(sdk, current, expanded)
  {
    hide Boundary, RehydrateOne, ResidueOne, StripOne, Sound;
    if expanded != [] {
      var init, m := expanded[..|expanded| - 1], expanded[|expanded| - 1];
      CollectPrefix(expanded, Rehydrator(sdk, reader, current));
      FillingStrips(sdk, reader, current, init);
      FilledStrips(sdk, reader, current, m);
      StripConcat(sdk, Collect(init, Rehydrator(sdk, reader, current)).value,
                  RehydrateOne(sdk, reader, current, m).value);
    }
  }

  /** After a provider call the state holds the residue of the expanded input and no bytes. */
  lemma StrippedInput(sdk: Sdk, turn: Turn, messages: Messages)
    requires Sound(sdk) && Rehydrated(sdk, turn, messages).Success?
    ensures Strip(sdk, Rehydrated(sdk, turn, messages).value)
         == Residue(sdk, IDs(ReceiptsForModel(sdk, turn.parts).value), Expand(sdk, Strip(sdk, messages)).value)
  {
    hide ToChat, Strip, Expand, ReceiptsForModel, Collect, CurrentMessages, HistoricalIDs, IDs, Rehydrator, Residue,
         AtBoundary, Sound;
    var expanded, receipts := Expand(sdk, Strip(sdk, messages)).value, ReceiptsForModel(sdk, turn.parts).value;
    var ids := IDs(receipts);
    var historical := Collect(expanded, Rehydrator(sdk, turn.reader, ids)).value;
    var excluded := HistoricalIDs(sdk, ids, expanded);
    var current := CurrentMessages(sdk, turn.reader, excluded, receipts).value;
    ExpandedAtBoundary(sdk, messages);
    FillingStrips(sdk, turn.reader, ids, expanded);
    CurrentAreTransient(sdk, turn.reader, excluded, receipts);
    TransientVanishes(sdk, [], current);
    StripConcat(sdk, historical, current);
  }

  /** Expansion restores the placeholders a residue came from. */
  lemma ExpandResidueOne(sdk: Sdk, current: set<string>, m: Message)
    requires Sound(sdk) && Boundary(sdk, m)
    ensures ExpandOne(sdk, ResidueOne(sdk, current, m)) == Success([m])
  {
    hide Normal, Canonicalized;
    if Placeholder(m) {
      hide PlaceholderMessage;
      SingleNormal(sdk, m);
      var r := SingleReceipt(m).value;
      PlaceholderReceipts(sdk, r);
      assert Placeholders(sdk, [r]) == [PlaceholderMessage(sdk, r)] by { assert [r][..0] == []; }
      assert ReadReceipts(sdk, ResidueOne(sdk, current, m)) == ReadReceipts(sdk, m);
    }
  }

  lemma {:induction false} ExpandResidue(sdk: Sdk, current: set<string>, expanded: Messages)
    requires Sound(sdk) && AtBoundary(sdk, expanded)
    ensures Expand(sdk, Residue(sdk, current, expanded)) == Success(expanded)
  {
    hide Boundary, ExpandOne, ResidueOne, Sound;
    if expanded != [] {
      var init, m := expanded[..|expanded| - 1], expanded[|expanded| - 1];
      ExpandResidue(sdk, current, init);
      ExpandResidueOne(sdk, current, m);
      CollectOne(Residue(sdk, current, init), ResidueOne(sdk, current, m), Expander(sdk));
      assert expanded == init + [m];
    }
  }

  lemma StripOneTwice(sdk: Sdk, m: Message)
    ensures Strip(sdk, StripOne(sdk, m)) == StripOne(sdk, m)
  {
    hide Mention, Canonicalized;
    if !CurrentOnly(m) {
      var once := StripOne(sdk, m)[0];
      assert ReceiptsOf(sdk, once) == ReceiptsOf(sdk, m);
      assert [once][..0] == [];
    }
  }

  lemma {:induction false} StripTwice(sdk: Sdk, messages: Messages)
    ensures Strip(sdk, Strip(sdk, messages)) == Strip(sdk, messages)
  {
    hide StripOne;
    if messages != [] {
      var init, m := messages[..|messages| - 1], messages[|messages| - 1];
      StripTwice(sdk, init);
      StripOneTwice(sdk, m);
      StripConcat(sdk, Strip(sdk, init), StripOne(sdk, m));
    }
  }

  /**
    A model input built on top of an earlier one, stripped in between or not, is the one
    built on the original messages: earlier bytes, turns and stores leave no trace in it.
   */
  lemma EarlierInputsLeaveNoTrace(sdk: Sdk, earlier: Turn, later: Turn, messages: Messages)
    requires Sound(sdk) && Rehydrated(sdk, earlier, messages).Success?
    ensures var input := Rehydrated(sdk, earlier, messages).value;
            && Rehydrated(sdk, later, input) == Rehydrated(sdk, later, messages)
            && Rehydrated(sdk, later, Strip(sdk, input)) == Rehydrated(sdk, later, messages)
  {
    hide Strip, Expand, ReceiptsForModel, Filled, IDs, Residue, AtBoundary, Sound;
    var expanded, ids := Expand(sdk, Strip(sdk, messages)).value, IDs(ReceiptsForModel(sdk, earlier.parts).value);
    StrippedInput(sdk, earlier, messages);
    ExpandedAtBoundary(sdk, messages);
    ExpandResidue(sdk, ids, expanded);
    StripTwice(sdk, Rehydrated(sdk, earlier, messages).value);
  }

  // ---------------------------------------------------------------- one image, one message

  /** An attachment message that shows the model the image with this ID. */
  predicate Shows(m: Message, id: string)
  {
    && m.Message? && (m.marks.historical || m.marks.current) && m.marks.receipts.Listed?
    && HasID(m.marks.receipts.receipts, id)
    && exists i :: 0 <= i < |m.parts| && m.parts[i].ImagePart?
  }

  function ShowCount(messages: Messages, id: string): nat
  {
    if messages == [] then 0
    else ShowCount(messages[..|messages| - 1], id) + (if Shows(messages[|messages| - 1], id) then 1 else 0)
  }

  lemma {:induction false} ShowConcat(a: Messages, b: Messages, id: string)
    ensures ShowCount(a + b, id) == ShowCount(a, id) + ShowCount(b, id)
    decreases |b|
  {
    hide Shows;
    if b == [] {
      assert a + b == a;
    } else {
      assert (a + b)[..|a + b| - 1] == a + b[..|b| - 1];
      ShowConcat(a, b[..|b| - 1], id);
    }
  }

  lemma ShowOne(m: Message, id: string)
    ensures ShowCount([m], id) == if Shows(m, id) then 1 else 0
  {
    hide Shows;
    assert [m][..0] == [];
  }

  /** A placeholder never shows an image of the current turn, nor its text. */
  lemma PlaceholderShowsNot(sdk: Sdk, reader: Reader, current: set<string>, m: Message, id: string)
    requires Sound(sdk) && Boundary(sdk, m) && RehydrateOne(sdk, reader, current, m).Success? && id in current
    requires !Placeholder(m) ==> !Shows(m, id)
    ensures ShowCount(RehydrateOne(sdk, reader, current, m).value, id) == 0
  {
    hide RehydrateOne, PlaceholderMessage, Normal, ReadWhole, ReadImage, ImageParts, Boundary;
    if Placeholder(m) {
      assert SinglePlaceholder(sdk, m) by { BoundaryPlaceholder(sdk, m); }
      SingleNormal(sdk, m);
      var r := SingleReceipt(m).value;
      FilledPlaceholder(sdk, reader, current, r);
      var filled := FillOne(sdk, reader, current, m, r).value;
      BarePlaceholder(sdk, r);
      ShowOne(filled, id);
      if r.id == id {
        assert filled.parts == [];
      } else {
        assert filled.marks.receipts == Listed([r]);
      }
    } else {
      PlainRehydrates(sdk, reader, current, m);
      ShowOne(m, id);
    }
  }

  lemma BoundaryPlaceholder(sdk: Sdk, m: Message)
    requires Boundary(sdk, m) && Placeholder(m)
    ensures SinglePlaceholder(sdk, m)
  {}

  lemma BarePlaceholder(sdk: Sdk, r: Receipt)
    ensures PlaceholderMessage(sdk, r).parts == [] && PlaceholderMessage(sdk, r).marks.receipts == Listed([r])
  {}

  lemma {:induction false} HistoryShowsNot(sdk: Sdk, reader: Reader, current: set<string>, expanded: Messages, id: string)
    requires Sound(sdk) && AtBoundary(sdk, expanded) && id in current
    requires Collect(expanded, Rehydrator(sdk, reader, current)).Success?
    requires forall i :: 0 <= i < |expanded| && !Placeholder(expanded[i]) ==> !Shows(expanded[i], id)
    ensures ShowCount(Collect(expanded, Rehydrator(sdk, reader, current)).value, id) == 0
  {
    hide Boundary, RehydrateOne, Shows, Sound, Placeholder;
    if expanded != [] {
      var init, m := expanded[..|expanded| - 1], expanded[|expanded| - 1];
      CollectPrefix(expanded, Rehydrator(sdk, reader, current));
      HistoryShowsNot(sdk, reader, current, init, id);
      PlaceholderShowsNot(sdk, reader, current, m, id);
      ShowConcat(Collect(init, Rehydrator(sdk, reader, current)).value, RehydrateOne(sdk, reader, current, m).value, id);
    }
  }

  /** A current message shows its own image and no other. */
  lemma CurrentShows(sdk: Sdk, reader: Reader, excluded: set<string>, r: Receipt, id: string)
    requires CurrentOne(sdk, reader, excluded, r).Success? && r.id !in excluded
    ensures ShowCount(CurrentOne(sdk, reader, excluded, r).value, id)
         == if sdk.kind(r).ImageKind? && r.id == id then 1 else 0
  {
    hide ReadImage, ShowCount;
    var made := CurrentOne(sdk, reader, excluded, r).value;
    if made == [] {
      assert ShowCount([], id) == 0 by { NothingShows(id); }
    } else {
      var m := made[0];
      assert made == [m];
      ShowOne(m, id);
      if sdk.kind(r).ImageKind? {
        assert m.parts[1].ImagePart?;
        assert HasID([r], r.id) by { assert [r][0].id == r.id; }
      }
    }
  }

  lemma NothingShows(id: string)
    ensures ShowCount([], id) == 0
  {}

  predicate HasImage(sdk: Sdk, receipts: Receipts, id: string)
  {
    exists i :: 0 <= i < |receipts| && receipts[i].id == id && sdk.kind(receipts[i]).ImageKind?
  }

  lemma ImageAt(sdk: Sdk, receipts: Receipts, id: string)
    requires receipts != [] && DistinctIDs(receipts)
    ensures var init, r := receipts[..|receipts| - 1], receipts[|receipts| - 1];
            && (HasImage(sdk, receipts, id) <==> HasImage(sdk, init, id) || (r.id == id && sdk.kind(r).ImageKind?))
            && !(HasImage(sdk, init, id) && r.id == id)
  {
    var init, r := receipts[..|receipts| - 1], receipts[|receipts| - 1];
    forall i | 0 <= i < |init|
      ensures init[i] == receipts[i] && receipts[i].id != r.id
    {}
  }

  lemma {:induction false} CurrentShowsOnce(
    sdk: Sdk, reader: Reader, excluded: set<string>, receipts: Receipts, id: string)
    requires DistinctIDs(receipts) && (forall i :: 0 <= i < |receipts| ==> receipts[i].id !in excluded)
    requires Collect(receipts, CurrentMaker(sdk, reader, excluded)).Success?
    ensures ShowCount(Collect(receipts, CurrentMaker(sdk, reader, excluded)).value, id)
         == if HasImage(sdk, receipts, id) then 1 else 0
  {
    hide CurrentOne, Shows, HasImage;
    if receipts == [] {
      NoImages(sdk, id);
    } else {
      var init, r := receipts[..|receipts| - 1], receipts[|receipts| - 1];
      CollectPrefix(receipts, CurrentMaker(sdk, reader, excluded));
      CurrentShowsOnce(sdk, reader, excluded, init, id);
      CurrentShows(sdk, reader, excluded, r, id);
      ShowConcat(Collect(init, CurrentMaker(sdk, reader, excluded)).value, CurrentOne(sdk, reader, excluded, r).value, id);
      ImageAt(sdk, receipts, id);
    }
  }

  lemma NoImages(sdk: Sdk, id: string)
    ensures !HasImage(sdk, [], id)
  {}

  /** The selected receipts are normalised and distinct, and their images within the caps. */
  lemma {:induction false} TallyMeaning(sdk: Sdk, parts: Receipts)
    requires Sound(sdk) && TallyAll(sdk, parts).Success?
    ensures var t := TallyAll(sdk, parts).value;
            && DistinctIDs(t.receipts) && AllNormal(sdk, t.receipts)
            && t.images == ImageCount(sdk, t.receipts) && t.bytes == ImageBytes(sdk, t.receipts)
            && (t.images > 0 ==> t.images <= sdk.imageCountMax && t.bytes <= sdk.imageBytesMax)
  {
    hide TallyOne;
    if parts != [] {
      var init, r := parts[..|parts| - 1], parts[|parts| - 1];
      TallyMeaning(sdk, init);
      TallyOneMeaning(sdk, TallyAll(sdk, init).value, r);
    }
  }

  lemma TallyOneMeaning(sdk: Sdk, before: Tally, r: Receipt)
    requires Sound(sdk) && TallyOne(sdk, before, r).Success?
    requires DistinctIDs(before.receipts) && AllNormal(sdk, before.receipts)
    requires before.images == ImageCount(sdk, before.receipts) && before.bytes == ImageBytes(sdk, before.receipts)
    requires before.images > 0 ==> before.images <= sdk.imageCountMax && before.bytes <= sdk.imageBytesMax
    ensures var t := TallyOne(sdk, before, r).value;
            && DistinctIDs(t.receipts) && AllNormal(sdk, t.receipts)
            && t.images == ImageCount(sdk, t.receipts) && t.bytes == ImageBytes(sdk, t.receipts)
            && (t.images > 0 ==> t.images <= sdk.imageCountMax && t.bytes <= sdk.imageBytesMax)
  {
    hide Normal;
    NormalizedIsNormal(sdk, r);
    var normal := sdk.normalize(r).value;
    if !HasID(before.receipts, normal.id) {
      var all := before.receipts + [normal];
      assert all[..|before.receipts|] == before.receipts;
      assert DistinctIDs(all) && AllNormal(sdk, all);
    }
  }

  lemma NormalizedIsNormal(sdk: Sdk, r: Receipt)
    requires Sound(sdk) && sdk.normalize(r).Some?
    ensures Normal(sdk, sdk.normalize(r).value)
  {}

  function ImageCount(sdk: Sdk, receipts: Receipts): nat
  {
    if receipts == [] then 0
    else ImageCount(sdk, receipts[..|receipts| - 1]) + (if sdk.kind(receipts[|receipts| - 1]).ImageKind? then 1 else 0)
  }

  function ImageBytes(sdk: Sdk, receipts: Receipts): int
  {
    if receipts == [] then 0
    else
      var r := receipts[|receipts| - 1];
      ImageBytes(sdk, receipts[..|receipts| - 1]) + (if sdk.kind(r).ImageKind? then r.sizeBytes else 0)
  }

  lemma {:induction false} HistoricalIsOther(sdk: Sdk, current: set<string>, messages: Messages)
    ensures HistoricalIDs(sdk, current, messages) !! current
  {
    hide IDs, ReceiptsOf;
    if messages != [] {
      HistoricalIsOther(sdk, current, messages[..|messages| - 1]);
    }
  }

  /** No placeholder shows an attachment of the current turn. */
  lemma HistoryShows(sdk: Sdk, turn: Turn, messages: Messages, id: string)
    requires Sound(sdk) && Rehydrated(sdk, turn, messages).Success?
    requires HasID(ReceiptsForModel(sdk, turn.parts).value, id)
    ensures var ids := IDs(ReceiptsForModel(sdk, turn.parts).value);
            ShowCount(Collect(Expand(sdk, Strip(sdk, messages)).value, Rehydrator(sdk, turn.reader, ids)).value, id) == 0
  {
    hide Strip, Expand, Collect, HistoricalIDs, IDs, Rehydrator, CurrentMaker, AtBoundary, Sound, HasImage, Shows,
         ShowCount, TallyAll, DistinctIDs, AllNormal, Placeholder, CurrentOnly, HasID;
    var expanded, receipts := Expand(sdk, Strip(sdk, messages)).value, ReceiptsForModel(sdk, turn.parts).value;
    IDsAre(receipts);
    ExpandedAtBoundary(sdk, messages);
    ExpandedShowsNot(sdk, messages, id);
    HistoryShowsNot(sdk, turn.reader, IDs(receipts), expanded, id);
  }

  /** Exactly one message shows an image of the current turn, none shows anything else of it. */
  lemma CountCurrentImages(sdk: Sdk, turn: Turn, messages: Messages, id: string)
    requires Sound(sdk) && Rehydrated(sdk, turn, messages).Success?
    requires HasID(ReceiptsForModel(sdk, turn.parts).value, id)
    ensures ShowCount(Rehydrated(sdk, turn, messages).value, id)
         == if HasImage(sdk, ReceiptsForModel(sdk, turn.parts).value, id) then 1 else 0
  {
    hide Strip, Expand, Collect, HistoricalIDs, IDs, Rehydrator, CurrentMaker, AtBoundary, Sound, HasImage, Shows,
         ShowCount, TallyAll, DistinctIDs, AllNormal, Placeholder, CurrentOnly, HasID;
    var expanded, receipts := Expand(sdk, Strip(sdk, messages)).value, ReceiptsForModel(sdk, turn.parts).value;
    var ids := IDs(receipts);
    var excluded := HistoricalIDs(sdk, ids, expanded);
    var historical := Collect(expanded, Rehydrator(sdk, turn.reader, ids)).value;
    TallyMeaning(sdk, turn.parts);
    HistoryShows(sdk, turn, messages, id);
    HistoricalIsOther(sdk, ids, expanded);
    forall i | 0 <= i < |receipts|
      ensures receipts[i].id !in excluded
    {
      InIDs(receipts, i);
    }
    assert receipts != [] by { HasIDMeans(receipts, id); }
    CurrentShowsOnce(sdk, turn.reader, excluded, receipts, id);
    ShowConcat(historical, Collect(receipts, CurrentMaker(sdk, turn.reader, excluded)).value, id);
  }

  lemma InIDs(receipts: Receipts, i: nat)
    requires i < |receipts|
    ensures receipts[i].id in IDs(receipts)
  {}

  lemma HasIDMeans(receipts: Receipts, id: string)
    requires HasID(receipts, id)
    ensures receipts != []
  {}

  lemma {:induction false} StripPlain(sdk: Sdk, messages: Messages, p: Message -> bool)
    requires forall i :: 0 <= i < |messages| ==> Placeholder(messages[i]) || CurrentOnly(messages[i]) || p(messages[i])
    ensures forall i :: 0 <= i < |Strip(sdk, messages)| ==> Placeholder(Strip(sdk, messages)[i]) || p(Strip(sdk, messages)[i])
  {
    hide Mention, ReceiptsOf;
    if messages != [] {
      StripPlain(sdk, messages[..|messages| - 1], p);
    }
  }

  lemma OnlyAttachmentsShow(m: Message, id: string)
    requires Shows(m, id)
    ensures Placeholder(m) || CurrentOnly(m)
  {
    hide HasID;
  }

  lemma ExpandedShowsNot(sdk: Sdk, messages: Messages, id: string)
    requires Sound(sdk) && Expand(sdk, Strip(sdk, messages)).Success?
    ensures var expanded := Expand(sdk, Strip(sdk, messages)).value;
            forall i :: 0 <= i < |expanded| && !Placeholder(expanded[i]) ==> !Shows(expanded[i], id)
  {
    hide Strip, Shows, Collect, ExpandOne, Placeholder, CurrentOnly;
    var stripped := Strip(sdk, messages);
    var p := (m: Message) => Placeholder(m) || !Shows(m, id);
    forall i | 0 <= i < |messages|
      ensures Placeholder(messages[i]) || CurrentOnly(messages[i]) || !Shows(messages[i], id)
    {
      if Shows(messages[i], id) {
        OnlyAttachmentsShow(messages[i], id);
      }
    }
    StripPlain(sdk, messages, m => !Shows(m, id));
    forall m | m in stripped && Expander(sdk)(m).Success?
      ensures forall i :: 0 <= i < |Expander(sdk)(m).value| ==> p(Expander(sdk)(m).value[i])
    {
      ExpandOnePlain(sdk, m);
    }
    CollectAll(stripped, Expander(sdk), p);
  }

  lemma ExpandOnePlain(sdk: Sdk, m: Message)
    requires ExpandOne(sdk, m).Success?
    ensures !Placeholder(m) ==> ExpandOne(sdk, m) == Success([m])
    ensures Placeholder(m) ==>
              forall i :: 0 <= i < |ExpandOne(sdk, m).value| ==> Placeholder(ExpandOne(sdk, m).value[i])
  {
    hide Canonicalized, Placeholders;
    if Placeholder(m) {
      var receipts := ReadReceipts(sdk, m).value;
      forall i | 0 <= i < |receipts|
        ensures Placeholder(Placeholders(sdk, receipts)[i])
      {
        PlaceholdersAt(sdk, receipts, i);
      }
    }
  }

  // ---------------------------------------------------------------- with the right bytes

  /** The message carries exactly the caption and the bytes that the store gave for this receipt. */
  predicate Carries(sdk: Sdk, reader: Reader, m: Message, r: Receipt)
  {
    && m.Message? && ReadImage(sdk, reader, r).Some?
    && m.parts == ImageParts(sdk, r, ReadImage(sdk, reader, r).value)
    && sdk.valid(r, ReadImage(sdk, reader, r).value)
  }

  lemma {:induction false} NoneShows(messages: Messages, id: string)
    requires ShowCount(messages, id) == 0
    ensures forall i :: 0 <= i < |messages| ==> !Shows(messages[i], id)
  {
    hide Shows;
    if messages != [] {
      NoneShows(messages[..|messages| - 1], id);
    }
  }

  lemma {:induction false} OneShows(messages: Messages, id: string) returns (at: nat)
    requires ShowCount(messages, id) == 1
    ensures at < |messages| && Shows(messages[at], id)
    ensures forall i :: 0 <= i < |messages| && i != at ==> !Shows(messages[i], id)
  {
    hide Shows;
    var init := messages[..|messages| - 1];
    if Shows(messages[|messages| - 1], id) {
      NoneShows(init, id);
      at := |messages| - 1;
      assert forall i :: 0 <= i < |init| ==> init[i] == messages[i];
    } else {
      at := OneShows(init, id);
      assert forall i :: 0 <= i < |init| ==> init[i] == messages[i];
    }
  }

  /** A current message that shows an ID was made for the receipt with that ID. */
  lemma CurrentCarries(sdk: Sdk, reader: Reader, excluded: set<string>, x: Receipt, r: Receipt, m: Message)
    requires CurrentOne(sdk, reader, excluded, x).Success? && m in CurrentOne(sdk, reader, excluded, x).value
    requires Shows(m, r.id) && (x.id == r.id ==> x == r)
    ensures Carries(sdk, reader, m, r)
  {
    hide ImageParts, ReadWhole;
    assert m.marks.receipts == Listed([x]);
    assert HasID([x], r.id);
  }

  lemma CurrentAllCarry(sdk: Sdk, reader: Reader, excluded: set<string>, receipts: Receipts, k: nat)
    requires DistinctIDs(receipts) && k < |receipts|
    requires Collect(receipts, CurrentMaker(sdk, reader, excluded)).Success?
    ensures var out := Collect(receipts, CurrentMaker(sdk, reader, excluded)).value;
            forall i :: 0 <= i < |out| && Shows(out[i], receipts[k].id) ==> Carries(sdk, reader, out[i], receipts[k])
  {
    hide Collect, CurrentOne, Shows, Carries;
    var r := receipts[k];
    var maker := CurrentMaker(sdk, reader, excluded);
    var p := (m: Message) => Shows(m, r.id) ==> Carries(sdk, reader, m, r);
    forall x | x in receipts && maker(x).Success?
      ensures forall i :: 0 <= i < |maker(x).value| ==> p(maker(x).value[i])
    {
      SameReceipt(receipts, k, x);
      forall i | 0 <= i < |maker(x).value| && Shows(maker(x).value[i], r.id)
        ensures Carries(sdk, reader, maker(x).value[i], r)
      {
        CurrentCarries(sdk, reader, excluded, x, r, maker(x).value[i]);
      }
    }
    CollectAll(receipts, maker, p);
  }

  lemma SameReceipt(receipts: Receipts, k: nat, x: Receipt)
    requires DistinctIDs(receipts) && k < |receipts| && x in receipts
    ensures x.id == receipts[k].id ==> x == receipts[k]
  {
    var j :| 0 <= j < |receipts| && receipts[j] == x;
  }

  /**
    Each image of the current turn is shown by exactly one attachment message, with the
    caption of its receipt and exactly the verified bytes the store gave for it; no other
    message that names its ID has an image part.
   */
  lemma EachCurrentImageOnce(sdk: Sdk, turn: Turn, messages: Messages, k: nat) returns (at: nat)
    requires Sound(sdk) && Rehydrated(sdk, turn, messages).Success?
    requires var receipts := ReceiptsForModel(sdk, turn.parts).value;
             k < |receipts| && sdk.kind(receipts[k]).ImageKind?
    ensures var input, r := Rehydrated(sdk, turn, messages).value, ReceiptsForModel(sdk, turn.parts).value[k];
            && at < |input| && Shows(input[at], r.id) && Carries(sdk, turn.reader, input[at], r)
            && forall i :: 0 <= i < |input| && i != at ==> !Shows(input[i], r.id)
  {
    hide Strip, Expand, Collect, HistoricalIDs, IDs, Rehydrator, CurrentMaker, AtBoundary, Sound, HasImage, Shows,
         ShowCount, TallyAll, AllNormal, Placeholder, CurrentOnly, HasID, Carries, DistinctIDs;
    var expanded, receipts := Expand(sdk, Strip(sdk, messages)).value, ReceiptsForModel(sdk, turn.parts).value;
    var r, ids := receipts[k], IDs(receipts);
    var excluded := HistoricalIDs(sdk, ids, expanded);
    var historical := Collect(expanded, Rehydrator(sdk, turn.reader, ids)).value;
    var current := Collect(receipts, CurrentMaker(sdk, turn.reader, excluded)).value;
    ReceiptNamed(sdk, receipts, k);
    TallyMeaning(sdk, turn.parts);
    CountCurrentImages(sdk, turn, messages, r.id);
    HistoryShows(sdk, turn, messages, r.id);
    CurrentAllCarry(sdk, turn.reader, excluded, receipts, k);
    NoneShows(historical, r.id);
    at := OneShows(historical + current, r.id);
    assert at >= |historical|;
    assert (historical + current)[at] == current[at - |historical|];
  }

  lemma ReceiptNamed(sdk: Sdk, receipts: Receipts, k: nat)
    requires k < |receipts| && sdk.kind(receipts[k]).ImageKind?
    ensures HasID(receipts, receipts[k].id) && HasImage(sdk, receipts, receipts[k].id)
  {}
}
