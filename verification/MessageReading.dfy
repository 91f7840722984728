/**
  The two conversions between durable chat messages and model messages, message by message
  and on the fields, and the validator of placeholders on indices.
 */
module MessageReading {
  import opened Wrappers
  import opened Text
  import opened Chat
  import opened ModelMessages
  import opened AttachmentMessages
  import Seqs

  // ---------------------------------------------------------------- first receipts

  /** Some receipt in front has this ID. */
  predicate Seen(receipts: Receipts, id: string)
  {
    exists i :: 0 <= i < |receipts| && receipts[i].id == id
  }

  /** The first receipt of each ID. */
  function Firsts(receipts: Receipts): Receipts
  {
    if receipts == [] then []
    else
      var init, last := receipts[..|receipts| - 1], receipts[|receipts| - 1];
      Firsts(init) + (if Seen(init, last.id) then [] else [last])
  }

  lemma SeenConcat(a: Receipts, b: Receipts, id: string)
    ensures Seen(a + b, id) <==> Seen(a, id) || Seen(b, id)
  {
    if i :| 0 <= i < |a| && a[i].id == id {
      assert (a + b)[i] == a[i];
    }
    if i :| 0 <= i < |b| && b[i].id == id {
      assert (a + b)[|a| + i] == b[i];
    }
  }

  lemma {:induction false} FirstsSeen(receipts: Receipts, id: string)
    ensures Seen(Firsts(receipts), id) <==> Seen(receipts, id)
  {
    hide Seen;
    if receipts != [] {
      var init, last := receipts[..|receipts| - 1], receipts[|receipts| - 1];
      assert receipts == init + [last];
      FirstsSeen(init, id);
      SeenConcat(init, [last], id);
      SeenConcat(Firsts(init), if Seen(init, last.id) then [] else [last], id);
      OneSeen(last, id);
    }
  }

  lemma OneSeen(r: Receipt, id: string)
    ensures Seen([r], id) <==> r.id == id
    ensures !Seen([], id)
  {
    assert [r][0] == r;
  }

  lemma FirstsSnoc(receipts: Receipts, r: Receipt)
    ensures Firsts(receipts + [r]) == if Seen(receipts, r.id) then Firsts(receipts) else Firsts(receipts) + [r]
  {
    assert (receipts + [r])[..|receipts|] == receipts;
  }

  lemma {:induction false} AppendFirsts(a: Receipts, b: Receipts)
    ensures Append(Firsts(a), b) == Firsts(a + b)
    decreases |b|
  {
    hide Firsts, Seen, HasID;
    if b == [] {
      assert a + b == a;
    } else {
      assert HasID(Firsts(a), b[0].id) <==> Seen(Firsts(a), b[0].id) by { SeenIsHas(Firsts(a), b[0].id); }
      FirstsSeen(a, b[0].id);
      FirstsSnoc(a, b[0]);
      AppendFirsts(a + [b[0]], b[1..]);
      assert a + [b[0]] + b[1..] == a + b;
    }
  }

  lemma SeenIsHas(receipts: Receipts, id: string)
    ensures HasID(receipts, id) <==> Seen(receipts, id)
  {}

  lemma {:induction false} FirstsInner(a: Receipts, b: Receipts)
    ensures Firsts(a + Firsts(b)) == Firsts(a + b)
    decreases |b|
  {
    hide Seen, Firsts;
    if b == [] {
      NothingFirst();
    } else {
      var init, last := b[..|b| - 1], b[|b| - 1];
      FirstsInner(a, init);
      assert b == init + [last] && a + b == (a + init) + [last];
      FirstsSnoc(init, last);
      FirstsSnoc(a + init, last);
      SeenConcat(a, init, last.id);
      if !Seen(init, last.id) {
        assert a + Firsts(b) == (a + Firsts(init)) + [last];
        FirstsSnoc(a + Firsts(init), last);
        SeenConcat(a, Firsts(init), last.id);
        FirstsSeen(init, last.id);
      }
    }
  }

  // ---------------------------------------------------------------- recorded receipts

  predicate AllReadable(sdk: Sdk, receipts: Receipts)
  {
    forall i :: 0 <= i < |receipts| ==> sdk.normalize(receipts[i]).Some?
  }

  /** The receipts in normal form. */
  function Normals(sdk: Sdk, receipts: Receipts): Receipts
    requires AllReadable(sdk, receipts)
  {
    seq(|receipts|, (i: nat) requires i < |receipts| && sdk.normalize(receipts[i]).Some? => sdk.normalize(receipts[i]).value)
  }

  lemma {:induction false} NormalsAre(sdk: Sdk, receipts: Receipts)
    ensures NormalizeAll(sdk, receipts).Some? <==> AllReadable(sdk, receipts)
    ensures AllReadable(sdk, receipts) ==> NormalizeAll(sdk, receipts) == Some(Normals(sdk, receipts))
  {
    if receipts != [] {
      assert receipts == [receipts[0]] + receipts[1..];
      NormalsAre(sdk, receipts[1..]);
      if AllReadable(sdk, receipts) {
        assert Normals(sdk, receipts) == [sdk.normalize(receipts[0]).value] + Normals(sdk, receipts[1..]);
      }
    }
  }

  lemma CanonicalByFields(sdk: Sdk, receipts: Receipts)
    ensures Canonicalized(sdk, receipts) == if AllReadable(sdk, receipts) then Some(Firsts(Normals(sdk, receipts))) else None
  {
    hide Append, Firsts, AllReadable, Normals;
    NormalsAre(sdk, receipts);
    if AllReadable(sdk, receipts) {
      var all := Normals(sdk, receipts);
      assert Firsts([]) == [] by { NothingFirst(); }
      AppendFirsts([], all);
      assert [] + all == all;
    }
  }

  lemma NothingFirst()
    ensures Firsts([]) == []
  {}

  /** A placeholder whose receipts can be read back. */
  predicate Readable(sdk: Sdk, m: Message)
  {
    && m.Message? && m.marks.historical && m.marks.receipts.Listed? && m.marks.receipts.receipts != []
    && AllReadable(sdk, m.marks.receipts.receipts)
  }

  /** The normal receipts recorded on a message. */
  function Recorded(sdk: Sdk, m: Message): Receipts
  {
    if Readable(sdk, m) then Normals(sdk, m.marks.receipts.receipts) else []
  }

  lemma RecordedIs(sdk: Sdk, m: Message)
    ensures ReceiptsOf(sdk, m) == Firsts(Recorded(sdk, m))
    ensures m.Message? && m.marks.historical ==>
              ReadReceipts(sdk, m) == if Readable(sdk, m) then Some(Firsts(Recorded(sdk, m))) else None
  {
    hide Canonicalized, Firsts, AllReadable, Normals;
    NothingFirst();
    if m.Message? && m.marks.receipts.Listed? {
      CanonicalByFields(sdk, m.marks.receipts.receipts);
    }
  }

  /** All receipts recorded on these messages, in order. */
  function RecordedOn(sdk: Sdk, messages: Messages): Receipts
  {
    if messages == [] then []
    else RecordedOn(sdk, messages[..|messages| - 1]) + Recorded(sdk, messages[|messages| - 1])
  }

  // ---------------------------------------------------------------- model to chat

  /** A message of its own: not nil, no placeholder and not of the running turn alone. */
  predicate Plain(m: Message) { m.Message? && !m.marks.historical && !m.marks.current }

  predicate PlainAt(messages: Messages, i: nat) { i < |messages| && Plain(messages[i]) }

  predicate SameCalls(calls: seq<ToolCall>, r: seq<ToolCall>)
  {
    |r| == |calls| && forall i :: 0 <= i < |calls| ==>
      && r[i].id == calls[i].id && r[i].name == calls[i].name && r[i].arguments == calls[i].arguments
      && r[i].extra == calls[i].extra && r[i].kind == if Trim(calls[i].kind) == "" then "function" else Trim(calls[i].kind)
  }

  predicate Named(role: Role, name: string)
  {
    match role
    case System => name == "system"
    case User => name == "user"
    case Assistant => name == "assistant"
    case Tool => name == "tool"
  }

  const KIND := "app_studio_synthetic_message_kind"
  const EVIDENCE := "workspace_mutation_evidence"

  /** Only the mark of synthetic evidence survives. */
  function Mark(extra: Extra): Extra
  {
    if KIND in extra && extra[KIND] == EVIDENCE then map[KIND := EVIDENCE] else map[]
  }

  /** The chat message of `m`, with these attachments. */
  predicate Says(m: Message, attachments: Receipts, c: ChatMessage)
  {
    && m.Message? && Named(m.role, c.role) && c.content == m.content && c.toolCallID == m.toolCallID && c.itemID == ""
    && c.name == (if m.role == Tool && m.name == "" then m.toolName else m.name)
    && SameCalls(m.toolCalls, c.toolCalls) && c.extra == Mark(m.extra)
    && c.attachments == if m.role == User then attachments else []
  }

  predicate Rising(positions: seq<nat>)
  {
    forall j, k :: 0 <= j < k < |positions| ==> positions[j] < positions[k]
  }

  /** Where the messages behind chat message `j` end. */
  function Until(messages: Messages, positions: seq<nat>, j: nat): nat
    requires j < |positions|
  {
    if j + 1 < |positions| then positions[j + 1] else |messages|
  }

  predicate InRange(messages: Messages, positions: seq<nat>)
  {
    Rising(positions) && forall j :: 0 <= j < |positions| ==> positions[j] < |messages|
  }

  /** Chat message `j` is the plain message there, with the first receipt of each ID recorded behind it. */
  predicate SaysAt(sdk: Sdk, messages: Messages, positions: seq<nat>, j: nat, c: ChatMessage)
    requires j < |positions| && InRange(messages, positions)
  {
    var p, q := positions[j], Until(messages, positions, j);
    Says(messages[p], Firsts(RecordedOn(sdk, messages[p + 1..q])), c)
  }

  ghost predicate AreSaid(sdk: Sdk, messages: Messages, positions: seq<nat>, chat: seq<ChatMessage>)
  {
    && |chat| == |positions| && InRange(messages, positions)
    && (forall i: nat :: i in positions <==> PlainAt(messages, i))
    && forall j :: 0 <= j < |chat| ==> SaysAt(sdk, messages, positions, j, chat[j])
  }

  lemma RecordedGrows(sdk: Sdk, messages: Messages, m: Message, p: nat)
    requires p <= |messages|
    ensures (messages + [m])[p..] == messages[p..] + [m]
    ensures RecordedOn(sdk, messages[p..] + [m]) == RecordedOn(sdk, messages[p..]) + Recorded(sdk, m)
  {
    assert (messages[p..] + [m])[..|messages[p..]|] == messages[p..];
  }

  lemma PlainStep(sdk: Sdk, messages: Messages, positions: seq<nat>, chat: seq<ChatMessage>, m: Message)
    requires AreSaid(sdk, messages, positions, chat) && Plain(m)
    ensures AreSaid(sdk, messages + [m], positions + [|messages|], chat + [ChatOf(m)])
  {
    assert m.Message?;
    hide Plain, SaysAt;
    var all, ps := messages + [m], positions + [|messages|];
    forall j | 0 <= j < |ps|
      ensures SaysAt(sdk, all, ps, j, (chat + [ChatOf(m)])[j])
    {
      if j < |positions| {
        SaidStays(sdk, messages, positions, j, chat[j], m);
      } else {
        SaidLast(sdk, messages, positions, m);
      }
    }
    PlainGrows(messages, positions, m);
  }

  lemma SaidStays(sdk: Sdk, messages: Messages, positions: seq<nat>, j: nat, c: ChatMessage, m: Message)
    requires InRange(messages, positions) && j < |positions| && SaysAt(sdk, messages, positions, j, c)
    ensures SaysAt(sdk, messages + [m], positions + [|messages|], j, c)
  {
    hide Says, RecordedOn, Firsts;
    var all, ps := messages + [m], positions + [|messages|];
    assert Until(all, ps, j) == Until(messages, positions, j);
    var p, q := positions[j], Until(messages, positions, j);
    assert all[p + 1..q] == messages[p + 1..q] && all[p] == messages[p];
  }

  lemma SaidLast(sdk: Sdk, messages: Messages, positions: seq<nat>, m: Message)
    requires InRange(messages, positions) && Plain(m)
    ensures SaysAt(sdk, messages + [m], positions + [|messages|], |positions|, ChatOf(m))
  {
    hide Says, RecordedOn, Firsts;
    var all := messages + [m];
    assert all[|messages| + 1..|all|] == [];
    NothingRecorded(sdk);
    PlainSays(m);
  }

  lemma PlainGrows(messages: Messages, positions: seq<nat>, m: Message)
    requires forall i: nat :: i in positions <==> PlainAt(messages, i)
    ensures Plain(m) ==> forall i: nat :: i in positions + [|messages|] <==> PlainAt(messages + [m], i)
    ensures !Plain(m) ==> forall i: nat :: i in positions <==> PlainAt(messages + [m], i)
  {
    hide Plain;
    forall i: nat
      ensures PlainAt(messages + [m], i) <==> PlainAt(messages, i) || (i == |messages| && Plain(m))
    {
      assert i < |messages| ==> (messages + [m])[i] == messages[i];
    }
  }

  lemma NothingRecorded(sdk: Sdk)
    ensures Firsts(RecordedOn(sdk, [])) == []
  {}

  lemma PlainSays(m: Message)
    requires Plain(m)
    ensures Says(m, [], ChatOf(m))
  {
    hide Trim;
  }

  /** A message that is not plain only adds receipts to the newest chat message. */
  lemma OtherStep(sdk: Sdk, messages: Messages, positions: seq<nat>, chat: seq<ChatMessage>, m: Message)
    requires AreSaid(sdk, messages, positions, chat) && !Plain(m)
    ensures AreSaid(sdk, messages + [m], positions, Folded(sdk, chat, m))
  {
    hide Plain, SaysAt, Folded, Attaches;
    var next := Folded(sdk, chat, m);
    PlainGrows(messages, positions, m);
    FoldedAttaches(sdk, chat, m);
    forall j | 0 <= j < |positions|
      ensures SaysAt(sdk, messages + [m], positions, j, next[j])
    {
      if j < |positions| - 1 {
        SaidUnchanged(sdk, messages, positions, j, chat[j], m);
      } else {
        SaidAttached(sdk, messages, positions, j, chat[j], m, next[j]);
      }
    }
  }

  lemma SaidUnchanged(sdk: Sdk, messages: Messages, positions: seq<nat>, j: nat, c: ChatMessage, m: Message)
    requires InRange(messages, positions) && j < |positions| - 1 && SaysAt(sdk, messages, positions, j, c)
    ensures SaysAt(sdk, messages + [m], positions, j, c)
  {
    hide Says, RecordedOn, Firsts;
    var p, q := positions[j], positions[j + 1];
    assert (messages + [m])[p + 1..q] == messages[p + 1..q] && (messages + [m])[p] == messages[p];
  }

  lemma SaidAttached(
    sdk: Sdk, messages: Messages, positions: seq<nat>, j: nat, c: ChatMessage, m: Message, next: ChatMessage)
    requires InRange(messages, positions) && j == |positions| - 1 && SaysAt(sdk, messages, positions, j, c)
    requires Attaches(sdk, c, m, next)
    ensures SaysAt(sdk, messages + [m], positions, j, next)
  {
    hide Says, RecordedOn, Firsts, Attaches, Recorded;
    var all, p := messages + [m], positions[j];
    RecordedGrows(sdk, messages, m, p + 1);
    assert messages[p + 1..|messages|] == messages[p + 1..] && all[p + 1..|all|] == all[p + 1..];
    SaysMore(sdk, messages[p], RecordedOn(sdk, messages[p + 1..]), c, m, next);
  }

  /** What folding a message in does to the newest chat message. */
  predicate Attaches(sdk: Sdk, c: ChatMessage, m: Message, next: ChatMessage)
  {
    next == if c.role == "user" then c.(attachments := Append(c.attachments, Firsts(Recorded(sdk, m)))) else c
  }

  lemma FoldedAttaches(sdk: Sdk, chat: seq<ChatMessage>, m: Message)
    requires !Plain(m)
    ensures var next := Folded(sdk, chat, m);
            && |next| == |chat| && (forall j :: 0 <= j < |chat| - 1 ==> next[j] == chat[j])
            && (chat != [] ==> Attaches(sdk, chat[|chat| - 1], m, next[|chat| - 1]))
  {
    hide Canonicalized, Normals, AllReadable, Append, Firsts;
    RecordedIs(sdk, m);
    NothingFirst();
    if chat != [] {
      assert Append(chat[|chat| - 1].attachments, []) == chat[|chat| - 1].attachments by { AppendNone(chat[|chat| - 1].attachments); }
    }
  }

  lemma AppendNone(receipts: Receipts)
    ensures Append(receipts, []) == receipts
  {}

  lemma SaysMore(sdk: Sdk, plain: Message, recorded: Receipts, c: ChatMessage, m: Message, next: ChatMessage)
    requires Says(plain, Firsts(recorded), c) && Attaches(sdk, c, m, next)
    ensures Says(plain, Firsts(recorded + Recorded(sdk, m)), next)
  {
    hide Firsts, Recorded, Append, SameCalls, Mark;
    AppendFirsts(recorded, Firsts(Recorded(sdk, m)));
    FirstsInner(recorded, Recorded(sdk, m));
  }

  /**
    The durable chat is one message for each plain message, in order, with its content, name,
    call ID and calls; a user message carries the first receipt of each ID that the
    placeholders up to the next plain message record readably, in order.
   */
  lemma {:induction false} ChatByPosition(sdk: Sdk, messages: Messages) returns (positions: seq<nat>)
    ensures AreSaid(sdk, messages, positions, ToChat(sdk, messages))
  {
    hide Plain, Folded, AreSaid;
    if messages == [] {
      positions := [];
      NothingSaid(sdk);
    } else {
      var init, m := messages[..|messages| - 1], messages[|messages| - 1];
      positions := ChatByPosition(sdk, init);
      assert messages == init + [m];
      if Plain(m) {
        PlainFolded(sdk, ToChat(sdk, init), m);
        PlainStep(sdk, init, positions, ToChat(sdk, init), m);
        positions := positions + [|init|];
      } else {
        OtherStep(sdk, init, positions, ToChat(sdk, init), m);
      }
    }
  }

  lemma PlainFolded(sdk: Sdk, chat: seq<ChatMessage>, m: Message)
    requires Plain(m)
    ensures Folded(sdk, chat, m) == chat + [ChatOf(m)]
  {}

  lemma NothingSaid(sdk: Sdk)
    ensures AreSaid(sdk, [], [], [])
  {}

  // ---------------------------------------------------------------- chat to model

  predicate KnownRole(name: string) { name == "system" || name == "user" || name == "assistant" || name == "tool" }

  predicate Convertible(sdk: Sdk, c: ChatMessage)
  {
    KnownRole(c.role) && (c.role == "user" ==> AllReadable(sdk, c.attachments))
  }

  /** The model message of `c` itself: calls for an assistant, name and call ID for a tool. */
  predicate Means(c: ChatMessage, m: Message)
  {
    && m.Message? && Named(m.role, c.role) && m.content == c.content && m.name == "" && m.parts == []
    && m.marks == Marks(false, false, None, None, Absent) && m.extra == Mark(c.extra)
    && m.toolName == (if c.role == "tool" then c.name else "")
    && m.toolCallID == (if c.role == "tool" then c.toolCallID else "")
    && SameCalls(if c.role == "assistant" then c.toolCalls else [], m.toolCalls)
  }

  /** The placeholder of one receipt. */
  predicate Holds(sdk: Sdk, r: Receipt, m: Message)
  {
    && m.Message? && m.role == User && m.name == "" && m.toolName == "" && m.toolCallID == "" && m.toolCalls == []
    && m.extra == map[] && m.parts == [] && m.marks == Marks(true, false, Some(r.id), Some(r.filename), Listed([r]))
    && (sdk.kind(r) == TextKind ==> m.content == sdk.textMention(r))
    && (sdk.kind(r) == FileKind ==> m.content == sdk.fileMention(r))
    && (sdk.kind(r) == ImageKind ==> m.content == "")
  }

  /** One placeholder for each of these receipts, in order. */
  predicate AllHeld(sdk: Sdk, receipts: Receipts, out: Messages)
  {
    |out| == |receipts| && forall k :: 0 <= k < |receipts| ==> Holds(sdk, receipts[k], out[k])
  }

  predicate ModelBlock(sdk: Sdk, c: ChatMessage, out: Messages)
    requires Convertible(sdk, c)
  {
    out != [] && Means(c, out[0]) && AllHeld(sdk, if c.role == "user" then Firsts(Normals(sdk, c.attachments)) else [], out[1..])
  }

  lemma {:induction false} PlaceholdersHold(sdk: Sdk, receipts: Receipts)
    ensures AllHeld(sdk, receipts, Placeholders(sdk, receipts))
  {
    if receipts != [] {
      PlaceholdersHold(sdk, receipts[..|receipts| - 1]);
    }
  }

  lemma MeansIs(c: ChatMessage, role: Role)
    requires RoleOf(c.role) == Some(role)
    ensures Means(c, ModelOf(c, role))
  {
    hide Trim;
  }

  lemma BlockByFields(sdk: Sdk, c: ChatMessage)
    ensures Block(sdk, c).Success? <==> Convertible(sdk, c)
    ensures Convertible(sdk, c) ==> ModelBlock(sdk, c, Block(sdk, c).value)
    ensures Block(sdk, c).Failure? ==> Block(sdk, c).error == if KnownRole(c.role) then InvalidReceipt else UnsupportedRole
  {
    hide ModelOf, Means, Canonicalized, Firsts, Placeholders, Holds, Normals;
    CanonicalByFields(sdk, c.attachments);
    if RoleOf(c.role).Some? {
      var role := RoleOf(c.role).value;
      MeansIs(c, role);
      if c.role == "user" {
        if AllReadable(sdk, c.attachments) {
          var receipts := Firsts(Normals(sdk, c.attachments));
          PlaceholdersHold(sdk, receipts);
          assert ([ModelOf(c, role)] + Placeholders(sdk, receipts))[1..] == Placeholders(sdk, receipts);
          if c.attachments == [] {
            NoAttachments(sdk, c.attachments);
          }
        }
      }
    }
  }

  lemma NoAttachments(sdk: Sdk, receipts: Receipts)
    requires receipts == []
    ensures Firsts(Normals(sdk, receipts)) == []
  {}

  /** The first chat message that cannot be converted. */
  ghost predicate FirstRefused(sdk: Sdk, chats: seq<ChatMessage>, i: int)
  {
    && 0 <= i < |chats| && !Convertible(sdk, chats[i])
    && forall j :: 0 <= j < i ==> Convertible(sdk, chats[j])
  }

  ghost predicate AllConvertible(sdk: Sdk, chats: seq<ChatMessage>)
  {
    forall i :: 0 <= i < |chats| ==> Convertible(sdk, chats[i])
  }

  ghost predicate AreMeant(sdk: Sdk, chats: seq<ChatMessage>, blocks: seq<Messages>, messages: Messages)
  {
    && AllConvertible(sdk, chats) && |blocks| == |chats| && messages == Seqs.Flatten(blocks)
    && forall i :: 0 <= i < |chats| ==> ModelBlock(sdk, chats[i], blocks[i])
  }

  lemma MeantStep(
    sdk: Sdk, chats: seq<ChatMessage>, blocks: seq<Messages>, messages: Messages, c: ChatMessage, block: Messages)
    requires AreMeant(sdk, chats, blocks, messages) && Convertible(sdk, c) && ModelBlock(sdk, c, block)
    ensures AreMeant(sdk, chats + [c], blocks + [block], messages + block)
  {
    hide Convertible, ModelBlock;
    Seqs.FlattenAppend(blocks, [block]);
    OneBlock(block);
  }

  lemma OneBlock(block: Messages)
    ensures Seqs.Flatten([block]) == block
  {
    assert [block][1..] == [];
  }

  /**
    The model messages of a chat: for each chat message, in order, the message itself and
    behind a user message one placeholder for the first receipt of each ID. The conversion
    fails exactly at the first message with an unknown role or an unreadable receipt.
   */
  lemma {:induction false} ModelByFields(sdk: Sdk, chats: seq<ChatMessage>) returns (blocks: seq<Messages>)
    ensures FromChat(sdk, chats).Success? <==> AllConvertible(sdk, chats)
    ensures FromChat(sdk, chats).Success? ==> AreMeant(sdk, chats, blocks, FromChat(sdk, chats).value)
    ensures FromChat(sdk, chats).Failure? ==>
              exists i :: FirstRefused(sdk, chats, i)
                && FromChat(sdk, chats).error == if KnownRole(chats[i].role) then InvalidReceipt else UnsupportedRole
  {
    hide Block, Convertible, AreMeant, KnownRole;
    if chats == [] {
      blocks := [];
      NothingMeant(sdk);
    } else {
      var init, c := chats[..|chats| - 1], chats[|chats| - 1];
      assert chats == init + [c];
      blocks := ModelByFields(sdk, init);
      BlockByFields(sdk, c);
      if FromChat(sdk, init).Failure? {
        var i :| FirstRefused(sdk, init, i)
                && FromChat(sdk, init).error == if KnownRole(init[i].role) then InvalidReceipt else UnsupportedRole;
        assert chats[i] == init[i] && FirstRefused(sdk, chats, i);
      } else if Convertible(sdk, c) {
        MeantStep(sdk, init, blocks, FromChat(sdk, init).value, c, Block(sdk, c).value);
        blocks := blocks + [Block(sdk, c).value];
      } else {
        assert FirstRefused(sdk, chats, |init|);
      }
    }
  }

  lemma NothingMeant(sdk: Sdk)
    ensures AreMeant(sdk, [], [], [])
  {}

  // ---------------------------------------------------------------- the validator

  /** A user message `k` in front of `i`, with nothing but placeholders between. */
  predicate UserBehind(messages: Messages, k: int, i: int)
  {
    && 0 <= k < i <= |messages| && messages[k].Message? && messages[k].role == User && !messages[k].marks.historical
    && forall j :: k < j < i ==> messages[j].Message? && messages[j].marks.historical
  }

  lemma {:induction false} AnchorIs(messages: Messages, i: nat)
    requires i <= |messages|
    ensures forall k :: UserBehind(messages, k, i) ==> k == Anchor(messages, i)
    ensures var k := Anchor(messages, i); k >= 0 && HasRole(messages[k], User) ==> UserBehind(messages, k, i)
  {
    if i > 0 {
      AnchorIs(messages, i - 1);
      if Placeholder(messages[i - 1]) {
        forall k
          ensures UserBehind(messages, k, i) <==> UserBehind(messages, k, i - 1)
        {
        }
      }
    }
  }

  /**
    Historical messages are accepted if and only if every placeholder stands behind a user
    message, with only placeholders between, and has receipts that can all be read.
   */
  lemma AnchoredByFields(sdk: Sdk, messages: Messages)
    ensures Anchored(sdk, messages) <==>
              forall i: nat :: i < |messages| && messages[i].Message? && messages[i].marks.historical ==>
                Readable(sdk, messages[i]) && exists k :: UserBehind(messages, k, i)
  {
    hide Anchor, Readable, ReadReceipts, UserBehind;
    forall i: nat | i < |messages| && messages[i].Message? && messages[i].marks.historical
      ensures AnchoredAt(sdk, messages, i) <==> Readable(sdk, messages[i]) && exists k :: UserBehind(messages, k, i)
    {
      RecordedIs(sdk, messages[i]);
      AnchorIs(messages, i);
      if k :| UserBehind(messages, k, i) {
        BehindIsUser(messages, k, i);
      }
    }
  }

  lemma BehindIsUser(messages: Messages, k: int, i: nat)
    requires UserBehind(messages, k, i)
    ensures 0 <= k < i <= |messages| && HasRole(messages[k], User)
  {}
}
