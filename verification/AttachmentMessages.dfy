/**
  Durable chat messages and model messages: a receipt on a user message becomes a
  placeholder message behind it, and folds back onto it on the way out.

  The attachment SDK is not part of this model: receipt normalisation, attachment kinds,
  byte checks, wordings and limits are the fields of an Sdk value.
 */
module AttachmentMessages {
  import opened Wrappers
  import Seqs
  import opened Text
  import opened Chat
  import opened ModelMessages

  datatype Kind = ImageKind | TextKind | FileKind

  type Data = seq<int>

  datatype Sdk = Sdk(
    normalize: Receipt -> Option<Receipt>,
    kind: Receipt -> Kind,
    textMention: Receipt -> string,
    fileMention: Receipt -> string,
    caption: Receipt -> string,
    inline: (Receipt, Data) -> string,
    valid: (Receipt, Data) -> bool,
    inlineMax: int, imageMax: int, imageCountMax: int, imageBytesMax: int)

  /** Normalising a normalised receipt changes nothing. */
  ghost predicate Sound(sdk: Sdk)
  {
    forall r: Receipt :: sdk.normalize(r).Some? ==> sdk.normalize(sdk.normalize(r).value) == sdk.normalize(r)
  }

  predicate Normal(sdk: Sdk, r: Receipt) { sdk.normalize(r) == Some(r) }

  // ---------------------------------------------------------------- receipts

  type Receipts = seq<Receipt>

  predicate HasID(receipts: Receipts, id: string)
  {
    exists i :: 0 <= i < |receipts| && receipts[i].id == id
  }

  /** appendProjectAssistantAttachmentReceipts: each receipt whose ID is not there yet. */
  function Append(dst: Receipts, more: Receipts): Receipts
    decreases |more|
  {
    if more == [] then dst
    else Append(if HasID(dst, more[0].id) then dst else dst + [more[0]], more[1..])
  }

  /** Normalises every receipt; None when one cannot be. */
  function NormalizeAll(sdk: Sdk, receipts: Receipts): Option<Receipts>
  {
    if receipts == [] then Some([])
    else
      match sdk.normalize(receipts[0])
      case None => None
      case Some(first) =>
        match NormalizeAll(sdk, receipts[1..])
        case None => None
        case Some(rest) => Some([first] + rest)
  }

  /** Normalised and without duplicate IDs, the first of each kept. */
  function Canonicalized(sdk: Sdk, receipts: Receipts): Option<Receipts>
  {
    match NormalizeAll(sdk, receipts)
    case None => None
    case Some(all) => Some(Append([], all))
  }

  predicate DistinctIDs(receipts: Receipts)
  {
    forall i, j :: 0 <= i < j < |receipts| ==> receipts[i].id != receipts[j].id
  }

  predicate AllNormal(sdk: Sdk, receipts: Receipts)
  {
    forall i :: 0 <= i < |receipts| ==> Normal(sdk, receipts[i])
  }

  predicate Placeholder(m: Message) { m.Message? && m.marks.historical }

  predicate CurrentOnly(m: Message) { m.Message? && m.marks.current && !m.marks.historical }

  /** The receipts of a placeholder; None when its metadata is missing or malformed. */
  function ReadReceipts(sdk: Sdk, m: Message): Option<Receipts>
  {
    if !Placeholder(m) then Some([])
    else
      match m.marks.receipts
      case Absent => None
      case Unreadable => None
      case Listed(receipts) => if receipts == [] then None else Canonicalized(sdk, receipts)
  }

  function ReceiptsOf(sdk: Sdk, m: Message): Receipts
  {
    match ReadReceipts(sdk, m) case None => [] case Some(receipts) => receipts
  }

  function PlaceholderMessage(sdk: Sdk, r: Receipt): Message
  {
    var content :=
      match sdk.kind(r)
      case TextKind => sdk.textMention(r)
      case FileKind => sdk.fileMention(r)
      case ImageKind => "";
    UserMessage(content).(marks := Marks(true, false, Some(r.id), Some(r.filename), Listed([r])))
  }

  function Placeholders(sdk: Sdk, receipts: Receipts): (ms: Messages)
    ensures |ms| == |receipts|
  {
    if receipts == [] then []
    else Placeholders(sdk, receipts[..|receipts| - 1]) + [PlaceholderMessage(sdk, receipts[|receipts| - 1])]
  }

  // ---------------------------------------------------------------- model to chat

  function RoleName(role: Role): string
  {
    match role
    case System => "system" case User => "user" case Assistant => "assistant" case Tool => "tool"
  }

  function CallType(kind: string): string { if Trim(kind) == "" then "function" else Trim(kind) }

  function TypedCalls(calls: seq<ToolCall>): (r: seq<ToolCall>)
    ensures |r| == |calls|
    ensures forall i :: 0 <= i < |r| ==> r[i] == calls[i].(kind := CallType(calls[i].kind))
  {
    if calls == [] then [] else [calls[0].(kind := CallType(calls[0].kind))] + TypedCalls(calls[1..])
  }

  function ChatOf(m: Message): ChatMessage
    requires m.Message?
  {
    ChatMessage(
      RoleName(m.role), m.content, if m.role == Tool && m.name == "" then m.toolName else m.name,
      m.toolCallID, TypedCalls(m.toolCalls), [], DurableExtra(m.extra), "")
  }

  /** projectEinoMessagesToChat, one message further. */
  function Folded(sdk: Sdk, out: seq<ChatMessage>, m: Message): seq<ChatMessage>
  {
    if m.Nil? then out
    else if Placeholder(m) then
      var receipts := ReceiptsOf(sdk, m);
      if receipts != [] && out != [] && out[|out| - 1].role == "user" then
        var last := out[|out| - 1];
        out[|out| - 1 := last.(attachments := Append(last.attachments, receipts))]
      else out
    else if m.marks.current then out
    else out + [ChatOf(m)]
  }

  function ToChat(sdk: Sdk, messages: Messages): seq<ChatMessage>
  {
    if messages == [] then []
    else Folded(sdk, ToChat(sdk, messages[..|messages| - 1]), messages[|messages| - 1])
  }

  method MessagesToChat(sdk: Sdk, messages: Messages) returns (out: seq<ChatMessage>)
    ensures out == ToChat(sdk, messages)
  {
    out := [];
    for i := 0 to |messages|
      invariant out == ToChat(sdk, messages[..i])
    {
      hide Append, Canonicalized;
      assert messages[..i + 1][..i] == messages[..i];
      var m := messages[i];
      if m.Nil? {
        continue;
      }
      if Placeholder(m) {
        var receipts := ReceiptsOf(sdk, m);
        if |receipts| == 0 {
          continue;
        }
        if |out| > 0 && out[|out| - 1].role == "user" {
          var attachments := AppendReceipts(out[|out| - 1].attachments, receipts);
          out := out[|out| - 1 := out[|out| - 1].(attachments := attachments)];
        }
        continue;
      }
      if m.marks.current {
        continue;
      }
      out := out + [ChatOf(m)];
    }
    assert messages[..|messages|] == messages;
  }

  method AppendReceipts(dst: Receipts, receipts: Receipts) returns (out: Receipts)
    ensures out == Append(dst, receipts)
  {
    if |receipts| == 0 {
      return dst;
    }
    var seen: set<string> := {};
    for i := 0 to |dst|
      invariant forall id :: id in seen <==> exists j :: 0 <= j < i && dst[j].id == id
    {
      seen := seen + {dst[i].id};
    }
    out := dst;
    for i := 0 to |receipts|
      invariant Append(out, receipts[i..]) == Append(dst, receipts)
      invariant forall id :: id in seen <==> HasID(out, id)
    {
      assert receipts[i..][1..] == receipts[i + 1..];
      if receipts[i].id in seen {
        continue;
      }
      seen := seen + {receipts[i].id};
      HasIDAppend(out, receipts[i]);
      out := out + [receipts[i]];
    }
  }

  lemma HasIDAppend(dst: Receipts, r: Receipt)
    ensures forall id :: HasID(dst + [r], id) <==> HasID(dst, id) || id == r.id
  {
    var all := dst + [r];
    forall id
      ensures HasID(all, id) <==> HasID(dst, id) || id == r.id
    {
      if HasID(dst, id) {
        var i :| 0 <= i < |dst| && dst[i].id == id;
        assert all[i].id == id;
      }
      if id == r.id {
        assert all[|dst|].id == id;
      }
    }
  }

  // ---------------------------------------------------------------- chat to model

  datatype ConvertError = UnsupportedRole | InvalidReceipt

  function RoleOf(name: string): Option<Role>
  {
    if name == "system" then Some(System)
    else if name == "user" then Some(User)
    else if name == "assistant" then Some(Assistant)
    else if name == "tool" then Some(Tool)
    else None
  }

  /** The model message of one chat message, without its receipts. */
  function ModelOf(c: ChatMessage, role: Role): Message
  {
    var extra := DurableExtra(c.extra);
    match role
    case System => Message(System, c.content, "", "", "", [], extra, NO_MARKS, [])
    case User => Message(User, c.content, "", "", "", [], extra, NO_MARKS, [])
    case Assistant => Message(Assistant, c.content, "", "", "", TypedCalls(c.toolCalls), extra, NO_MARKS, [])
    case Tool => Message(Tool, c.content, "", c.name, c.toolCallID, [], extra, NO_MARKS, [])
  }

  /** One chat message with the placeholders behind it. */
  function Block(sdk: Sdk, c: ChatMessage): Result<Messages, ConvertError>
  {
    match RoleOf(c.role)
    case None => Failure(UnsupportedRole)
    case Some(role) =>
      if c.attachments == [] || role != User then Success([ModelOf(c, role)])
      else
        match Canonicalized(sdk, c.attachments)
        case None => Failure(InvalidReceipt)
        case Some(receipts) => Success([ModelOf(c, role)] + Placeholders(sdk, receipts))
  }

  function FromChat(sdk: Sdk, chats: seq<ChatMessage>): Result<Messages, ConvertError>
  {
    if chats == [] then Success([])
    else
      match FromChat(sdk, chats[..|chats| - 1])
      case Failure(e) => Failure(e)
      case Success(before) =>
        match Block(sdk, chats[|chats| - 1])
        case Failure(e) => Failure(e)
        case Success(block) => Success(before + block)
  }

  lemma {:induction false} FromChatStops(sdk: Sdk, chats: seq<ChatMessage>, n: nat)
    requires n <= |chats| && FromChat(sdk, chats[..n]).Failure?
    ensures FromChat(sdk, chats) == FromChat(sdk, chats[..n])
    decreases |chats| - n
  {
    if n == |chats| {
      assert chats[..n] == chats;
    } else {
      assert chats[..n + 1][..n] == chats[..n];
      FromChatStops(sdk, chats, n + 1);
    }
  }

  method ChatMessagesToModel(sdk: Sdk, chats: seq<ChatMessage>) returns (r: Result<Messages, ConvertError>)
    ensures r == FromChat(sdk, chats)
  {
    hide Canonicalized, Placeholders;
    var out := [];
    for i := 0 to |chats|
      invariant FromChat(sdk, chats[..i]) == Success(out)
    {
      assert chats[..i + 1][..i] == chats[..i];
      var c := chats[i];
      match RoleOf(c.role)
      case None =>
        FromChatStops(sdk, chats, i + 1);
        return Failure(UnsupportedRole);
      case Some(role) =>
        var block := [ModelOf(c, role)];
        if |c.attachments| > 0 && role == User {
          match Canonicalized(sdk, c.attachments) {
            case None =>
              FromChatStops(sdk, chats, i + 1);
              return Failure(InvalidReceipt);
            case Some(receipts) =>
              block := block + Placeholders(sdk, receipts);
          }
        }
        out := out + block;
    }
    assert chats[..|chats|] == chats;
    return Success(out);
  }

  // ---------------------------------------------------------------- the anchoring validator

  /** Nearest position before `index` that holds no placeholder, or -1. */
  function Anchor(messages: Messages, index: int): (k: int)
    requires index <= |messages|
    ensures -1 <= k && (k < index || k == -1)
    decreases index
  {
    if index <= 0 then -1
    else if Placeholder(messages[index - 1]) then Anchor(messages, index - 1)
    else index - 1
  }

  /** Position `index` holds no placeholder, or one with readable receipts behind a user message. */
  predicate AnchoredAt(sdk: Sdk, messages: Messages, index: nat)
    requires index < |messages|
  {
    Placeholder(messages[index]) ==>
      var k := Anchor(messages, index);
      k >= 0 && HasRole(messages[k], User) && ReadReceipts(sdk, messages[index]).Some?
  }

  predicate Anchored(sdk: Sdk, messages: Messages)
  {
    forall i :: 0 <= i < |messages| ==> AnchoredAt(sdk, messages, i)
  }

  /** projectEinoAssistantValidateHistoricalAttachmentMessages. */
  method ValidateHistorical(sdk: Sdk, messages: Messages) returns (ok: bool)
    ensures ok <==> Anchored(sdk, messages)
  {
    hide ReadReceipts;
    for index := 0 to |messages|
      invariant forall i :: 0 <= i < index ==> AnchoredAt(sdk, messages, i)
    {
      if !Placeholder(messages[index]) {
        continue;
      }
      var anchor := index - 1;
      while anchor >= 0 && Placeholder(messages[anchor])
        invariant -1 <= anchor < index
        invariant Anchor(messages, anchor + 1) == Anchor(messages, index)
      {
        anchor := anchor - 1;
      }
      if anchor < 0 || !HasRole(messages[anchor], User) {
        assert !AnchoredAt(sdk, messages, index);
        return false;
      }
      if ReadReceipts(sdk, messages[index]).None? {
        assert !AnchoredAt(sdk, messages, index);
        return false;
      }
    }
    return true;
  }

  // ---------------------------------------------------------------- receipt lemmas

  lemma {:induction false} AppendConcat(dst: Receipts, a: Receipts, b: Receipts)
    ensures Append(dst, a + b) == Append(Append(dst, a), b)
    decreases |a|
  {
    hide HasID;
    if a == [] {
      assert a + b == b;
    } else {
      assert (a + b)[1..] == a[1..] + b && (a + b)[0] == a[0];
      AppendConcat(if HasID(dst, a[0].id) then dst else dst + [a[0]], a[1..], b);
    }
  }

  lemma {:induction false} AppendDistinct(dst: Receipts, more: Receipts)
    requires DistinctIDs(dst + more)
    ensures Append(dst, more) == dst + more
    decreases |more|
  {
    if more == [] {
      assert dst + more == dst;
    } else {
      var all := dst + more;
      assert all[|dst|] == more[0];
      forall i | 0 <= i < |dst|
        ensures dst[i].id != more[0].id
      {
        assert all[i] == dst[i];
      }
      assert dst + [more[0]] + more[1..] == all;
      AppendDistinct(dst + [more[0]], more[1..]);
    }
  }

  lemma {:induction false} AppendKeeps(sdk: Sdk, dst: Receipts, more: Receipts)
    requires DistinctIDs(dst) && AllNormal(sdk, dst) && AllNormal(sdk, more)
    ensures DistinctIDs(Append(dst, more)) && AllNormal(sdk, Append(dst, more))
    ensures dst != [] || more != [] ==> Append(dst, more) != []
    decreases |more|
  {
    hide Normal;
    if more != [] {
      var next := if HasID(dst, more[0].id) then dst else dst + [more[0]];
      assert forall i :: 0 <= i < |more[1..]| ==> more[1..][i] == more[i + 1];
      AppendKeeps(sdk, next, more[1..]);
    }
  }

  lemma {:induction false} NormalizeAllNormal(sdk: Sdk, receipts: Receipts)
    requires Sound(sdk)
    ensures AllNormal(sdk, receipts) ==> NormalizeAll(sdk, receipts) == Some(receipts)
    ensures NormalizeAll(sdk, receipts).Some? ==>
              AllNormal(sdk, NormalizeAll(sdk, receipts).value)
              && |NormalizeAll(sdk, receipts).value| == |receipts|
    decreases |receipts|
  {
    if receipts != [] {
      assert forall i :: 0 <= i < |receipts[1..]| ==> receipts[1..][i] == receipts[i + 1];
      NormalizeAllNormal(sdk, receipts[1..]);
      if AllNormal(sdk, receipts) {
        assert Normal(sdk, receipts[0]);
        assert [receipts[0]] + receipts[1..] == receipts;
      }
    }
  }

  /** Canonical receipts are normal, distinct and, when there was one, non-empty. */
  lemma CanonicalReceipts(sdk: Sdk, receipts: Receipts)
    requires Sound(sdk)
    ensures Canonicalized(sdk, receipts).Some? ==>
              var r := Canonicalized(sdk, receipts).value;
              AllNormal(sdk, r) && DistinctIDs(r) && (receipts != [] ==> r != [])
    ensures AllNormal(sdk, receipts) && DistinctIDs(receipts) ==> Canonicalized(sdk, receipts) == Some(receipts)
  {
    hide Normal, Append, NormalizeAll;
    NormalizeAllNormal(sdk, receipts);
    if NormalizeAll(sdk, receipts).Some? {
      AppendKeeps(sdk, [], NormalizeAll(sdk, receipts).value);
    }
    if DistinctIDs(receipts) {
      assert [] + receipts == receipts;
      AppendDistinct([], receipts);
    }
  }

  lemma PlaceholderReceipts(sdk: Sdk, r: Receipt)
    requires Sound(sdk) && Normal(sdk, r)
    ensures Placeholder(PlaceholderMessage(sdk, r))
    ensures ReadReceipts(sdk, PlaceholderMessage(sdk, r)) == Some([r])
    ensures ReceiptsOf(sdk, PlaceholderMessage(sdk, r)) == [r]
  {
    hide Canonicalized;
    CanonicalReceipts(sdk, [r]);
  }

  // ---------------------------------------------------------------- chat to model and back

  /** A chat message as the durable log and the checkpoints hold it. */
  predicate CanonicalChat(sdk: Sdk, c: ChatMessage)
  {
    && RoleOf(c.role).Some? && c.itemID == "" && c.extra == DurableExtra(c.extra)
    && (c.role == "user" ==> AllNormal(sdk, c.attachments) && DistinctIDs(c.attachments))
    && (c.role != "user" ==> c.attachments == [])
    && (c.role != "assistant" ==> c.toolCalls == [])
    && (forall i :: 0 <= i < |c.toolCalls| ==> CallType(c.toolCalls[i].kind) == c.toolCalls[i].kind)
    && (c.role != "tool" ==> c.name == "" && c.toolCallID == "")
  }

  /** Converting one canonical message, its receipts aside, and back is the identity. */
  lemma OneBack(sdk: Sdk, c: ChatMessage)
    requires CanonicalChat(sdk, c)
    ensures var role := RoleOf(c.role).value;
            && ChatOf(ModelOf(c, role)) == c.(attachments := [])
            && !Placeholder(ModelOf(c, role)) && !CurrentOnly(ModelOf(c, role))
            && (role == User <==> c.role == "user")
  {
    hide CallType, AllNormal, DistinctIDs;
    assert TypedCalls(c.toolCalls) == c.toolCalls;
    assert TypedCalls(TypedCalls(c.toolCalls)) == c.toolCalls;
  }

  lemma ToChatAppend(sdk: Sdk, messages: Messages, m: Message)
    ensures ToChat(sdk, messages + [m]) == Folded(sdk, ToChat(sdk, messages), m)
  {
    assert (messages + [m])[..|messages|] == messages;
  }

  /** Placeholders behind a user message fold back onto it one by one. */
  lemma {:induction false} FoldPlaceholders(sdk: Sdk, before: Messages, c: ChatMessage, receipts: Receipts)
    requires Sound(sdk) && AllNormal(sdk, receipts) && DistinctIDs(c.attachments + receipts) && c.role == "user"
    requires ToChat(sdk, before) != [] && ToChat(sdk, before)[|ToChat(sdk, before)| - 1] == c
    ensures ToChat(sdk, before + Placeholders(sdk, receipts))
         == ToChat(sdk, before)[|ToChat(sdk, before)| - 1 := c.(attachments := c.attachments + receipts)]
    decreases |receipts|
  {
    hide PlaceholderMessage, Append, HasID, Normal, ReceiptsOf;
    if receipts == [] {
      assert before + Placeholders(sdk, receipts) == before;
      assert c.attachments + receipts == c.attachments;
    } else {
      var init, r := receipts[..|receipts| - 1], receipts[|receipts| - 1];
      var all := c.attachments + receipts;
      assert c.attachments + init == all[..|all| - 1];
      FoldPlaceholders(sdk, before, c, init);
      var m := PlaceholderMessage(sdk, r);
      assert before + Placeholders(sdk, receipts) == before + Placeholders(sdk, init) + [m];
      ToChatAppend(sdk, before + Placeholders(sdk, init), m);
      PlaceholderReceipts(sdk, r);
      hide ToChat, Placeholders;
      assert c.attachments + init + [r] == all;
      AppendDistinct(c.attachments + init, [r]);
    }
  }

  /** One block converts back to the message it came from. */
  lemma BlockBack(sdk: Sdk, before: Messages, c: ChatMessage)
    requires Sound(sdk) && CanonicalChat(sdk, c)
    ensures Block(sdk, c).Success?
    ensures ToChat(sdk, before + Block(sdk, c).value) == ToChat(sdk, before) + [c]
  {
    hide Append, NormalizeAll, Normal, ToChat, PlaceholderMessage;
    var role := RoleOf(c.role).value;
    var m := ModelOf(c, role);
    OneBack(sdk, c);
    CanonicalReceipts(sdk, c.attachments);
    ToChatAppend(sdk, before, m);
    var bare := c.(attachments := []);
    assert ToChat(sdk, before + [m]) == ToChat(sdk, before) + [bare];
    if role == User && c.attachments != [] {
      var rs := c.attachments;
      assert before + ([m] + Placeholders(sdk, rs)) == (before + [m]) + Placeholders(sdk, rs);
      assert [] + rs == rs;
      FoldPlaceholders(sdk, before + [m], bare, rs);
    }
  }

  /**
    Round trip from the durable side: canonical chat messages survive the conversion to
    model messages and back.
   */
  lemma {:induction false} ChatRoundTrip(sdk: Sdk, chats: seq<ChatMessage>)
    requires Sound(sdk) && forall i :: 0 <= i < |chats| ==> CanonicalChat(sdk, chats[i])
    ensures FromChat(sdk, chats).Success?
    ensures ToChat(sdk, FromChat(sdk, chats).value) == chats
    decreases |chats|
  {
    hide CanonicalChat, Block;
    if chats != [] {
      var init, c := chats[..|chats| - 1], chats[|chats| - 1];
      ChatRoundTrip(sdk, init);
      BlockBack(sdk, FromChat(sdk, init).value, c);
    }
  }

  // ---------------------------------------------------------------- produced lists are anchored

  lemma {:induction false} AnchorPrefix(a: Messages, b: Messages, index: int)
    requires index <= |a|
    ensures Anchor(a + b, index) == Anchor(a, index)
    decreases index
  {
    if index > 0 {
      assert (a + b)[index - 1] == a[index - 1];
      AnchorPrefix(a, b, index - 1);
    }
  }

  lemma AnchoredExtends(sdk: Sdk, a: Messages, m: Message)
    requires Anchored(sdk, a) && AnchoredAt(sdk, a + [m], |a|)
    ensures Anchored(sdk, a + [m])
  {
    hide ReadReceipts, Placeholder;
    forall i | 0 <= i < |a + [m]|
      ensures AnchoredAt(sdk, a + [m], i)
    {
      if i < |a| {
        assert AnchoredAt(sdk, a, i) && (a + [m])[i] == a[i];
        AnchorPrefix(a, [m], i);
        var k := Anchor(a, i);
        assert k >= 0 ==> (a + [m])[k] == a[k];
      }
    }
  }

  lemma {:induction false} PlaceholdersAnchored(sdk: Sdk, before: Messages, receipts: Receipts)
    requires Sound(sdk) && Anchored(sdk, before) && AllNormal(sdk, receipts)
    requires before != [] && HasRole(before[|before| - 1], User) && !Placeholder(before[|before| - 1])
    ensures Anchored(sdk, before + Placeholders(sdk, receipts))
    ensures var all := before + Placeholders(sdk, receipts); Anchor(all, |all|) == |before| - 1
    decreases |receipts|
  {
    hide ReadReceipts, PlaceholderMessage, Normal;
    if receipts == [] {
      assert before + Placeholders(sdk, receipts) == before;
    } else {
      var init, r := receipts[..|receipts| - 1], receipts[|receipts| - 1];
      var m := PlaceholderMessage(sdk, r);
      PlaceholdersAnchored(sdk, before, init);
      var all := before + Placeholders(sdk, init);
      assert before + Placeholders(sdk, receipts) == all + [m];
      PlaceholderReceipts(sdk, r);
      AnchorPrefix(all, [m], |all|);
      assert (all + [m])[|before| - 1] == before[|before| - 1];
      AnchoredExtends(sdk, all, m);
    }
  }

  /** Every list the conversion produces passes the anchoring validator. */
  lemma {:induction false} ProducedIsAnchored(sdk: Sdk, chats: seq<ChatMessage>)
    requires Sound(sdk) && FromChat(sdk, chats).Success?
    ensures Anchored(sdk, FromChat(sdk, chats).value)
    decreases |chats|
  {
    hide Block, Anchored;
    if chats == [] {
      NothingAnchored(sdk);
    } else {
      var init, c := chats[..|chats| - 1], chats[|chats| - 1];
      ProducedIsAnchored(sdk, init);
      BlockAnchored(sdk, FromChat(sdk, init).value, c);
    }
  }

  lemma BlockAnchored(sdk: Sdk, before: Messages, c: ChatMessage)
    requires Sound(sdk) && Anchored(sdk, before) && Block(sdk, c).Success?
    ensures Anchored(sdk, before + Block(sdk, c).value)
  {
    hide ReadReceipts, Canonicalized, Anchored, DurableExtra, RoleOf, Placeholders;
    var role := RoleOf(c.role).value;
    var m := ModelOf(c, role);
    PlainAnchored(sdk, before, m);
    if c.attachments != [] && role == User {
      CanonicalReceipts(sdk, c.attachments);
      var receipts := Canonicalized(sdk, c.attachments).value;
      PlaceholdersAnchored(sdk, before + [m], receipts);
      Seqs.Assoc(before, [m], Placeholders(sdk, receipts));
    }
  }

  lemma NothingAnchored(sdk: Sdk)
    ensures Anchored(sdk, [])
  {}

  lemma PlainAnchored(sdk: Sdk, before: Messages, m: Message)
    requires Anchored(sdk, before) && !Placeholder(m)
    ensures Anchored(sdk, before + [m])
  {
    hide Anchored;
    AnchoredExtends(sdk, before, m);
  }

  // ---------------------------------------------------------------- model to chat and back

  /** A message exactly as the conversion from chat makes it. */
  predicate PlainModel(m: Message)
  {
    && m.Message? && m.marks == NO_MARKS && m.parts == [] && m.extra == DurableExtra(m.extra) && m.name == ""
    && (m.role != Tool ==> m.toolName == "" && m.toolCallID == "")
    && (m.role != Assistant ==> m.toolCalls == [])
    && (forall i :: 0 <= i < |m.toolCalls| ==> CallType(m.toolCalls[i].kind) == m.toolCalls[i].kind)
  }

  /** A placeholder with a single normalised receipt, exactly as it is created. */
  predicate SinglePlaceholder(sdk: Sdk, m: Message)
  {
    && m.Message? && m.marks.receipts.Listed? && |m.marks.receipts.receipts| == 1
    && Normal(sdk, m.marks.receipts.receipts[0])
    && m == PlaceholderMessage(sdk, m.marks.receipts.receipts[0])
  }

  function SingleReceipt(m: Message): Option<Receipt>
  {
    if m.Message? && m.marks.receipts.Listed? && |m.marks.receipts.receipts| == 1
    then Some(m.marks.receipts.receipts[0]) else None
  }

  /** Placeholders of one run carry distinct receipts. */
  predicate DistinctRuns(messages: Messages)
  {
    forall i, j :: 0 <= i < j < |messages|
      && Placeholder(messages[i]) && Placeholder(messages[j]) && Anchor(messages, i) == Anchor(messages, j)
      && SingleReceipt(messages[i]).Some? && SingleReceipt(messages[j]).Some?
      ==> SingleReceipt(messages[i]).value.id != SingleReceipt(messages[j]).value.id
  }

  /** An anchored and expanded list whose messages are as the conversion makes them. */
  predicate Expanded(sdk: Sdk, messages: Messages)
  {
    && Anchored(sdk, messages) && DistinctRuns(messages)
    && forall i :: 0 <= i < |messages| ==> PlainModel(messages[i]) || SinglePlaceholder(sdk, messages[i])
  }

  lemma ExpandedPrefix(sdk: Sdk, messages: Messages)
    requires Expanded(sdk, messages) && messages != []
    ensures Expanded(sdk, messages[..|messages| - 1])
  {
    hide ReadReceipts, PlainModel, SinglePlaceholder, Placeholder;
    var init, last := messages[..|messages| - 1], messages[|messages| - 1];
    assert messages == init + [last];
    forall i | 0 <= i < |init|
      ensures AnchoredAt(sdk, init, i) && Anchor(init, i) == Anchor(messages, i)
    {
      assert AnchoredAt(sdk, messages, i);
      AnchorPrefix(init, [last], i);
    }
  }

  /** The receipts of the placeholders at the end of a list. */
  function TrailingReceipts(messages: Messages): Receipts
  {
    if messages == [] || !Placeholder(messages[|messages| - 1]) || SingleReceipt(messages[|messages| - 1]).None?
    then []
    else TrailingReceipts(messages[..|messages| - 1]) + [SingleReceipt(messages[|messages| - 1]).value]
  }

  /** Every position of a run of placeholders has the same anchor. */
  lemma {:induction false} AnchorOfRun(messages: Messages, j: int, n: int)
    requires j <= n <= |messages| && Anchor(messages, n) < j
    ensures Anchor(messages, j) == Anchor(messages, n)
    decreases n
  {
    if j < n {
      AnchorOfRun(messages, j, n - 1);
    }
  }

  lemma ExpandedAt(sdk: Sdk, messages: Messages, i: nat)
    requires Expanded(sdk, messages) && i < |messages|
    ensures messages[i].Message?
    ensures Placeholder(messages[i]) ==> SinglePlaceholder(sdk, messages[i]) && SingleReceipt(messages[i]).Some?
    ensures !Placeholder(messages[i]) ==> PlainModel(messages[i])
  {}

  lemma {:induction false} TrailingCount(sdk: Sdk, messages: Messages)
    requires Expanded(sdk, messages)
    ensures |TrailingReceipts(messages)| == |messages| - 1 - Anchor(messages, |messages|)
    decreases |messages|
  {
    hide Expanded, Placeholder, SingleReceipt, SinglePlaceholder, PlainModel;
    if messages != [] {
      var init, last := messages[..|messages| - 1], messages[|messages| - 1];
      ExpandedAt(sdk, messages, |messages| - 1);
      if Placeholder(last) {
        ExpandedPrefix(sdk, messages);
        TrailingCount(sdk, init);
        assert messages == init + [last];
        AnchorPrefix(init, [last], |init|);
      }
    }
  }

  /** The trailing receipts are those of the run after the last anchor, in order. */
  lemma {:induction false} TrailingAt(sdk: Sdk, messages: Messages, i: nat)
    requires Expanded(sdk, messages) && i < |TrailingReceipts(messages)|
    ensures var at := Anchor(messages, |messages|) + 1 + i;
            && 0 <= at < |messages|
            && Placeholder(messages[at]) && SingleReceipt(messages[at]) == Some(TrailingReceipts(messages)[i])
    decreases |messages|
  {
    hide Expanded, Placeholder, SingleReceipt, SinglePlaceholder, PlainModel;
    TrailingCount(sdk, messages);
    var init, last := messages[..|messages| - 1], messages[|messages| - 1];
    ExpandedAt(sdk, messages, |messages| - 1);
    assert messages == init + [last];
    AnchorPrefix(init, [last], |init|);
    if i < |TrailingReceipts(messages)| - 1 {
      ExpandedPrefix(sdk, messages);
      TrailingAt(sdk, init, i);
      var at := Anchor(messages, |messages|) + 1 + i;
      assert messages[at] == init[at];
    }
  }

  lemma TrailingDistinct(sdk: Sdk, messages: Messages)
    requires Expanded(sdk, messages)
    ensures AllNormal(sdk, TrailingReceipts(messages)) && DistinctIDs(TrailingReceipts(messages))
  {
    hide SinglePlaceholder, PlainModel, TrailingReceipts, Anchored, Placeholder, Anchor, SingleReceipt, Normal;
    TrailingCount(sdk, messages);
    var k, all := Anchor(messages, |messages|), TrailingReceipts(messages);
    forall i | 0 <= i < |all|
      ensures Normal(sdk, all[i])
    {
      TrailingAt(sdk, messages, i);
      ExpandedAt(sdk, messages, k + 1 + i);
      SingleNormal(sdk, messages[k + 1 + i]);
    }
    forall i, j | 0 <= i < j < |all|
      ensures all[i].id != all[j].id
    {
      TrailingAt(sdk, messages, i);
      TrailingAt(sdk, messages, j);
      AnchorOfRun(messages, k + 1 + i, |messages|);
      AnchorOfRun(messages, k + 1 + j, |messages|);
    }
  }

  lemma SingleNormal(sdk: Sdk, m: Message)
    requires SinglePlaceholder(sdk, m)
    ensures SingleReceipt(m).Some? && Normal(sdk, SingleReceipt(m).value)
    ensures m == PlaceholderMessage(sdk, SingleReceipt(m).value)
  {
    hide Normal, PlaceholderMessage;
  }

  lemma PlainBack(sdk: Sdk, m: Message)
    requires PlainModel(m)
    ensures Block(sdk, ChatOf(m)) == Success([m])
    ensures !Placeholder(m) && !m.marks.current
  {
    hide CallType, DurableExtra;
    assert TypedCalls(m.toolCalls) == m.toolCalls;
    assert TypedCalls(TypedCalls(m.toolCalls)) == m.toolCalls;
    assert RoleOf(RoleName(m.role)) == Some(m.role);
  }

  /** A user message with its run of receipts is one block. */
  lemma BlockOfRun(sdk: Sdk, m: Message, receipts: Receipts)
    requires Sound(sdk) && PlainModel(m) && m.role == User
    requires AllNormal(sdk, receipts) && DistinctIDs(receipts)
    ensures Block(sdk, ChatOf(m).(attachments := receipts)) == Success([m] + Placeholders(sdk, receipts))
  {
    hide Canonicalized, Normal, PlaceholderMessage, CallType, DurableExtra;
    CanonicalReceipts(sdk, receipts);
    PlainBack(sdk, m);
    var c := ChatOf(m);
    assert RoleOf(c.role) == Some(User);
    assert ModelOf(c.(attachments := receipts), User) == ModelOf(c, User);
    if receipts == [] {
      assert [m] + Placeholders(sdk, receipts) == [m];
    }
  }

  lemma FromChatLast(sdk: Sdk, chats: seq<ChatMessage>, c: ChatMessage)
    requires FromChat(sdk, chats).Success? && Block(sdk, c).Success?
    ensures FromChat(sdk, chats + [c]) == Success(FromChat(sdk, chats).value + Block(sdk, c).value)
  {
    hide Block;
    assert (chats + [c])[..|chats|] == chats;
  }

  /** What the induction carries: the part before the last anchor is converted apart. */
  ghost predicate Converts(sdk: Sdk, messages: Messages)
  {
    var chat, k := ToChat(sdk, messages), Anchor(messages, |messages|);
    if k < 0 then messages == [] && chat == []
    else
      && chat != [] && messages[k].Message?
      && FromChat(sdk, chat[..|chat| - 1]) == Success(messages[..k])
      && chat[|chat| - 1] == ChatOf(messages[k]).(attachments := TrailingReceipts(messages))
  }

  lemma ConvertsPlain(sdk: Sdk, messages: Messages, m: Message)
    requires FromChat(sdk, ToChat(sdk, messages)) == Success(messages) && PlainModel(m)
    ensures Converts(sdk, messages + [m])
  {
    hide PlainModel, ChatOf, FromChat, ToChat;
    PlainBack(sdk, m);
    ToChatAppend(sdk, messages, m);
    var all := messages + [m];
    assert all[|messages|] == m && all[..|messages|] == messages;
    var chat := ToChat(sdk, messages);
    assert (chat + [ChatOf(m)])[..|chat|] == chat;
    assert ChatOf(m).attachments == [] by {
      assert m.Message? by { PlainBack(sdk, m); }
      ChatHasNone(m);
    }
  }

  lemma ChatHasNone(m: Message)
    requires m.Message?
    ensures ChatOf(m).attachments == []
    ensures ChatOf(m).role == "user" <==> m.role == User
  {
    hide TypedCalls, DurableExtra;
  }

  /** A placeholder behind a user message only adds its receipt to the last chat message. */
  lemma FoldedOnto(sdk: Sdk, chat: seq<ChatMessage>, r: Receipt)
    requires Sound(sdk) && Normal(sdk, r) && chat != [] && chat[|chat| - 1].role == "user"
    requires DistinctIDs(chat[|chat| - 1].attachments + [r])
    ensures var last := chat[|chat| - 1];
            Folded(sdk, chat, PlaceholderMessage(sdk, r))
              == chat[..|chat| - 1] + [last.(attachments := last.attachments + [r])]
  {
    hide PlaceholderMessage, Normal, Append, DistinctIDs, ReceiptsOf;
    PlaceholderReceipts(sdk, r);
    AppendDistinct(chat[|chat| - 1].attachments, [r]);
  }

  lemma TrailingGrows(messages: Messages, m: Message)
    requires Placeholder(m) && SingleReceipt(m).Some?
    ensures TrailingReceipts(messages + [m]) == TrailingReceipts(messages) + [SingleReceipt(m).value]
    ensures Anchor(messages + [m], |messages| + 1) == Anchor(messages, |messages|)
  {
    hide Placeholder, SingleReceipt;
    assert (messages + [m])[..|messages|] == messages && (messages + [m])[|messages|] == m;
    AnchorPrefix(messages, [m], |messages|);
  }

  lemma ConvertsPlaceholder(sdk: Sdk, messages: Messages, r: Receipt)
    requires Sound(sdk) && Converts(sdk, messages) && Normal(sdk, r)
    requires DistinctIDs(TrailingReceipts(messages) + [r])
    requires var k := Anchor(messages, |messages|); k >= 0 && HasRole(messages[k], User)
    ensures Converts(sdk, messages + [PlaceholderMessage(sdk, r)])
  {
    hide PlaceholderMessage, ChatOf, FromChat, ToChat, Normal, Append, DistinctIDs, ReceiptsOf, Folded, Placeholder,
         SingleReceipt, TrailingReceipts, Anchor, Sound;
    var m, k := PlaceholderMessage(sdk, r), Anchor(messages, |messages|);
    var chat, all := ToChat(sdk, messages), messages + [m];
    PlaceholderReceipts(sdk, r);
    PlaceholderHoldsOne(sdk, r);
    ToChatAppend(sdk, messages, m);
    ChatHasNone(messages[k]);
    FoldedOnto(sdk, chat, r);
    TrailingGrows(messages, m);
    var last := chat[|chat| - 1];
    var next := chat[..|chat| - 1] + [last.(attachments := TrailingReceipts(messages) + [r])];
    assert next[..|next| - 1] == chat[..|chat| - 1];
    assert all[k] == messages[k] && all[..k] == messages[..k];
  }

  lemma PlaceholderHoldsOne(sdk: Sdk, r: Receipt)
    ensures SingleReceipt(PlaceholderMessage(sdk, r)) == Some(r)
  {}

  /** From the carried facts to the round trip itself. */
  lemma ConvertsWhole(sdk: Sdk, messages: Messages)
    requires Sound(sdk) && Expanded(sdk, messages) && Converts(sdk, messages)
    ensures FromChat(sdk, ToChat(sdk, messages)) == Success(messages)
  {
    hide Expanded, PlainModel, FromChat, ToChat, ChatOf, Block, TrailingReceipts, Placeholders;
    var k, chat, receipts := Anchor(messages, |messages|), ToChat(sdk, messages), TrailingReceipts(messages);
    if k < 0 {
      EmptyBack(sdk);
    } else {
      AnchorPlain(sdk, messages);
      TrailingDistinct(sdk, messages);
      var m := messages[k];
      assert chat == chat[..|chat| - 1] + [chat[|chat| - 1]];
      TrailingIsRun(sdk, messages);
      if receipts == [] {
        assert ChatOf(m).(attachments := receipts) == ChatOf(m) by { ChatHasNone(m); }
        PlainBack(sdk, m);
        NoPlaceholders(sdk);
        assert [m] + Placeholders(sdk, receipts) == [m];
      } else {
        BlockOfRun(sdk, m, receipts);
      }
      FromChatLast(sdk, chat[..|chat| - 1], chat[|chat| - 1]);
      assert messages == messages[..k] + ([m] + messages[k + 1..]);
    }
  }

  lemma EmptyBack(sdk: Sdk)
    ensures FromChat(sdk, []) == Success([])
  {}

  lemma NoPlaceholders(sdk: Sdk)
    ensures Placeholders(sdk, []) == []
  {}

  /** The last anchor is a plain message, and one with a run behind it is the user's. */
  lemma AnchorPlain(sdk: Sdk, messages: Messages)
    requires Expanded(sdk, messages) && Anchor(messages, |messages|) >= 0
    ensures var k := Anchor(messages, |messages|);
            && PlainModel(messages[k]) && messages[k].Message?
            && (TrailingReceipts(messages) != [] ==> messages[k].role == User)
  {
    hide SinglePlaceholder, PlainModel, TrailingReceipts, ReadReceipts, DistinctRuns;
    var k := Anchor(messages, |messages|);
    AnchorStops(messages, |messages|);
    ExpandedAt(sdk, messages, k);
    TrailingCount(sdk, messages);
    if TrailingReceipts(messages) != [] {
      TrailingAt(sdk, messages, |TrailingReceipts(messages)| - 1);
      AnchorOfRun(messages, |messages| - 1, |messages|);
      assert AnchoredAt(sdk, messages, |messages| - 1);
    }
  }

  lemma {:induction false} AnchorStops(messages: Messages, n: int)
    requires n <= |messages|
    ensures Anchor(messages, n) >= 0 ==> !Placeholder(messages[Anchor(messages, n)])
    decreases n
  {
    if n > 0 && Placeholder(messages[n - 1]) {
      AnchorStops(messages, n - 1);
    }
  }

  /** The run after the last anchor is exactly the placeholders of the trailing receipts. */
  lemma TrailingIsRun(sdk: Sdk, messages: Messages)
    requires Expanded(sdk, messages)
    ensures messages[Anchor(messages, |messages|) + 1..] == Placeholders(sdk, TrailingReceipts(messages))
  {
    hide Expanded, SinglePlaceholder, PlainModel, Anchor, TrailingReceipts, PlaceholderMessage;
    TrailingCount(sdk, messages);
    var k, receipts := Anchor(messages, |messages|), TrailingReceipts(messages);
    forall i | 0 <= i < |receipts|
      ensures messages[k + 1 + i] == Placeholders(sdk, receipts)[i]
    {
      TrailingAt(sdk, messages, i);
      ExpandedAt(sdk, messages, k + 1 + i);
      SingleNormal(sdk, messages[k + 1 + i]);
      PlaceholdersAt(sdk, receipts, i);
    }
  }

  lemma {:induction false} PlaceholdersAt(sdk: Sdk, receipts: Receipts, i: nat)
    requires i < |receipts|
    ensures Placeholders(sdk, receipts)[i] == PlaceholderMessage(sdk, receipts[i])
    decreases |receipts|
  {
    hide PlaceholderMessage;
    if i < |receipts| - 1 {
      PlaceholdersAt(sdk, receipts[..|receipts| - 1], i);
    }
  }

  /**
    Round trip from the model side: an anchored, expanded list whose runs carry distinct
    receipts survives the conversion to chat messages and back.
   */
  lemma {:induction false} ModelRoundTrip(sdk: Sdk, messages: Messages)
    requires Sound(sdk) && Expanded(sdk, messages)
    ensures FromChat(sdk, ToChat(sdk, messages)) == Success(messages)
    ensures Converts(sdk, messages)
    decreases |messages|
  {
    hide Expanded, Converts, FromChat, ToChat, Placeholder, PlainModel, SinglePlaceholder, SingleReceipt;
    if messages == [] {
      NothingConverts(sdk);
    } else {
      var init, last := messages[..|messages| - 1], messages[|messages| - 1];
      assert messages == init + [last];
      ExpandedPrefix(sdk, messages);
      ModelRoundTrip(sdk, init);
      ExpandedAt(sdk, messages, |messages| - 1);
      if Placeholder(last) {
        SingleNormal(sdk, last);
        LastPlaceholder(sdk, init, SingleReceipt(last).value);
      } else {
        ConvertsPlain(sdk, init, last);
      }
    }
    ConvertsWhole(sdk, messages);
  }

  lemma NothingConverts(sdk: Sdk)
    ensures Converts(sdk, [])
  {}

  lemma LastPlaceholder(sdk: Sdk, init: Messages, r: Receipt)
    requires Sound(sdk) && Expanded(sdk, init + [PlaceholderMessage(sdk, r)]) && Converts(sdk, init) && Normal(sdk, r)
    ensures Converts(sdk, init + [PlaceholderMessage(sdk, r)])
  {
    hide Converts, PlaceholderMessage, PlainModel, SinglePlaceholder, ReadReceipts, SingleReceipt, Normal, DistinctRuns;
    var m := PlaceholderMessage(sdk, r);
    var all := init + [m];
    assert all[..|all| - 1] == init && all[|all| - 1] == m;
    PlaceholderReceipts(sdk, r);
    PlaceholderHoldsOne(sdk, r);
    TrailingDistinct(sdk, all);
    assert TrailingReceipts(all) == TrailingReceipts(init) + [r];
    assert AnchoredAt(sdk, all, |init|);
    AnchorPrefix(init, [m], |init|);
    ConvertsPlaceholder(sdk, init, r);
  }
}
