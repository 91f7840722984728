/**
  Deduplication and rendering of file reads on the fields of the messages: which results are
  trusted, which are replaced and by what, and what text a receipt is shown as.
 */
module ReceiptReading {
  import opened Wrappers
  import opened Text
  import opened Chat
  import opened ReadDeduplication
  import opened ReadReceipts

  // ---------------------------------------------------------------- calls and their names

  predicate CalledAt(messages: History, i: nat, c: nat, id: string, name: string)
  {
    && i < |messages| && messages[i].role == "assistant" && c < |messages[i].toolCalls|
    && id != "" && Trim(messages[i].toolCalls[c].id) == id && messages[i].toolCalls[c].name == name
  }

  /** Some assistant message calls `name` under this ID. */
  ghost predicate Called(messages: History, id: string, name: string)
  {
    exists i: nat, c: nat :: CalledAt(messages, i, c, id, name)
  }

  predicate CallsIn(calls: seq<ToolCall>, c: nat, id: string, name: string)
  {
    c < |calls| && id != "" && Trim(calls[c].id) == id && calls[c].name == name
  }

  ghost predicate CalledOf(messages: History, calls: seq<ToolCall>, id: string, name: string)
  {
    Called(messages, id, name) || exists c: nat :: CallsIn(calls, c, id, name)
  }

  /** What is recorded of one ID: a name it was called with, and whether there is another. */
  ghost predicate Records(names: Names, messages: History, calls: seq<ToolCall>, id: string)
  {
    && (id in names.first <==> exists name: string :: CalledOf(messages, calls, id, name))
    && (id in names.first ==> CalledOf(messages, calls, id, names.first[id]))
    && (id in names.ambiguous <==>
          id in names.first && exists name: string :: CalledOf(messages, calls, id, name) && name != names.first[id])
  }

  lemma CallNext(messages: History, calls: seq<ToolCall>, call: ToolCall, id: string, name: string)
    ensures CalledOf(messages, calls + [call], id, name) <==>
                (CalledOf(messages, calls, id, name) || (id != "" && Trim(call.id) == id && call.name == name))
  {
    hide Called, Trim;
    var all := calls + [call];
    if c: nat :| CallsIn(calls, c, id, name) {
      assert CallsIn(all, c, id, name);
    }
    if id != "" && Trim(call.id) == id && call.name == name {
      assert CallsIn(all, |calls|, id, name);
    }
    if c: nat :| CallsIn(all, c, id, name) {
      assert c < |calls| ==> CallsIn(calls, c, id, name);
    }
  }

  lemma RecordsNext(names: Names, messages: History, calls: seq<ToolCall>, call: ToolCall, id: string)
    requires Records(names, messages, calls, id)
    ensures Records(NameCall(names, call), messages, calls + [call], id)
  {
    hide CalledOf, Trim;
    forall name: string
      ensures CalledOf(messages, calls + [call], id, name) <==>
                  (CalledOf(messages, calls, id, name) || (id != "" && Trim(call.id) == id && call.name == name))
    {
      CallNext(messages, calls, call, id, name);
    }
    assert id in names.first ==> CalledOf(messages, calls + [call], id, names.first[id]);
    if id != "" && Trim(call.id) == id {
      assert CalledOf(messages, calls + [call], id, call.name);
    }
  }

  lemma {:induction false} RecordsCalls(names: Names, messages: History, calls: seq<ToolCall>, id: string)
    requires Records(names, messages, [], id)
    ensures Records(NameCalls(names, calls), messages, calls, id)
  {
    hide Records, NameCall;
    if calls != [] {
      var init := calls[..|calls| - 1];
      RecordsCalls(names, messages, init, id);
      RecordsNext(NameCalls(names, init), messages, init, calls[|calls| - 1], id);
      assert calls == init + [calls[|calls| - 1]];
    }
  }

  lemma CalledNext(messages: History, m: ChatMessage, id: string, name: string)
    ensures Called(messages + [m], id, name) <==>
                CalledOf(messages, (if m.role == "assistant" then m.toolCalls else []), id, name)
  {
    hide Trim;
    var all := messages + [m];
    if i: nat, c: nat :| CalledAt(messages, i, c, id, name) {
      assert CalledAt(all, i, c, id, name);
    }
    if m.role == "assistant" {
      if c: nat :| CallsIn(m.toolCalls, c, id, name) {
        assert CalledAt(all, |messages|, c, id, name);
      }
    }
    if i: nat, c: nat :| CalledAt(all, i, c, id, name) {
      if i < |messages| {
        assert CalledAt(messages, i, c, id, name);
      } else {
        assert CallsIn(m.toolCalls, c, id, name);
      }
    }
  }

  lemma RecordsMessage(names: Names, messages: History, m: ChatMessage, calls: seq<ToolCall>, id: string)
    requires calls == (if m.role == "assistant" then m.toolCalls else []) && Records(names, messages, calls, id)
    ensures Records(names, messages + [m], [], id)
  {
    forall name: string
      ensures CalledOf(messages + [m], [], id, name) <==> CalledOf(messages, calls, id, name)
    {
      hide Called, CallsIn;
      CalledNext(messages, m, id, name);
      assert forall c: nat :: !CallsIn([], c, id, name) by { NoneIn(id, name); }
    }
    hide CalledOf;
  }

  lemma NoneIn(id: string, name: string)
    ensures forall c: nat :: !CallsIn([], c, id, name)
  {}

  lemma {:induction false} NamesAre(messages: History, id: string)
    ensures Records(CallNames(messages), messages, [], id)
  {
    hide Records, NameCalls;
    if messages == [] {
      NothingNamed(id);
    } else {
      var init, m := messages[..|messages| - 1], messages[|messages| - 1];
      NamesAre(init, id);
      var calls := if m.role == "assistant" then m.toolCalls else [];
      if m.role == "assistant" {
        RecordsCalls(CallNames(init), init, m.toolCalls, id);
      }
      RecordsMessage(CallNames(messages), init, m, calls, id);
      assert messages == init + [m];
    }
  }

  lemma NothingNamed(id: string)
    ensures Records(CallNames([]), [], [], id)
  {}

  /** The name a tool result answers: that of all calls with its ID, or its own without any. */
  ghost predicate AnswersRead(messages: History, m: ChatMessage)
  {
    var id := Trim(m.toolCallID);
    if exists name: string :: Called(messages, id, name)
    then forall name: string :: Called(messages, id, name) ==> name == "read_file"
    else m.name == "read_file"
  }

  /** A result is trusted if and only if every call with its ID is one of read_file. */
  lemma TrustedByFields(messages: History, m: ChatMessage)
    ensures Trusted(CallNames(messages), m) <==> AnswersRead(messages, m)
  {
    hide CallNames, Trim;
    var id := Trim(m.toolCallID);
    NamesAre(messages, id);
    forall name: string
      ensures CalledOf(messages, [], id, name) <==> Called(messages, id, name)
    {
      NoneIn(id, name);
    }
  }

  // ---------------------------------------------------------------- duplicates

  /** Message `i` is a trusted result that shows this complete read. */
  ghost predicate ReadAt(keyOf: string -> Option<ReadKey>, messages: History, key: ReadKey, i: int)
  {
    && 0 <= i < |messages| && messages[i].role == "tool" && Trim(messages[i].toolCallID) != ""
    && AnswersRead(messages, messages[i]) && keyOf(messages[i].content) == Some(key)
  }

  /** The results that show this read answer different calls. */
  ghost predicate Apart(keyOf: string -> Option<ReadKey>, messages: History, key: ReadKey)
  {
    forall i, j :: i < j && ReadAt(keyOf, messages, key, i) && ReadAt(keyOf, messages, key, j) ==>
      Trim(messages[i].toolCallID) != Trim(messages[j].toolCallID)
  }

  ghost predicate ReadLater(keyOf: string -> Option<ReadKey>, messages: History, key: ReadKey, i: int)
  {
    exists j :: i < j && ReadAt(keyOf, messages, key, j)
  }

  lemma ReadAtIs(format: Format, messages: History, key: ReadKey, i: int)
    ensures InGroup(format, CallNames(messages), messages, key, i) <==> ReadAt(format.keyOf, messages, key, i)
  {
    hide Trusted, CallNames, AnswersRead, Trim;
    if 0 <= i < |messages| {
      TrustedByFields(messages, messages[i]);
    }
  }

  lemma GroupIs(format: Format, messages: History, key: ReadKey)
    ensures forall i :: InGroup(format, CallNames(messages), messages, key, i) <==> ReadAt(format.keyOf, messages, key, i)
    ensures CallsUnique(format, CallNames(messages), messages, key) <==> Apart(format.keyOf, messages, key)
  {
    hide InGroup, ReadAt, CallNames, Trim;
    forall i
      ensures InGroup(format, CallNames(messages), messages, key, i) <==> ReadAt(format.keyOf, messages, key, i)
    {
      ReadAtIs(format, messages, key, i);
    }
    ReadAtInRange(format.keyOf, messages, key);
    forall i
      ensures InGroup(format, CallNames(messages), messages, key, i) ==> 0 <= i < |messages|
    {
      InGroupInRange(format, messages, key, i);
    }
  }

  lemma ReadAtInRange(keyOf: string -> Option<ReadKey>, messages: History, key: ReadKey)
    ensures forall i :: ReadAt(keyOf, messages, key, i) ==> 0 <= i < |messages|
  {}

  lemma InGroupInRange(format: Format, messages: History, key: ReadKey, i: int)
    ensures InGroup(format, CallNames(messages), messages, key, i) ==> 0 <= i < |messages|
  {
    hide EligibleKey;
  }

  /**
    A result is replaced if and only if it is a trusted complete read, a later one shows the
    same read, and all that show it answer different calls; it then names the last of them.
   */
  lemma DuplicatesByFields(format: Format, messages: History, duplicates: Replacements, i: int, last: int)
    requires Replaces(format, CallNames(messages), messages, duplicates)
    ensures i in duplicates <==> exists key: ReadKey ::
              && ReadAt(format.keyOf, messages, key, i) && ReadLater(format.keyOf, messages, key, i)
              && Apart(format.keyOf, messages, key)
    ensures forall key: ReadKey ::
              && i in duplicates && ReadAt(format.keyOf, messages, key, i)
              && ReadAt(format.keyOf, messages, key, last) && !ReadLater(format.keyOf, messages, key, last)
              ==> 0 <= last < |messages| && duplicates[i] == messages[last].toolCallID
  {
    hide CallNames, CallsUnique, Apart, EligibleKey, ReadAt;
    var names := CallNames(messages);
    forall key: ReadKey
      ensures forall j :: InGroup(format, names, messages, key, j) <==> ReadAt(format.keyOf, messages, key, j)
      ensures CallsUnique(format, names, messages, key) <==> Apart(format.keyOf, messages, key)
    {
      GroupIs(format, messages, key);
    }
    if i in duplicates {
      SupersededRange(format, names, messages, i);
      var key := EligibleKey(format, names, messages[i]).value;
      assert InGroup(format, names, messages, key, i);
    }
    forall key: ReadKey
      ensures
        && i in duplicates && ReadAt(format.keyOf, messages, key, i)
        && ReadAt(format.keyOf, messages, key, last) && !ReadLater(format.keyOf, messages, key, last)
        ==> 0 <= last < |messages| && duplicates[i] == messages[last].toolCallID
    {
      ReplacedNames(format, messages, duplicates, i, last, key);
    }
  }

  lemma ReplacedNames(format: Format, messages: History, duplicates: Replacements, i: int, last: int, key: ReadKey)
    requires Replaces(format, CallNames(messages), messages, duplicates)
    ensures i in duplicates && ReadAt(format.keyOf, messages, key, i)
              && ReadAt(format.keyOf, messages, key, last) && !ReadLater(format.keyOf, messages, key, last)
            ==> 0 <= last < |messages| && duplicates[i] == messages[last].toolCallID
  {
    hide CallNames, EligibleKey, ReadAt, Superseded;
    GroupIs(format, messages, key);
  }

  lemma SupersededRange(format: Format, names: Names, messages: History, i: int)
    requires Superseded(format, names, messages, i)
    ensures 0 <= i < |messages| && EligibleKey(format, names, messages[i]).Some?
  {
    hide EligibleKey;
  }

  // ---------------------------------------------------------------- receipts

  predicate LeftOut(f: Field<int>) { f.Absent? || f.Null? }

  predicate SaysFlag(f: Field<bool>, b: bool) { f == Given(b) || (f.Absent? && !b) }

  /** These fields report the read `r`; an offset is 1 and a limit 2000 by default. */
  predicate Reports(f: Fields, r: Read)
  {
    && !f.foreign && f.path == Given(r.path) && Trim(r.path) != "" && f.content == Given(r.content)
    && f.size == Given(r.size) && r.size >= 0 && f.complete == Given(r.complete)
    && (f.version == Given(r.version) || (f.version.Absent? && r.version == ""))
    && r.offset >= 1 && (f.offset == Given(r.offset) || (LeftOut(f.offset) && r.offset == 1))
    && r.limit >= 1 && (f.limit == Given(r.limit) || (LeftOut(f.limit) && r.limit == 2000))
    && SaysFlag(f.truncated, r.truncated) && SaysFlag(f.binary, r.binary) && SaysFlag(f.missing, r.missing)
    && (if r.proposal.Some? then f.proposal == Given(r.proposal.value) else f.proposal.Absent?)
  }

  /** A read is the whole file or its absence of content, a page of it, or a missing file. */
  predicate Coherent(r: Read)
  {
    && |r.content| <= r.size
    && if r.complete
       then
         && !r.missing && !r.truncated && Trim(r.version) != "" && r.offset == 1
         && multiset(r.content)['\n'] < r.limit && |r.content| == if r.binary then 0 else r.size
       else
         && !r.binary && Trim(r.version) == ""
         && (r.missing ==> r.version == "" && r.size == 0 && !r.truncated && r.proposal.Some?)
  }

  lemma {:induction false} LinesAre(text: string)
    ensures Lines(text) == multiset(text)['\n']
  {
    if text != "" {
      LinesAre(text[..|text| - 1]);
      assert text == text[..|text| - 1] + [text[|text| - 1]];
    }
  }

  /** A receipt is decoded exactly as a coherent read that its fields report. */
  lemma DecodesExactly(f: Fields, r: Read)
    ensures Decoded(f) == Some(r) <==> Reports(f, r) && Coherent(r)
  {
    hide Trim, Lines;
    LinesAre(r.content);
    if Assembled(f).Some? {
      LinesAre(Assembled(f).value.content);
    }
    TrimEmpty();
  }

  lemma TrimEmpty()
    ensures Trim("") == ""
  {}

  /** The fields of a complete read with its key. */
  predicate KeyedFields(f: Fields, key: ReadKey)
  {
    && !f.foreign && f.path == Given(key.path) && Trim(key.path) != "" && f.content == Given(key.content)
    && f.version == Given(key.version) && Trim(key.version) != "" && f.size == Given(key.size) && key.size >= 0
    && f.complete == Given(true) && f.offset == Given(1) && f.limit == Given(key.limit) && key.limit > 0
    && SaysFlag(f.truncated, false) && SaysFlag(f.binary, false) && SaysFlag(f.missing, false)
    && (f.proposal.Absent? || f.proposal.Given?) && key.offset == 1 && !key.truncated && !key.binary
  }

  /** A literal source text of a whole file, nothing cut off. */
  predicate KeyedRead(r: Read, clipped: bool, key: ReadKey)
  {
    && !clipped && r.complete && !r.truncated && !r.binary && r.offset == 1 && r.path != "" && Trim(r.version) != ""
    && |r.content| == r.size && key == ReadKey(r.path, r.content, r.version, r.size, 1, r.limit, false, false)
  }

  /** A text shows a complete read exactly as a receipt or a literal source with these fields. */
  lemma KeyExactly(c: Codec, text: string, key: ReadKey)
    ensures KeyOf(c, text) == Some(key) <==>
              || (c.parse(text).Structured? && KeyedFields(c.parse(text).fields, key))
              || (c.parse(text).Literal? && KeyedRead(c.parse(text).read, c.parse(text).clipped, key))
  {
    hide Trim;
  }

  // ---------------------------------------------------------------- renderings

  /** The literal text of a whole read; a version is shown for complete reads only. */
  function WholeText(c: Codec, r: Read): string
  {
    c.write(r.(version := if r.complete then r.version else ""), r.content, "")
  }

  function Shorter(c: Codec, r: Read): Read
  {
    if r.proposal.Some? then r.(proposal := Some(c.shorten(r.proposal.value))) else r
  }

  /** The literal text with only `b` characters of content, the odd one in front. */
  function CutText(c: Codec, r: Read, b: nat): string
    requires b <= |r.content|
  {
    c.write(r.(complete := false, truncated := true, version := ""), r.content[..b - b / 2], r.content[|r.content| - b / 2..])
  }

  /** The cut text with `b` characters fits, and one more would not. */
  predicate LargestCut(c: Codec, r: Read, b: nat, t: string)
  {
    && b <= |r.content| && b <= 10_000 && t != "" && t == CutText(c, r, b) && |t| <= 10_000
    && (b == |r.content| || b == 10_000 || |CutText(c, r, b + 1)| > 10_000)
  }

  predicate NothingFits(c: Codec, r: Read)
  {
    |CutText(c, r, 0)| > 10_000 || exists b: nat :: b <= |r.content| && CutText(c, r, b) == ""
  }

  ghost predicate ShownCut(c: Codec, r: Read, t: Option<string>)
  {
    match t
    case None => NothingFits(c, r)
    case Some(text) => exists b: nat :: LargestCut(c, r, b, text)
  }

  /** A read is shown whole, else with a shorter proposal, else cut as little as fits. */
  ghost predicate ShownAs(c: Codec, r: Read, t: Option<string>)
  {
    if |WholeText(c, r)| <= 10_000 then t == Some(WholeText(c, r))
    else if |WholeText(c, Shorter(c, r))| <= 10_000 then t == Some(WholeText(c, Shorter(c, r)))
    else if r.binary then t == None
    else ShownCut(c, Shorter(c, r), t)
  }

  lemma FullIs(c: Codec, r: Read)
    requires r.complete ==> !r.truncated
    ensures Full(c, r) == WholeText(c, r)
  {
    var shown := r.(version := if r.complete then r.version else "");
    assert shown == r.(complete := r.complete && !r.truncated && !false, truncated := r.truncated || false,
                       version := if r.complete && !r.truncated && !false then r.version else "");
  }

  lemma ClippedIs(c: Codec, r: Read, b: nat)
    requires b <= |r.content|
    ensures Clipped(c, r, b) == CutText(c, r, b)
  {
    assert (b + 1) / 2 == b - b / 2;
  }

  ghost predicate Searching(c: Codec, r: Read, low: int, high: int, best: string)
  {
    && 0 <= low <= high + 1 && high <= |r.content| && high <= 10_000
    && (if low == 0 then best == "" else low - 1 <= |r.content| && best == CutText(c, r, low - 1) && |best| <= 10_000)
    && (high == |r.content| || high == 10_000 || |CutText(c, r, high + 1)| > 10_000)
  }

  lemma {:induction false} SearchIs(c: Codec, r: Read, low: int, high: int, best: string)
    requires Searching(c, r, low, high, best)
    ensures var t := Search(c, r, low, high, best); ShownCut(c, r, if t == "" then None else Some(t))
    decreases high - low + 1
  {
    hide CutText, Clipped;
    if low > high {
      if best != "" {
        assert LargestCut(c, r, high, best);
      } else if low > 0 {
        assert CutText(c, r, low - 1) == "";
      }
    } else {
      var budget := low + (high - low) / 2;
      ClippedIs(c, r, budget);
      if |Clipped(c, r, budget)| <= MAX_OUTPUT {
        SearchIs(c, r, budget + 1, high, Clipped(c, r, budget));
      } else {
        SearchIs(c, r, low, budget - 1, best);
      }
    }
  }

  lemma BoundedByFields(c: Codec, r: Read)
    requires Coherent(r)
    ensures ShownAs(c, r, Bounded(c, r))
  {
    hide Full, WholeText, Search, ShownCut, CutText, Clipped, Trim, Lines;
    FullIs(c, r);
    FullIs(c, Shorter(c, r));
    SearchIs(c, Shorter(c, r), 0, if |r.content| < MAX_OUTPUT then |r.content| else MAX_OUTPUT, "");
  }

  /** The read that a trusted result reports. */
  predicate ReportsRead(c: Codec, text: string, r: Read)
  {
    c.parse(text).Structured? && Reports(c.parse(text).fields, r) && Coherent(r)
  }

  /**
    A trusted receipt of a read is shown as that read; any other text, and a receipt of which
    nothing fits, is shown as it is when it fits and cut otherwise.
   */
  lemma RenderedByFields(c: Codec, trusted: bool, text: string)
    ensures var plain, shown := if |text| <= 10_000 then text else c.cut(text), Render(c, trusted, text);
            && (forall r: Read :: trusted && ReportsRead(c, text, r) ==>
                  ShownAs(c, r, Some(shown)) || (ShownAs(c, r, None) && shown == plain))
            && ((!trusted || forall r: Read :: !ReportsRead(c, text, r)) ==> shown == plain)
  {
    hide Bounded, ShownAs, Decoded, Reports, Coherent;
    var plain, shown := if |text| <= 10_000 then text else c.cut(text), Render(c, trusted, text);
    if c.parse(text).Structured? {
      var f := c.parse(text).fields;
      forall r: Read
        ensures Decoded(f) == Some(r) <==> Reports(f, r) && Coherent(r)
      {
        DecodesExactly(f, r);
      }
      if Decoded(f).Some? {
        BoundedByFields(c, Decoded(f).value);
        assert ReportsRead(c, text, Decoded(f).value);
      }
    }
  }

  /**
    Projecting the history, message by message: only the content of tool results changes; a
    replaced result becomes a notice of the path it read, and each is rendered, as a read
    exactly when every call with its ID is one of read_file.
   */
  lemma PayloadByFields(c: Codec, messages: History, payload: History, duplicates: Replacements, i: nat)
    requires Replaces(FormatOf(c), CallNames(messages), messages, duplicates)
    requires payload == Payload(FormatOf(c), Projection(c, CallNames(messages)), messages, duplicates) && i < |messages|
    ensures |payload| == |messages|
    ensures messages[i].role != "tool" ==> payload[i] == messages[i]
    ensures i in duplicates ==> KeyOf(c, messages[i].content).Some?
    ensures messages[i].role == "tool" ==>
              var text := if i in duplicates then c.notice(KeyOf(c, messages[i].content).value.path, duplicates[i])
                          else messages[i].content;
              payload[i] == messages[i].(content := Render(c, AnswersRead(messages, messages[i]), text))
  {
    hide CallNames, Trusted, AnswersRead, Render, KeyOf, Payload, Superseded, Trim;
    var format, names := FormatOf(c), CallNames(messages);
    PayloadIs(format, Projection(c, names), messages, duplicates, i);
    TrustedByFields(messages, messages[i]);
    if messages[i].role != "tool" {
      OnlyToolsReplaced(format, names, messages, duplicates, i);
    }
    if i in duplicates {
      SupersededRange(format, names, messages, i);
    }
    TrustIgnoresContent(names, messages[i]);
  }

  lemma TrustIgnoresContent(names: Names, m: ChatMessage)
    ensures forall text: string :: Trusted(names, m.(content := text)) == Trusted(names, m)
  {}
}
