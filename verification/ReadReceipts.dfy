/**
  What a read result says and how it is shown to the model: the receipt of the tool, the
  literal source rendered from it within a bound, and what the rendering does to complete
  reads, so what projecting the history twice does.
 */
module ReadReceipts {
  import opened Wrappers
  import opened Text
  import opened Chat
  import opened ReadDeduplication

  /** projectEinoAssistantModelToolOutputMaxBytes, and the line limit of a receipt that gives none. */
  const MAX_OUTPUT: nat := 10_000
  const DEFAULT_LIMIT := 2000

  /** One field of a decoded receipt. */
  datatype Field<T> = Absent | Null | Malformed | Given(value: T)

  /** The proposal of a conflicting write; a value is a valid one. */
  datatype Proposal = Proposal(text: string)

  /** The fields of a receipt without duplicates; `foreign` says that it has others. */
  datatype Fields = Fields(
    path: Field<string>, content: Field<string>, size: Field<int>, version: Field<string>, complete: Field<bool>,
    offset: Field<int>, limit: Field<int>, truncated: Field<bool>, binary: Field<bool>, missing: Field<bool>,
    proposal: Field<Proposal>, foreign: bool)

  datatype Read = Read(
    path: string, content: string, version: string, size: int, offset: int, limit: int,
    complete: bool, truncated: bool, binary: bool, missing: bool, proposal: Option<Proposal>)

  /** What a result text is: rendered source, a receipt, or anything else. */
  datatype Source =
    | Literal(read: Read, clipped: bool)
    | Structured(fields: Fields)
    | Other

  /**
    The texts that are not modelled: parsing a result, writing the head and tail of a read as
    literal source, cutting an overlong text, shortening a proposal, and the notice of a path
    and a call ID.
   */
  datatype Codec = Codec(
    parse: string -> Source,
    write: (Read, string, string) -> string,
    cut: string -> string,
    shorten: Proposal -> Proposal,
    notice: (string, string) -> string)

  function Lines(text: string): nat
  {
    if text == "" then 0 else Lines(text[..|text| - 1]) + (if text[|text| - 1] == '\n' then 1 else 0)
  }

  /** A read of the whole text of a file. */
  predicate Whole(r: Read)
  {
    && r.complete && !r.truncated && !r.binary && !r.missing && r.offset == 1 && r.limit >= 1
    && Trim(r.path) != "" && Trim(r.version) != "" && |r.content| == r.size && Lines(r.content) < r.limit
  }

  /** Literal source that fits is read back as it was written if it is whole, and never as more. */
  ghost predicate Written(c: Codec, r: Read, head: string, tail: string)
  {
    var text := c.write(r, head, tail);
    && !c.parse(text).Structured?
    && (c.parse(text).Literal? ==> c.parse(text).read.complete == r.complete && c.parse(text).read.binary == r.binary)
    && (Whole(r) && head == r.content && tail == "" && |text| <= MAX_OUTPUT ==> c.parse(text) == Literal(r, false))
  }

  /** A cut text is within the bound and no receipt; a receipt does not become source by being cut. */
  ghost predicate CutShort(c: Codec, text: string)
  {
    && |c.cut(text)| <= MAX_OUTPUT && !c.parse(c.cut(text)).Structured?
    && (c.parse(text).Structured? ==> c.parse(c.cut(text)).Other?)
  }

  /** A notice has fields that no receipt has, and is no source either, cut or not. */
  ghost predicate Noticed(c: Codec, text: string)
  {
    && !c.parse(text).Literal? && (c.parse(text).Structured? ==> c.parse(text).fields.foreign)
    && (|text| > MAX_OUTPUT ==> c.parse(c.cut(text)).Other?)
  }

  ghost predicate Faithful(c: Codec)
  {
    && (forall text: string :: c.parse(text).Literal? ==> |text| <= MAX_OUTPUT)
    && (forall r: Read, head: string, tail: string :: Written(c, r, head, tail))
    && (forall text: string :: |text| > MAX_OUTPUT ==> CutShort(c, text))
    && (forall path: string, id: string :: Noticed(c, c.notice(path, id)))
  }

  // ---------------------------------------------------------------- the key of a complete read

  function Flag(f: Field<bool>): Option<bool>
  {
    match f
    case Absent => Some(false)
    case Given(b) => Some(b)
    case _ => None
  }

  predicate NonBlank(f: Field<string>) { f.Given? && Trim(f.value) != "" }

  /** The receipt schema of a complete text read: nothing is left to a default. */
  predicate Canonical(f: Fields)
  {
    && !f.foreign && Flag(f.missing) == Some(false) && (f.proposal.Absent? || f.proposal.Given?)
    && NonBlank(f.path) && f.content.Given? && f.size.Given? && f.size.value >= 0 && NonBlank(f.version)
    && f.complete == Given(true) && f.offset == Given(1) && f.limit.Given? && f.limit.value > 0
    && Flag(f.truncated) == Some(false) && Flag(f.binary) == Some(false)
  }

  function CanonicalKey(f: Fields): ReadKey
    requires Canonical(f)
  {
    ReadKey(f.path.value, f.content.value, f.version.value, f.size.value, 1, f.limit.value, false, false)
  }

  /** projectEinoAssistantCompleteReadFileReceiptKey. */
  function KeyOf(c: Codec, text: string): Option<ReadKey>
  {
    match c.parse(text)
    case Literal(r, clipped) =>
      if r.binary || !r.complete || r.truncated || clipped || r.offset != 1 || r.path == "" || Trim(r.version) == ""
         || |r.content| != r.size
      then None
      else Some(ReadKey(r.path, r.content, r.version, r.size, r.offset, r.limit, false, false))
    case Structured(f) =>
      if !Canonical(f) then None
      else Some(CanonicalKey(f))
    case Other => None
  }

  // ---------------------------------------------------------------- reading a receipt

  function Count(f: Field<int>, otherwise: int): Option<int>
  {
    match f
    case Given(n) => if n >= 1 then Some(n) else None
    case Malformed => None
    case _ => Some(otherwise)
  }

  /** The read a receipt stands for, before its fields are compared with one another. */
  function Assembled(f: Fields): Option<Read>
  {
    if f.foreign || !NonBlank(f.path) || !f.content.Given? || !f.size.Given? || f.size.value < 0 || !f.complete.Given?
       || Count(f.offset, 1).None? || Count(f.limit, DEFAULT_LIMIT).None? || !(f.version.Absent? || f.version.Given?)
       || Flag(f.truncated).None? || Flag(f.binary).None? || Flag(f.missing).None?
       || !(f.proposal.Absent? || f.proposal.Given?)
    then None
    else
      Some(Read(
        f.path.value, f.content.value, if f.version.Given? then f.version.value else "", f.size.value,
        Count(f.offset, 1).value, Count(f.limit, DEFAULT_LIMIT).value, f.complete.value,
        Flag(f.truncated).value, Flag(f.binary).value, Flag(f.missing).value,
        if f.proposal.Given? then Some(f.proposal.value) else None))
  }

  predicate Consistent(r: Read)
  {
    && (r.missing ==> !r.complete && r.version == "" && r.content == "" && r.size == 0 && !r.truncated && !r.binary
                      && r.proposal.Some?)
    && (r.complete ==> !r.truncated && Trim(r.version) != "" && r.offset == 1 && Lines(r.content) < r.limit)
    && (!r.complete ==> Trim(r.version) == "")
    && (r.binary ==> r.complete && r.content == "")
    && (!r.binary && r.complete ==> |r.content| == r.size)
    && |r.content| <= r.size
  }

  /** projectEinoAssistantDecodeReadFileOutput. */
  function Decoded(f: Fields): Option<Read>
  {
    match Assembled(f)
    case None => None
    case Some(r) => if Consistent(r) then Some(r) else None
  }

  // ---------------------------------------------------------------- rendering

  /** projectEinoAssistantRenderLiteralReadFileSegments: a clipped or truncated read proves no version. */
  function Segments(c: Codec, r: Read, head: string, tail: string, clipped: bool): string
  {
    var complete := r.complete && !r.truncated && !clipped;
    c.write(r.(complete := complete, truncated := r.truncated || clipped, version := if complete then r.version else ""),
            head, tail)
  }

  function Full(c: Codec, r: Read): string { Segments(c, r, r.content, "", false) }

  /** The source with `budget` characters shown, the odd one at its head. */
  function Clipped(c: Codec, r: Read, budget: nat): string
    requires budget <= |r.content|
  {
    var head := (budget + 1) / 2;
    Segments(c, r, r.content[..head], r.content[|r.content| - (budget - head)..], true)
  }

  /** The binary search for the largest budget whose text fits; `best` is the last that did. */
  function Search(c: Codec, r: Read, low: int, high: int, best: string): string
    requires 0 <= low && high <= |r.content|
    decreases high - low + 1
  {
    if low > high then best
    else
      var budget := low + (high - low) / 2;
      if |Clipped(c, r, budget)| <= MAX_OUTPUT then Search(c, r, budget + 1, high, Clipped(c, r, budget))
      else Search(c, r, low, budget - 1, best)
  }

  function Shortened(c: Codec, r: Read): Read
  {
    if r.proposal.Some? then r.(proposal := Some(c.shorten(r.proposal.value))) else r
  }

  function Bounded(c: Codec, r: Read): Option<string>
  {
    var shorter := Shortened(c, r);
    if |Full(c, r)| <= MAX_OUTPUT then Some(Full(c, r))
    else if |Full(c, shorter)| <= MAX_OUTPUT then Some(Full(c, shorter))
    else if r.binary then None
    else
      var best := Search(c, shorter, 0, if |r.content| < MAX_OUTPUT then |r.content| else MAX_OUTPUT, "");
      if best == "" then None else Some(best)
  }

  /** projectEinoAssistantTruncateGenericToolOutput. */
  function Generic(c: Codec, text: string): string { if |text| <= MAX_OUTPUT then text else c.cut(text) }

  /** projectEinoAssistantProjectModelReadFileOutput. */
  function Projected(c: Codec, text: string): Option<string>
  {
    match c.parse(text)
    case Literal(_, _) => Some(Generic(c, text))
    case Structured(f) => (match Decoded(f) case None => None case Some(r) => Bounded(c, r))
    case Other => None
  }

  function Render(c: Codec, trusted: bool, text: string): string
  {
    if trusted && Projected(c, text).Some? then Projected(c, text).value else Generic(c, text)
  }

  method ClipToFit(c: Codec, r: Read) returns (best: string)
    ensures best == Search(c, r, 0, if |r.content| < MAX_OUTPUT then |r.content| else MAX_OUTPUT, "")
  {
    hide Clipped;
    best := "";
    var low: int, high: int := 0, if |r.content| < MAX_OUTPUT then |r.content| else MAX_OUTPUT;
    ghost var top := high;
    while low <= high
      invariant 0 <= low && high <= |r.content|
      invariant Search(c, r, low, high, best) == Search(c, r, 0, top, "")
      decreases high - low + 1
    {
      var budget := low + (high - low) / 2;
      var candidate := Clipped(c, r, budget);
      if |candidate| <= MAX_OUTPUT {
        best := candidate;
        low := budget + 1;
      } else {
        high := budget - 1;
      }
    }
  }

  method ProjectRead(c: Codec, text: string) returns (r: Option<string>)
    ensures r == Projected(c, text)
  {
    hide Decoded, Full, Search;
    match c.parse(text) {
      case Literal(_, _) => return Some(Generic(c, text));
      case Other => return None;
      case Structured(f) =>
        match Decoded(f) {
          case None => return None;
          case Some(read) =>
            var result, full := read, Full(c, read);
            if |full| <= MAX_OUTPUT {
              return Some(full);
            }
            if result.proposal.Some? {
              result := result.(proposal := Some(c.shorten(result.proposal.value)));
              full := Full(c, result);
              if |full| <= MAX_OUTPUT {
                return Some(full);
              }
            }
            if result.binary {
              return None;
            }
            var best := ClipToFit(c, result);
            return if best == "" then None else Some(best);
        }
    }
  }

  /** The renderings as the parameters of the deduplication. */
  function FormatOf(c: Codec): Format
  {
    Format((text: string) => KeyOf(c, text), (key: ReadKey, id: string) => c.notice(key.path, id))
  }

  function Projection(c: Codec, names: Names): ChatMessage -> string
  {
    (m: ChatMessage) => Render(c, Trusted(names, m), m.content)
  }

  /** How one tool result is shown. */
  method RenderMessage(c: Codec, names: Names, m: ChatMessage) returns (r: ChatMessage)
    ensures r == m.(content := Projection(c, names)(m))
  {
    hide Trusted, Projected;
    if Trusted(names, m) {
      var literal := ProjectRead(c, m.content);
      return m.(content := if literal.Some? then literal.value else Generic(c, m.content));
    }
    return m.(content := Generic(c, m.content));
  }

  lemma PayloadIs(format: Format, project: ChatMessage -> string, messages: History, duplicates: Replacements, i: nat)
    requires i < |messages|
    ensures var was, key := messages[i], format.keyOf(messages[i].content);
            var m := if i in duplicates && key.Some? then was.(content := format.notice(key.value, duplicates[i])) else was;
            Payload(format, project, messages, duplicates)[i] == if m.role == "tool" then m.(content := project(m)) else m
  {
    hide Rewritten;
    RewrittenIs(format, messages, duplicates, i);
  }

  /** projectEinoAssistantConversationPayload, as far as it rewrites tool results. */
  method ConversationPayload(c: Codec, messages: History) returns (payload: History, duplicates: Replacements)
    ensures Replaces(FormatOf(c), CallNames(messages), messages, duplicates)
    ensures payload == Payload(FormatOf(c), Projection(c, CallNames(messages)), messages, duplicates)
  {
    var names := CollectCallNames(messages);
    duplicates := DuplicateResults(FormatOf(c), names, messages);
    hide CallNames, Replaces, KeyOf, Projection, Payload;
    ghost var whole := Payload(FormatOf(c), Projection(c, names), messages, duplicates);
    payload := [];
    for i := 0 to |messages|
      invariant payload == whole[..i]
    {
      PayloadIs(FormatOf(c), Projection(c, names), messages, duplicates, i);
      var message := messages[i];
      if message.role == "tool" {
        var key := KeyOf(c, message.content);
        if i in duplicates && key.Some? {
          message := message.(content := c.notice(key.value.path, duplicates[i]));
        }
        message := RenderMessage(c, names, message);
      } else {
        OnlyToolsReplaced(FormatOf(c), names, messages, duplicates, i);
      }
      payload := payload + [message];
    }
  }

  lemma OnlyToolsReplaced(format: Format, names: Names, messages: History, duplicates: Replacements, i: nat)
    requires Replaces(format, names, messages, duplicates) && i < |messages| && messages[i].role != "tool"
    ensures i !in duplicates
  {
    hide Superseded, NamesLast;
    if i in duplicates {
      SupersededIsTool(format, names, messages, i);
    }
  }

  // ---------------------------------------------------------------- what rendering keeps

  /** A text that is no receipt stays as it is or is cut. */
  lemma GenericKeeps(c: Codec, text: string)
    requires Faithful(c)
    ensures |Generic(c, text)| <= MAX_OUTPUT
    ensures |text| <= MAX_OUTPUT ==> Generic(c, text) == text
    ensures c.parse(text).Structured? && |text| > MAX_OUTPUT ==> KeyOf(c, Generic(c, text)).None?
  {
    assert |text| > MAX_OUTPUT ==> CutShort(c, text);
    hide Faithful, Canonical;
  }

  /** What a read shows in full: its key if it is whole, and none otherwise. */
  lemma FullKey(c: Codec, r: Read)
    requires Faithful(c) && Consistent(r) && Trim(r.path) != "" && r.limit >= 1 && |Full(c, r)| <= MAX_OUTPUT
    ensures KeyOf(c, Full(c, r))
         == if r.complete && !r.binary then Some(ReadKey(r.path, r.content, r.version, r.size, 1, r.limit, false, false))
            else None
  {
    hide Trim, Lines;
    var complete := r.complete && !r.truncated;
    var shown := r.(complete := complete, truncated := r.truncated, version := if complete then r.version else "");
    assert Written(c, shown, r.content, "");
    hide Faithful;
    if r.complete {
      assert shown == r;
      if !r.binary {
        assert Trim("") == "";
        assert Whole(r);
      }
    }
  }

  lemma ClippedKey(c: Codec, r: Read, budget: nat)
    requires Faithful(c) && budget <= |r.content|
    ensures KeyOf(c, Clipped(c, r, budget)).None? && !c.parse(Clipped(c, r, budget)).Structured?
  {
    hide Trim, Lines, Whole;
    var shown := r.(complete := false, truncated := true, version := "");
    var head := (budget + 1) / 2;
    assert Written(c, shown, r.content[..head], r.content[|r.content| - (budget - head)..]);
    hide Faithful;
  }

  /** The search ends with what it started from or with a clipped text that fits. */
  lemma {:induction false} SearchFinds(c: Codec, r: Read, low: int, high: int, best: string)
    requires Faithful(c) && 0 <= low && high <= |r.content|
    ensures var found := Search(c, r, low, high, best);
            found == best || (|found| <= MAX_OUTPUT && KeyOf(c, found).None? && !c.parse(found).Structured?)
    decreases high - low + 1
  {
    hide Faithful, Clipped, KeyOf;
    if low <= high {
      var budget := low + (high - low) / 2;
      ClippedKey(c, r, budget);
      if |Clipped(c, r, budget)| <= MAX_OUTPUT {
        SearchFinds(c, r, budget + 1, high, Clipped(c, r, budget));
      } else {
        SearchFinds(c, r, low, budget - 1, best);
      }
    }
  }

  /** A whole text read that fits, its proposal shortened if need be. */
  predicate FitsWhole(c: Codec, r: Read)
  {
    r.complete && !r.binary && (|Full(c, r)| <= MAX_OUTPUT || |Full(c, Shortened(c, r))| <= MAX_OUTPUT)
  }

  function ReadKeyOf(r: Read): ReadKey { ReadKey(r.path, r.content, r.version, r.size, 1, r.limit, false, false) }

  lemma FullIsNoReceipt(c: Codec, r: Read)
    requires Faithful(c)
    ensures !c.parse(Full(c, r)).Structured?
  {
    hide Trim, Lines, Whole;
    var complete := r.complete && !r.truncated;
    var shown := r.(complete := complete, truncated := r.truncated, version := if complete then r.version else "");
    assert Written(c, shown, r.content, "");
    hide Faithful;
  }

  lemma ShortenedIs(c: Codec, r: Read)
    requires Consistent(r)
    ensures var s := Shortened(c, r);
            Consistent(s) && s == r.(proposal := s.proposal) && ReadKeyOf(s) == ReadKeyOf(r)
  {
    hide Trim, Lines;
  }

  /** The bounded rendering of a read fits, is no receipt, and has the key of the read if that fits whole. */
  lemma BoundedKey(c: Codec, r: Read)
    requires Faithful(c) && Consistent(r) && Trim(r.path) != "" && r.limit >= 1 && Bounded(c, r).Some?
    ensures var text := Bounded(c, r).value;
            && |text| <= MAX_OUTPUT && !c.parse(text).Structured?
            && KeyOf(c, text) == if FitsWhole(c, r) then Some(ReadKeyOf(r)) else None
  {
    hide Faithful, Full, Search, KeyOf, Consistent, Trim;
    var shorter := Shortened(c, r);
    ShortenedIs(c, r);
    hide Shortened;
    if |Full(c, r)| <= MAX_OUTPUT {
      FullKey(c, r);
      FullIsNoReceipt(c, r);
    } else if |Full(c, shorter)| <= MAX_OUTPUT {
      FullKey(c, shorter);
      FullIsNoReceipt(c, shorter);
    } else {
      SearchFinds(c, shorter, 0, if |r.content| < MAX_OUTPUT then |r.content| else MAX_OUTPUT, "");
    }
  }

  /** A canonical receipt, once decoded, is the read of its key. */
  lemma CanonicalRead(f: Fields)
    requires Decoded(f).Some?
    ensures var r := Decoded(f).value;
            && Consistent(r) && Trim(r.path) != "" && r.limit >= 1
            && (Canonical(f) <==> r.complete && !r.binary && f.offset.Given? && f.limit.Given?)
            && (Canonical(f) ==> ReadKeyOf(r) == CanonicalKey(f))
  {
    hide Trim, Lines;
    assert Trim("") == "";
  }

  lemma LiteralFits(c: Codec, text: string)
    requires Faithful(c) && c.parse(text).Literal?
    ensures |text| <= MAX_OUTPUT
  {}

  /** What a trusted result shows, receipt by receipt. */
  lemma RenderedReceipt(c: Codec, text: string)
    requires Faithful(c) && c.parse(text).Structured?
    ensures var f := c.parse(text).fields;
            if Decoded(f).Some? && Bounded(c, Decoded(f).value).Some?
            then KeyOf(c, Render(c, true, text)) == if FitsWhole(c, Decoded(f).value) then Some(ReadKeyOf(Decoded(f).value)) else None
            else Render(c, true, text) == Generic(c, text)
  {
    hide Faithful, KeyOf, Decoded, Bounded, FitsWhole, Generic, ReadKeyOf, Trim, Consistent;
    var f := c.parse(text).fields;
    if Decoded(f).Some? && Bounded(c, Decoded(f).value).Some? {
      CanonicalRead(f);
      BoundedKey(c, Decoded(f).value);
    }
  }

  lemma KeyOfReceipt(c: Codec, text: string)
    requires c.parse(text).Structured?
    ensures KeyOf(c, text).Some? <==> Canonical(c.parse(text).fields)
    ensures Canonical(c.parse(text).fields) && Decoded(c.parse(text).fields).Some? ==>
              KeyOf(c, text) == Some(ReadKeyOf(Decoded(c.parse(text).fields).value))
  {
    if Decoded(c.parse(text).fields).Some? {
      CanonicalRead(c.parse(text).fields);
    }
    hide Canonical, Decoded;
  }

  /** Rendering leaves the key of a complete read as it is or takes it away; it can only add one where there was none. */
  lemma RenderKeepsKey(c: Codec, trusted: bool, text: string)
    requires Faithful(c)
    ensures KeyOf(c, Render(c, trusted, text)).None? || KeyOf(c, text).None?
            || KeyOf(c, Render(c, trusted, text)) == KeyOf(c, text)
  {
    hide Faithful, Canonical, Decoded, Bounded, FitsWhole, ReadKeyOf;
    GenericKeeps(c, text);
    match c.parse(text)
    case Literal(_, _) => LiteralFits(c, text);
    case Other =>
    case Structured(f) =>
      KeyOfReceipt(c, text);
      RenderedReceipt(c, text);
      hide KeyOf, Generic, Projected;
  }

  /**
    A result that becomes a complete read only by being rendered: a receipt of a whole text
    that leaves its offset or its limit to the default and fits, or an overlong text that
    reads as whole source when cut.
   */
  predicate Completes(c: Codec, text: string)
  {
    match c.parse(text)
    case Structured(f) =>
      && Decoded(f).Some? && !(f.offset.Given? && f.limit.Given?)
      && FitsWhole(c, Decoded(f).value)
    case Other => |text| > MAX_OUTPUT && KeyOf(c, c.cut(text)).Some?
    case Literal(_, _) => false
  }

  lemma CompletesExactly(c: Codec, text: string)
    requires Faithful(c)
    ensures Completes(c, text) <==> KeyOf(c, text).None? && KeyOf(c, Render(c, true, text)).Some?
  {
    hide Faithful, Canonical, Full, Decoded, ReadKeyOf, Search;
    GenericKeeps(c, text);
    match c.parse(text)
    case Literal(_, _) => LiteralFits(c, text);
    case Other =>
    case Structured(f) =>
      KeyOfReceipt(c, text);
      RenderedReceipt(c, text);
      if Decoded(f).Some? {
        CanonicalRead(f);
        assert FitsWhole(c, Decoded(f).value) ==> Bounded(c, Decoded(f).value).Some?;
      }
      hide KeyOf, Generic, Projected, Bounded, FitsWhole, Trim, Consistent;
  }

  /** A text within the bound that is no decodable receipt is shown as it is. */
  lemma ShownAsIs(c: Codec, trusted: bool, text: string)
    requires |text| <= MAX_OUTPUT && (trusted && c.parse(text).Structured? ==> Projected(c, text).None?)
    ensures Render(c, trusted, text) == text
  {}

  lemma CutIsNoReceipt(c: Codec, text: string)
    requires Faithful(c) && |text| > MAX_OUTPUT
    ensures |c.cut(text)| <= MAX_OUTPUT && !c.parse(c.cut(text)).Structured?
  {
    assert CutShort(c, text);
    hide Faithful;
  }

  lemma RenderTwice(c: Codec, trusted: bool, text: string)
    requires Faithful(c)
    ensures Render(c, trusted, Render(c, trusted, text)) == Render(c, trusted, text)
  {
    hide Faithful, Decoded, Bounded;
    var shown := Render(c, trusted, text);
    if |text| > MAX_OUTPUT {
      CutIsNoReceipt(c, text);
    }
    if trusted && c.parse(text).Structured? && Decoded(c.parse(text).fields).Some? {
      CanonicalRead(c.parse(text).fields);
      if Bounded(c, Decoded(c.parse(text).fields).value).Some? {
        BoundedKey(c, Decoded(c.parse(text).fields).value);
        assert shown == Bounded(c, Decoded(c.parse(text).fields).value).value;
      }
    }
    hide Canonical, FitsWhole, Consistent, KeyOf;
    ShownAsIs(c, trusted, shown);
  }

  lemma NoticeStays(c: Codec, trusted: bool, path: string, id: string)
    requires Faithful(c)
    ensures KeyOf(c, c.notice(path, id)).None? && KeyOf(c, Render(c, trusted, c.notice(path, id))).None?
  {
    var text := c.notice(path, id);
    assert Noticed(c, text);
    hide Faithful, Bounded, Consistent, Trim;
  }

  /** The renderings are what the theorems on deduplication ask for. */
  lemma RenderingIsSound(c: Codec, names: Names)
    requires Faithful(c)
    ensures Sound(FormatOf(c)) && Renders(FormatOf(c), Projection(c, names))
  {
    hide Faithful, KeyOf, Render, Trusted;
    var format, project := FormatOf(c), Projection(c, names);
    forall key: ReadKey, id: string
      ensures format.keyOf(format.notice(key, id)).None?
    {
      NoticeStays(c, true, key.path, id);
    }
    forall m: ChatMessage
      ensures KeepsKey(format, project, m)
      ensures project(m.(content := project(m))) == project(m)
    {
      RenderKeepsKey(c, Trusted(names, m), m.content);
      RenderTwice(c, Trusted(names, m), m.content);
      SameTrust(names, m, m.(content := project(m)));
    }
    forall m: ChatMessage, key: ReadKey, id: string
      ensures format.keyOf(project(m.(content := format.notice(key, id)))).None?
    {
      NoticeStays(c, Trusted(names, m.(content := format.notice(key, id))), key.path, id);
    }
  }

  // ---------------------------------------------------------------- projecting the history twice

  /** Trusted result `i` is completed by its rendering and then shows the key of another that stays. */
  ghost predicate CompletedBeside(c: Codec, messages: History, i: int, j: int)
  {
    var names := CallNames(messages);
    && i != j && 0 <= i < |messages| && messages[i].role == "tool" && Trusted(names, messages[i])
    && Trim(messages[i].toolCallID) != "" && Completes(c, messages[i].content)
    && KeyOf(c, Render(c, true, messages[i].content)).Some?
    && var key := KeyOf(c, Render(c, true, messages[i].content)).value;
       && Stays(FormatOf(c), Projection(c, names), names, messages, key, i)
       && Stays(FormatOf(c), Projection(c, names), names, messages, key, j)
  }

  lemma JoinsExactly(c: Codec, messages: History, i: int, j: int)
    requires Faithful(c)
    ensures Joins(FormatOf(c), Projection(c, CallNames(messages)), CallNames(messages), messages, i, j)
       <==> CompletedBeside(c, messages, i, j)
  {
    if 0 <= i < |messages| {
      CompletesExactly(c, messages[i].content);
      var names, m := CallNames(messages), messages[i];
      SameTrust(names, m, m.(content := Projection(c, names)(m)));
    }
    hide Faithful, Stays, Trusted, Trim, Completes, KeyOf, Render, CallNames;
  }

  /**
    With distinct calls, projecting the history again changes nothing, unless exactly this
    occurs: a receipt was completed by its rendering and shows the same complete read as
    another result that stays.
   */
  lemma ProjectedTwiceExactly(c: Codec, messages: History, duplicates: Replacements, second: Replacements)
    requires Faithful(c) && DistinctCalls(messages)
    requires Replaces(FormatOf(c), CallNames(messages), messages, duplicates)
    requires var next := Payload(FormatOf(c), Projection(c, CallNames(messages)), messages, duplicates);
             Replaces(FormatOf(c), CallNames(next), next, second)
    ensures var next := Payload(FormatOf(c), Projection(c, CallNames(messages)), messages, duplicates);
            && CallNames(next) == CallNames(messages)
            && (Payload(FormatOf(c), Projection(c, CallNames(next)), next, second) == next <==>
                  forall i, j :: !CompletedBeside(c, messages, i, j))
  {
    hide *;
    var names := CallNames(messages);
    var format, project := FormatOf(c), Projection(c, names);
    var next := Payload(format, project, messages, duplicates);
    RewrittenNames(messages, next);
    RenderingIsSound(c, names);
    SecondPassNeedsCompletion(format, project, messages, duplicates, second);
    PayloadUnchanged(format, project, messages, duplicates, second);
    forall i, j
      ensures Joins(format, project, names, messages, i, j) <==> CompletedBeside(c, messages, i, j)
    {
      JoinsExactly(c, messages, i, j);
    }
  }

  // ---------------------------------------------------------------- a receipt without offset and limit

  const DEFAULTED := Fields(
    Given("a"), Given("x"), Given(1), Given("v"), Given(true), Absent, Absent, Absent, Absent, Absent, Absent, false)

  const DEFAULTED_READ := Read("a", "x", "v", 1, 1, DEFAULT_LIMIT, true, false, false, false, None)

  function Result(id: string, text: string): ChatMessage
  {
    ChatMessage("tool", text, READ_FILE, id, [], [], map[], "")
  }

  lemma DefaultedDecodes()
    ensures Decoded(DEFAULTED) == Some(DEFAULTED_READ) && !Canonical(DEFAULTED)
  {
    assert "x"[..0] == "";
    assert Lines("x") == Lines("x"[..0]) + 0;
  }

  /** Such a receipt has no key, and has one when rendered. */
  lemma DefaultedGainsKey(c: Codec, id: string, text: string)
    requires Faithful(c) && c.parse(text) == Structured(DEFAULTED) && |Full(c, DEFAULTED_READ)| <= MAX_OUTPUT
    requires Trim(id) != ""
    ensures var m, names := Result(id, text), Names(map[], {});
            && EligibleKey(FormatOf(c), names, m).None?
            && ShownKey(FormatOf(c), Projection(c, names), names, m) == Some(ReadKeyOf(DEFAULTED_READ))
  {
    hide Faithful, Full, KeyOf, Trim, Canonical, Decoded;
    DefaultedDecodes();
    KeyOfReceipt(c, text);
    RenderedReceipt(c, text);
  }

  lemma NoCalls(a: ChatMessage, b: ChatMessage)
    requires a.role == "tool" && b.role == "tool"
    ensures CallNames([a, b]) == Names(map[], {})
  {
    assert [a, b][..1] == [a] && [a][..0] == [];
    assert CallNames([a]) == Names(map[], {});
  }

  lemma OneCharacter()
    ensures Trim("1") == "1" && Trim("2") == "2"
  {}

  /**
    Two equal receipts without offset and limit, answering different calls: the first pass
    leaves both, and the second replaces the first of them.
   */
  lemma DefaultsAreReplacedLater(c: Codec, text: string, duplicates: Replacements, second: Replacements)
    requires Faithful(c) && c.parse(text) == Structured(DEFAULTED) && |Full(c, DEFAULTED_READ)| <= MAX_OUTPUT
    requires Replaces(FormatOf(c), CallNames([Result("1", text), Result("2", text)]),
                      [Result("1", text), Result("2", text)], duplicates)
    requires var messages := [Result("1", text), Result("2", text)];
             var next := Payload(FormatOf(c), Projection(c, CallNames(messages)), messages, duplicates);
             Replaces(FormatOf(c), CallNames(next), next, second)
    ensures duplicates == map[] && second == map[0 := "2"]
  {
    var messages := [Result("1", text), Result("2", text)];
    NoCalls(messages[0], messages[1]);
    OneCharacter();
    hide Trim, CallNames, Faithful, Payload, Replaces;
    DefaultedGainsKey(c, "1", text);
    DefaultedGainsKey(c, "2", text);
    RenderingIsSound(c, CallNames(messages));
    hide *;
    PairReplacedLater(FormatOf(c), Projection(c, CallNames(messages)), messages[0], messages[1], ReadKeyOf(DEFAULTED_READ),
                      duplicates, second);
  }
}
