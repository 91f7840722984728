/**
  The incremental observer of an OpenAI Responses event stream. It is fed arbitrary
  chunks of bytes, cuts them into lines and events as in section 9.2.6 of the WHATWG
  HTML standard (LF and CRLF line ends and `data:` fields only), and keeps a bounded,
  last-write-wins table of encrypted reasoning items.

  JSON decoding is a parameter: `decode` maps the bytes of one event to its fields.
 */
module ResponsesStream {
  import opened Wrappers
  import opened Seqs

  type byte = b: int | 0 <= b < 256
  type Bytes = seq<byte>

  const LF: byte := 10
  const CR: byte := 13
  const SPACE: byte := 32

  /** projectEinoResponsesMetadataLimit, 32 MiB. */
  const LIMIT: nat := 0x200_0000

  datatype Item = Item(kind: string, id: Bytes, encrypted: Bytes)
  datatype Fault = Fault(code: string, message: string)
  datatype Event = Event(
    kind: string, code: string, message: string, error: Option<Fault>, item: Item, output: seq<Item>)
  type Decoder = Bytes -> Option<Event>

  datatype Reasoning = Reasoning(id: Bytes, encrypted: Bytes)

  datatype StreamError = EventTooLarge | TableTooLarge

  datatype State = State(
    line: Bytes, data: Bytes, reasoning: seq<Reasoning>, totalBytes: int,
    err: Option<StreamError>, failure: Option<Fault>)

  const FRESH := State([], [], [], 0, None, None)

  // ---------------------------------------------------------------- one event

  function Ascii(s: string): Bytes
  {
    seq(|s|, i requires 0 <= i < |s| => (s[i] as int % 128) as byte)
  }

  predicate FoundAt(hay: Bytes, needle: Bytes, i: int)
  {
    0 <= i <= |hay| - |needle| && hay[i..i + |needle|] == needle
  }

  predicate Contains(hay: Bytes, needle: Bytes)
  {
    exists i :: 0 <= i <= |hay| - |needle| && FoundAt(hay, needle, i)
  }

  /** Only events that may carry an encrypted item or an error code are decoded at all. */
  predicate Interesting(payload: Bytes)
  {
    Contains(payload, Ascii("encrypted_content")) || Contains(payload, Ascii("\"code\""))
  }

  function DecodePayload(decode: Decoder, payload: Bytes): Option<Event>
  {
    if Interesting(payload) then decode(payload) else None
  }

  function FaultOf(event: Event): Option<Fault>
  {
    if event.kind == "error" && event.code != "" then Some(Fault(event.code, event.message))
    else if (event.kind == "" || event.kind == "error") && event.error.Some? && event.error.value.code != ""
    then event.error
    else None
  }

  function ItemsOf(event: Event): seq<Item>
  {
    if event.kind == "response.output_item.done" then [event.item]
    else if event.kind == "response.completed" then event.output
    else []
  }

  predicate Opaque(item: Item)
  {
    item.kind == "reasoning" && item.id != [] && item.encrypted != []
  }

  function Size(r: Reasoning): nat { |r.id| + |r.encrypted| }

  /** Row that holds `id`, or |table| when there is none. */
  function RowOf(table: seq<Reasoning>, id: Bytes): (k: nat)
    ensures k <= |table|
    ensures k < |table| ==> table[k].id == id
    ensures forall i :: 0 <= i < k ==> table[i].id != id
  {
    if table == [] || table[0].id == id then 0 else 1 + RowOf(table[1..], id)
  }

  /** The table with `r` written to the row of its ID, or appended. */
  function Upsert(table: seq<Reasoning>, r: Reasoning): seq<Reasoning>
  {
    var k := RowOf(table, r.id);
    if k == |table| then table + [r] else table[k := r]
  }

  function StoreItem(st: State, item: Item): State
  {
    if st.err.Some? || !Opaque(item) then st
    else
      var r := Reasoning(item.id, item.encrypted);
      var k := RowOf(st.reasoning, item.id);
      var freed := if k < |st.reasoning| then Size(st.reasoning[k]) else 0;
      var total := st.totalBytes - freed + Size(r);
      if total > LIMIT then st.(totalBytes := total, err := Some(TableTooLarge))
      else st.(totalBytes := total, reasoning := Upsert(st.reasoning, r))
  }

  function StoreItems(st: State, items: seq<Item>): State
    decreases |items|
  {
    if items == [] then st else StoreItems(StoreItem(st, items[0]), items[1..])
  }

  /** captureEvent: the effect of one complete event on failure and table. */
  function Captured(decode: Decoder, st: State, payload: Bytes): State
  {
    match DecodePayload(decode, payload)
    case None => st
    case Some(event) =>
      var fault := FaultOf(event);
      StoreItems(st.(failure := if fault.Some? then fault else st.failure), ItemsOf(event))
  }

  // ---------------------------------------------------------------- lines

  function TrimCR(line: Bytes): Bytes
  {
    if line != [] && line[|line| - 1] == CR then line[..|line| - 1] else line
  }

  const DATA_FIELD: Bytes := [100, 97, 116, 97, 58]

  predicate HasData(line: Bytes) { DATA_FIELD <= line }

  /** The value of a `data:` line, without one leading space. */
  function DataValue(line: Bytes): Bytes
    requires HasData(line)
  {
    var value := line[|DATA_FIELD|..];
    if value != [] && value[0] == SPACE then value[1..] else value
  }

  /** What a line feed does once the line before it is complete. */
  function EndLine(decode: Decoder, st: State): State
  {
    HandleLine(decode, st, TrimCR(st.line))
  }

  function HandleLine(decode: Decoder, st: State, line: Bytes): State
  {
    if line == [] then Captured(decode, st, st.data).(data := [], line := [])
    else if HasData(line) then st.(data := st.data + DataValue(line) + [LF], line := [])
    else st.(line := [])
  }

  function IndexLF(s: Bytes): (k: nat)
    ensures k <= |s|
    ensures k < |s| ==> s[k] == LF
    ensures forall i :: 0 <= i < k ==> s[i] != LF
  {
    if s == [] || s[0] == LF then 0 else 1 + IndexLF(s[1..])
  }

  /** consume, one line segment at a time. */
  function Consumed(decode: Decoder, st: State, chunk: Bytes): State
    decreases |chunk|
  {
    if st.err.Some? || chunk == [] then st
    else
      var count := IndexLF(chunk);
      if |st.line| + |st.data| + count > LIMIT then st.(err := Some(EventTooLarge))
      else
        var st1 := st.(line := st.line + chunk[..count]);
        if count == |chunk| then st1
        else Consumed(decode, EndLine(decode, st1), chunk[count + 1..])
  }

  function ConsumedAll(decode: Decoder, st: State, chunks: seq<Bytes>): State
    decreases |chunks|
  {
    if chunks == [] then st else ConsumedAll(decode, Consumed(decode, st, chunks[0]), chunks[1..])
  }

  // ---------------------------------------------------------------- byte by byte

  /** The same machine read one byte at a time, with no notion of a chunk. */
  function Step(decode: Decoder, st: State, b: byte): State
  {
    if st.err.Some? then st
    else if b == LF then EndLine(decode, st)
    else if |st.line| + |st.data| + 1 > LIMIT then st.(err := Some(EventTooLarge))
    else st.(line := st.line + [b])
  }

  function Feed(decode: Decoder, st: State, bytes: Bytes): State
    decreases |bytes|
  {
    if bytes == [] then st else Feed(decode, Step(decode, st, bytes[0]), bytes[1..])
  }

  /** What a caller can still see: the partial line is dead once an error is recorded. */
  function Observe(st: State): State
  {
    if st.err.Some? then st.(line := [], data := []) else st
  }

  predicate Buffered(st: State)
  {
    st.err.None? ==> |st.line| + |st.data| <= LIMIT
  }

  // ---------------------------------------------------------------- chunking

  lemma {:induction false} FeedConcat(decode: Decoder, st: State, a: Bytes, b: Bytes)
    ensures Feed(decode, st, a + b) == Feed(decode, Feed(decode, st, a), b)
    decreases |a|
  {
    if a == [] {
      assert a + b == b;
    } else {
      assert (a + b)[0] == a[0] && (a + b)[1..] == a[1..] + b;
      FeedConcat(decode, Step(decode, st, a[0]), a[1..], b);
    }
  }

  lemma {:induction false} FeedStopped(decode: Decoder, st: State, bytes: Bytes)
    requires st.err.Some?
    ensures Feed(decode, st, bytes) == st
  {
    if bytes != [] {
      FeedStopped(decode, st, bytes[1..]);
    }
  }

  lemma {:induction false} StoreKeepsBuffers(st: State, items: seq<Item>)
    ensures StoreItems(st, items).line == st.line && StoreItems(st, items).data == st.data
    ensures StoreItems(st, items).failure == st.failure
    ensures st.err.Some? ==> StoreItems(st, items) == st
    decreases |items|
  {
    if items != [] {
      StoreKeepsBuffers(StoreItem(st, items[0]), items[1..]);
    }
  }

  lemma EndLineBuffered(decode: Decoder, st: State)
    requires Buffered(st)
    ensures Buffered(EndLine(decode, st)) && EndLine(decode, st).line == []
  {
    if TrimCR(st.line) == [] {
      match DecodePayload(decode, st.data)
      case None =>
      case Some(event) =>
        var fault := FaultOf(event);
        StoreKeepsBuffers(st.(failure := if fault.Some? then fault else st.failure), ItemsOf(event));
    }
  }

  /** A segment without a line feed is appended whole, or overflows whole. */
  lemma {:induction false} FeedSegment(decode: Decoder, st: State, segment: Bytes)
    requires st.err.None? && Buffered(st) && forall i :: 0 <= i < |segment| ==> segment[i] != LF
    ensures Observe(Feed(decode, st, segment))
         == if |st.line| + |st.data| + |segment| > LIMIT
            then Observe(st.(err := Some(EventTooLarge)))
            else st.(line := st.line + segment)
    decreases |segment|
  {
    if segment == [] {
      assert st.line + segment == st.line;
    } else {
      var st1 := Step(decode, st, segment[0]);
      if st1.err.Some? {
        FeedStopped(decode, st1, segment[1..]);
      } else {
        FeedSegment(decode, st1, segment[1..]);
        assert st.line + [segment[0]] + segment[1..] == st.line + segment;
      }
    }
  }

  /** Segment-wise consumption is byte-wise consumption. */
  lemma {:induction false} ConsumeIsFeed(decode: Decoder, st: State, chunk: Bytes)
    requires Buffered(st)
    ensures Observe(Consumed(decode, st, chunk)) == Observe(Feed(decode, st, chunk))
    ensures Buffered(Consumed(decode, st, chunk))
    decreases |chunk|
  {
    if st.err.Some? {
      FeedStopped(decode, st, chunk);
    } else if chunk != [] {
      var count := IndexLF(chunk);
      var segment := chunk[..count];
      FeedSegment(decode, st, segment);
      if |st.line| + |st.data| + count > LIMIT {
        assert chunk == segment + chunk[count..];
        FeedConcat(decode, st, segment, chunk[count..]);
        FeedStopped(decode, Feed(decode, st, segment), chunk[count..]);
      } else {
        var st1 := st.(line := st.line + segment);
        if count == |chunk| {
          assert segment == chunk;
        } else {
          assert chunk == segment + ([LF] + chunk[count + 1..]);
          FeedConcat(decode, st, segment, [LF] + chunk[count + 1..]);
          FeedLineFeed(decode, st1, chunk[count + 1..]);
          EndLineBuffered(decode, st1);
          ConsumeIsFeed(decode, EndLine(decode, st1), chunk[count + 1..]);
        }
      }
    }
  }

  lemma FeedLineFeed(decode: Decoder, st: State, rest: Bytes)
    requires st.err.None?
    ensures Feed(decode, st, [LF] + rest) == Feed(decode, EndLine(decode, st), rest)
  {
    assert ([LF] + rest)[1..] == rest;
  }

  lemma ObserveFeed(decode: Decoder, a: State, b: State, bytes: Bytes)
    requires Observe(a) == Observe(b)
    ensures Observe(Feed(decode, a, bytes)) == Observe(Feed(decode, b, bytes))
  {
    if a.err.Some? {
      FeedStopped(decode, a, bytes);
      FeedStopped(decode, b, bytes);
    }
  }

  /**
    Chunking is invisible: any split of a byte stream leaves the same error status,
    reasoning table, size and failure as feeding it whole.
   */
  lemma {:induction false} ChunkingInvisible(decode: Decoder, st: State, chunks: seq<Bytes>)
    requires Buffered(st)
    ensures Observe(ConsumedAll(decode, st, chunks)) == Observe(Consumed(decode, st, Flatten(chunks)))
    ensures Observe(ConsumedAll(decode, st, chunks)) == Observe(Feed(decode, st, Flatten(chunks)))
    decreases |chunks|
  {
    ConsumeIsFeed(decode, st, Flatten(chunks));
    if chunks != [] {
      var st1 := Consumed(decode, st, chunks[0]);
      ConsumeIsFeed(decode, st, chunks[0]);
      ChunkingInvisible(decode, st1, chunks[1..]);
      ObserveFeed(decode, st1, Feed(decode, st, chunks[0]), Flatten(chunks[1..]));
      FeedConcat(decode, st, chunks[0], Flatten(chunks[1..]));
    }
  }

  // ---------------------------------------------------------------- the declarative reading

  /** The terminated lines of a stream, each without its LF and one CR before it. */
  function Lines(stream: Bytes): seq<Bytes>
    decreases |stream|
  {
    var k := IndexLF(stream);
    if k == |stream| then [] else [TrimCR(stream[..k])] + Lines(stream[k + 1..])
  }

  /** The unterminated rest of a stream. */
  function Unterminated(stream: Bytes): Bytes
    decreases |stream|
  {
    var k := IndexLF(stream);
    if k == |stream| then stream else Unterminated(stream[k + 1..])
  }

  /** The joined values of the `data:` lines, each followed by a line feed. */
  function Payload(lines: seq<Bytes>): Bytes
  {
    if lines == [] then []
    else (if HasData(lines[0]) then DataValue(lines[0]) + [LF] else []) + Payload(lines[1..])
  }

  function FirstBlank(lines: seq<Bytes>): (k: nat)
    ensures k <= |lines|
    ensures k < |lines| ==> lines[k] == []
    ensures forall i :: 0 <= i < k ==> lines[i] != []
  {
    if lines == [] || lines[0] == [] then 0 else 1 + FirstBlank(lines[1..])
  }

  /** One payload for each blank line: the data lines since the blank line before. */
  function Payloads(lines: seq<Bytes>): seq<Bytes>
    decreases |lines|
  {
    var k := FirstBlank(lines);
    if k == |lines| then [] else [Payload(lines[..k])] + Payloads(lines[k + 1..])
  }

  function Pending(lines: seq<Bytes>): Bytes
    decreases |lines|
  {
    var k := FirstBlank(lines);
    if k == |lines| then Payload(lines) else Pending(lines[k + 1..])
  }

  function OpaqueItems(items: seq<Item>): seq<Reasoning>
  {
    if items == [] then []
    else (if Opaque(items[0]) then [Reasoning(items[0].id, items[0].encrypted)] else []) + OpaqueItems(items[1..])
  }

  /** All encrypted items announced by a list of events, in order. */
  function Announced(decode: Decoder, payloads: seq<Bytes>): seq<Reasoning>
    decreases |payloads|
  {
    if payloads == [] then []
    else
      (match DecodePayload(decode, payloads[0])
       case None => []
       case Some(event) => OpaqueItems(ItemsOf(event)))
      + Announced(decode, payloads[1..])
  }

  /** The last structured error announced by a list of events. */
  function LastFault(decode: Decoder, payloads: seq<Bytes>): Option<Fault>
    decreases |payloads|
  {
    if payloads == [] then None
    else
      var later := LastFault(decode, payloads[1..]);
      if later.Some? then later
      else match DecodePayload(decode, payloads[0]) case None => None case Some(event) => FaultOf(event)
  }

  /** The distinct IDs of a list of items, in the order in which each was first seen. */
  function FirstSeen(items: seq<Reasoning>): seq<Bytes>
  {
    if items == [] then []
    else
      var ids := FirstSeen(items[..|items| - 1]);
      var id := items[|items| - 1].id;
      if id in ids then ids else ids + [id]
  }

  /** The content most recently announced for `id`. */
  function LatestContent(items: seq<Reasoning>, id: Bytes): Bytes
  {
    if items == [] then []
    else if items[|items| - 1].id == id then items[|items| - 1].encrypted
    else LatestContent(items[..|items| - 1], id)
  }

  /** IDs distinct and in first-seen order, each with its latest content. */
  predicate IsLatestTable(table: seq<Reasoning>, items: seq<Reasoning>)
  {
    && |table| == |FirstSeen(items)|
    && forall k :: 0 <= k < |table| ==>
         table[k] == Reasoning(FirstSeen(items)[k], LatestContent(items, FirstSeen(items)[k]))
  }

  predicate DistinctIDs(table: seq<Reasoning>)
  {
    forall i, j :: 0 <= i < j < |table| ==> table[i].id != table[j].id
  }

  function TotalSize(table: seq<Reasoning>): nat
  {
    if table == [] then 0 else Size(table[0]) + TotalSize(table[1..])
  }

  /** Memory and table invariant of the observer. */
  predicate Valid(st: State)
  {
    && Buffered(st)
    && DistinctIDs(st.reasoning)
    && (st.err.None? ==> st.totalBytes == TotalSize(st.reasoning) && st.totalBytes <= LIMIT)
  }

  // ---------------------------------------------------------------- the table

  lemma {:induction false} TotalSizeAppend(table: seq<Reasoning>, r: Reasoning)
    ensures TotalSize(table + [r]) == TotalSize(table) + Size(r)
  {
    if table == [] {
      assert table + [r] == [r];
    } else {
      assert (table + [r])[1..] == table[1..] + [r];
      TotalSizeAppend(table[1..], r);
    }
  }

  lemma {:induction false} TotalSizeUpdate(table: seq<Reasoning>, k: nat, r: Reasoning)
    requires k < |table|
    ensures TotalSize(table[k := r]) == TotalSize(table) - Size(table[k]) + Size(r)
  {
    if k == 0 {
      assert table[k := r][1..] == table[1..];
    } else {
      assert table[k := r][1..] == table[1..][k - 1 := r];
      TotalSizeUpdate(table[1..], k - 1, r);
    }
  }

  lemma UpsertTotals(table: seq<Reasoning>, r: Reasoning)
    requires DistinctIDs(table)
    ensures DistinctIDs(Upsert(table, r))
    ensures var k := RowOf(table, r.id);
            TotalSize(Upsert(table, r))
            == TotalSize(table) - (if k < |table| then Size(table[k]) else 0) + Size(r)
  {
    var k := RowOf(table, r.id);
    if k == |table| {
      TotalSizeAppend(table, r);
    } else {
      TotalSizeUpdate(table, k, r);
    }
  }

  lemma {:induction false} StoreItemsValid(st: State, items: seq<Item>)
    requires Valid(st)
    ensures Valid(StoreItems(st, items))
    decreases |items|
  {
    if items != [] {
      if st.err.None? && Opaque(items[0]) {
        UpsertTotals(st.reasoning, Reasoning(items[0].id, items[0].encrypted));
      }
      StoreItemsValid(StoreItem(st, items[0]), items[1..]);
    }
  }

  lemma EndLineValid(decode: Decoder, st: State)
    requires Valid(st)
    ensures Valid(EndLine(decode, st))
  {
    EndLineBuffered(decode, st);
    if TrimCR(st.line) == [] {
      match DecodePayload(decode, st.data)
      case None =>
      case Some(event) =>
        var fault := FaultOf(event);
        StoreItemsValid(st.(failure := if fault.Some? then fault else st.failure), ItemsOf(event));
    }
  }

  /** The invariant survives every chunk. */
  lemma {:induction false} ConsumedValid(decode: Decoder, st: State, chunk: Bytes)
    requires Valid(st)
    ensures Valid(Consumed(decode, st, chunk))
    decreases |chunk|
  {
    if st.err.None? && chunk != [] {
      var count := IndexLF(chunk);
      if |st.line| + |st.data| + count <= LIMIT && count < |chunk| {
        var st1 := st.(line := st.line + chunk[..count]);
        EndLineValid(decode, st1);
        ConsumedValid(decode, EndLine(decode, st1), chunk[count + 1..]);
      }
    }
  }

  lemma {:induction false} FirstSeenDistinct(items: seq<Reasoning>)
    ensures forall i, j :: 0 <= i < j < |FirstSeen(items)| ==> FirstSeen(items)[i] != FirstSeen(items)[j]
  {
    if items != [] {
      FirstSeenDistinct(items[..|items| - 1]);
    }
  }

  /** One more item keeps the table the declared one. */
  lemma UpsertLatest(table: seq<Reasoning>, items: seq<Reasoning>, r: Reasoning)
    requires IsLatestTable(table, items)
    ensures IsLatestTable(Upsert(table, r), items + [r])
  {
    assert (items + [r])[..|items|] == items;
    var ids := FirstSeen(items);
    FirstSeenDistinct(items);
    var k := RowOf(table, r.id);
    if r.id in ids {
      var i :| 0 <= i < |ids| && ids[i] == r.id;
      assert table[i].id == r.id;
    }
  }

  lemma StoreItemLatest(st: State, item: Item, seen: seq<Reasoning>)
    requires st.err.None? && IsLatestTable(st.reasoning, seen)
    requires StoreItem(st, item).err.None?
    ensures IsLatestTable(StoreItem(st, item).reasoning, seen + OpaqueItems([item]))
  {
    hide IsLatestTable, Upsert;
    var r := Reasoning(item.id, item.encrypted);
    assert OpaqueItems([item]) == if Opaque(item) then [r] else [];
    assert seen + [] == seen;
    UpsertLatest(st.reasoning, seen, r);
  }

  lemma OpaqueStep(items: seq<Item>)
    requires items != []
    ensures OpaqueItems(items) == OpaqueItems([items[0]]) + OpaqueItems(items[1..])
  {
    assert OpaqueItems([]) == [];
  }

  lemma {:induction false} StoreItemsLatest(st: State, items: seq<Item>, seen: seq<Reasoning>)
    requires st.err.None? && IsLatestTable(st.reasoning, seen)
    requires StoreItems(st, items).err.None?
    ensures IsLatestTable(StoreItems(st, items).reasoning, seen + OpaqueItems(items))
    decreases |items|
  {
    hide IsLatestTable, StoreItem;
    if items == [] {
      assert seen + OpaqueItems(items) == seen;
    } else {
      var st1 := StoreItem(st, items[0]);
      StoreKeepsBuffers(st1, items[1..]);
      StoreItemLatest(st, items[0], seen);
      OpaqueStep(items);
      StoreItemsLatest(st1, items[1..], seen + OpaqueItems([items[0]]));
      assert seen + OpaqueItems([items[0]]) + OpaqueItems(items[1..]) == seen + OpaqueItems(items);
    }
  }

  // ---------------------------------------------------------------- the stream

  function RunLines(decode: Decoder, st: State, lines: seq<Bytes>): State
    decreases |lines|
  {
    if lines == [] then st else RunLines(decode, HandleLine(decode, st, lines[0]), lines[1..])
  }

  function CapturedAll(decode: Decoder, st: State, payloads: seq<Bytes>): State
    decreases |payloads|
  {
    if payloads == [] then st else CapturedAll(decode, Captured(decode, st, payloads[0]), payloads[1..])
  }

  /** Without an error the byte machine is the line machine plus the unterminated rest. */
  lemma {:induction false} FeedIsLines(decode: Decoder, st: State, stream: Bytes)
    requires st.err.None? && st.line == [] && Buffered(st)
    requires Feed(decode, st, stream).err.None?
    ensures Feed(decode, st, stream) == RunLines(decode, st, Lines(stream)).(line := Unterminated(stream))
    decreases |stream|
  {
    var k := IndexLF(stream);
    FeedSegment(decode, st, stream[..k]);
    if k == |stream| {
      assert stream[..k] == stream && [] + stream == stream;
    } else {
      var rest := stream[k + 1..];
      var st1 := st.(line := [] + stream[..k]);
      assert [] + stream[..k] == stream[..k];
      assert stream == stream[..k] + ([LF] + rest);
      FeedConcat(decode, st, stream[..k], [LF] + rest);
      if Feed(decode, st, stream[..k]).err.Some? {
        FeedStopped(decode, Feed(decode, st, stream[..k]), [LF] + rest);
      }
      FeedLineFeed(decode, st1, rest);
      EndLineBuffered(decode, st1);
      var st2 := EndLine(decode, st1);
      if st2.err.Some? {
        FeedStopped(decode, st2, rest);
      }
      FeedIsLines(decode, st2, rest);
      HandleLineIgnoresLine(decode, st1, st, TrimCR(stream[..k]));
      LinesStep(stream, k);
    }
  }

  lemma LinesStep(stream: Bytes, k: nat)
    requires k == IndexLF(stream) && k < |stream|
    ensures Lines(stream) == [TrimCR(stream[..k])] + Lines(stream[k + 1..])
    ensures Lines(stream)[0] == TrimCR(stream[..k]) && Lines(stream)[1..] == Lines(stream[k + 1..])
    ensures Unterminated(stream) == Unterminated(stream[k + 1..])
  {}

  lemma HandleLineIgnoresLine(decode: Decoder, a: State, b: State, line: Bytes)
    requires a.(line := []) == b.(line := [])
    ensures HandleLine(decode, a, line) == HandleLine(decode, b, line)
  {
    if line == [] {
      match DecodePayload(decode, a.data)
      case None =>
      case Some(event) =>
        var fault := FaultOf(event);
        var failure := if fault.Some? then fault else a.failure;
        StoreIgnoresLine(a.(failure := failure), b.(failure := failure), ItemsOf(event));
    }
  }

  lemma {:induction false} StoreIgnoresLine(a: State, b: State, items: seq<Item>)
    requires a.(line := []) == b.(line := [])
    ensures StoreItems(a, items).(line := []) == StoreItems(b, items).(line := [])
    decreases |items|
  {
    if items != [] {
      StoreIgnoresLine(StoreItem(a, items[0]), StoreItem(b, items[0]), items[1..]);
    }
  }

  lemma {:induction false} RunNonBlank(decode: Decoder, st: State, lines: seq<Bytes>)
    requires st.line == [] && forall i :: 0 <= i < |lines| ==> lines[i] != []
    ensures RunLines(decode, st, lines) == st.(data := st.data + Payload(lines))
    decreases |lines|
  {
    if lines == [] {
      assert st.data + Payload(lines) == st.data;
    } else {
      var st1 := HandleLine(decode, st, lines[0]);
      RunNonBlank(decode, st1, lines[1..]);
      assert st1.data + Payload(lines[1..]) == st.data + Payload(lines);
    }
  }

  lemma {:induction false} RunConcat(decode: Decoder, st: State, a: seq<Bytes>, b: seq<Bytes>)
    ensures RunLines(decode, st, a + b) == RunLines(decode, RunLines(decode, st, a), b)
    decreases |a|
  {
    if a == [] {
      assert a + b == b;
    } else {
      assert (a + b)[1..] == a[1..] + b;
      RunConcat(decode, HandleLine(decode, st, a[0]), a[1..], b);
    }
  }

  /** The line machine captures exactly the payloads of its lines. */
  lemma {:induction false} LinesArePayloads(decode: Decoder, st: State, lines: seq<Bytes>)
    requires st.line == [] && st.data == []
    ensures RunLines(decode, st, lines)
         == CapturedAll(decode, st, Payloads(lines)).(data := Pending(lines))
    decreases |lines|
  {
    var k := FirstBlank(lines);
    RunNonBlank(decode, st, lines[..k]);
    assert [] + Payload(lines[..k]) == Payload(lines[..k]);
    if k == |lines| {
      assert lines[..k] == lines;
    } else {
      var rest := lines[k + 1..];
      var payload := Payload(lines[..k]);
      assert lines == lines[..k] + ([lines[k]] + rest);
      RunConcat(decode, st, lines[..k], [lines[k]] + rest);
      assert ([lines[k]] + rest)[1..] == rest;
      var st1 := HandleLine(decode, st.(data := payload), []);
      CaptureIgnoresData(decode, st.(data := payload), st, payload);
      LinesArePayloads(decode, st1, rest);
      assert Payloads(lines)[1..] == Payloads(rest);
    }
  }

  lemma CaptureIgnoresData(decode: Decoder, a: State, b: State, payload: Bytes)
    requires a.(data := []) == b.(data := [])
    ensures Captured(decode, a, payload).(data := []) == Captured(decode, b, payload).(data := [])
    ensures Captured(decode, b, payload).data == b.data && Captured(decode, b, payload).line == b.line
  {
    match DecodePayload(decode, payload)
    case None =>
    case Some(event) =>
      var fault := FaultOf(event);
      var failure := if fault.Some? then fault else a.failure;
      StoreIgnoresData(a.(failure := failure), b.(failure := failure), ItemsOf(event));
      StoreKeepsBuffers(b.(failure := failure), ItemsOf(event));
  }

  lemma {:induction false} StoreIgnoresData(a: State, b: State, items: seq<Item>)
    requires a.(data := []) == b.(data := [])
    ensures StoreItems(a, items).(data := []) == StoreItems(b, items).(data := [])
    decreases |items|
  {
    if items != [] {
      StoreIgnoresData(StoreItem(a, items[0]), StoreItem(b, items[0]), items[1..]);
    }
  }

  // ---------------------------------------------------------------- what the observer reports

  lemma CapturedLatest(decode: Decoder, st: State, payload: Bytes, seen: seq<Reasoning>)
    requires st.err.None? && IsLatestTable(st.reasoning, seen)
    requires Captured(decode, st, payload).err.None?
    ensures IsLatestTable(Captured(decode, st, payload).reasoning, seen + Announced(decode, [payload]))
    ensures Captured(decode, st, payload).failure
         == if LastFault(decode, [payload]).Some? then LastFault(decode, [payload]) else st.failure
  {
    hide IsLatestTable;
    match DecodePayload(decode, payload)
    case None =>
      assert Announced(decode, [payload]) == [];
      assert seen + [] == seen;
    case Some(event) =>
      assert Announced(decode, [payload]) == OpaqueItems(ItemsOf(event)) + [];
      assert OpaqueItems(ItemsOf(event)) + [] == OpaqueItems(ItemsOf(event));
      var fault := FaultOf(event);
      var st1 := st.(failure := if fault.Some? then fault else st.failure);
      StoreKeepsBuffers(st1, ItemsOf(event));
      StoreItemsLatest(st1, ItemsOf(event), seen);
  }

  lemma {:induction false} CapturedAllStopped(decode: Decoder, st: State, payloads: seq<Bytes>)
    requires st.err.Some?
    ensures CapturedAll(decode, st, payloads).err.Some?
    decreases |payloads|
  {
    if payloads != [] {
      match DecodePayload(decode, payloads[0])
      case None =>
        CapturedAllStopped(decode, st, payloads[1..]);
      case Some(event) =>
        var fault := FaultOf(event);
        StoreKeepsBuffers(st.(failure := if fault.Some? then fault else st.failure), ItemsOf(event));
        CapturedAllStopped(decode, Captured(decode, st, payloads[0]), payloads[1..]);
    }
  }

  lemma {:induction false} CapturedAllLatest(decode: Decoder, st: State, payloads: seq<Bytes>, seen: seq<Reasoning>)
    requires st.err.None? && IsLatestTable(st.reasoning, seen)
    requires CapturedAll(decode, st, payloads).err.None?
    ensures IsLatestTable(CapturedAll(decode, st, payloads).reasoning, seen + Announced(decode, payloads))
    ensures CapturedAll(decode, st, payloads).failure
         == if LastFault(decode, payloads).Some? then LastFault(decode, payloads) else st.failure
    decreases |payloads|
  {
    hide IsLatestTable, Captured, DecodePayload, FaultOf, ItemsOf;
    if payloads == [] {
      assert seen + Announced(decode, payloads) == seen;
    } else {
      var st1 := Captured(decode, st, payloads[0]);
      if st1.err.Some? {
        CapturedAllStopped(decode, st1, payloads[1..]);
      }
      CapturedLatest(decode, st, payloads[0], seen);
      AnnouncedStep(decode, payloads);
      CapturedAllLatest(decode, st1, payloads[1..], seen + Announced(decode, [payloads[0]]));
      assert seen + Announced(decode, [payloads[0]]) + Announced(decode, payloads[1..])
          == seen + Announced(decode, payloads);
    }
  }

  lemma AnnouncedStep(decode: Decoder, payloads: seq<Bytes>)
    requires payloads != []
    ensures Announced(decode, payloads) == Announced(decode, [payloads[0]]) + Announced(decode, payloads[1..])
    ensures LastFault(decode, payloads)
         == if LastFault(decode, payloads[1..]).Some? then LastFault(decode, payloads[1..])
            else LastFault(decode, [payloads[0]])
  {
    var one := [payloads[0]];
    assert one[1..] == [];
    assert Announced(decode, one[1..]) == [];
  }

  /** What the observer must have recorded after `stream` when it has not given up. */
  predicate Reports(decode: Decoder, st: State, stream: Bytes)
  {
    var payloads := Payloads(Lines(stream));
    && IsLatestTable(st.reasoning, Announced(decode, payloads))
    && st.failure == LastFault(decode, payloads)
    && st.totalBytes == TotalSize(st.reasoning) <= LIMIT
    && st.line == Unterminated(stream)
    && st.data == Pending(Lines(stream))
    && |st.line| + |st.data| <= LIMIT
  }

  /**
    Meaning. However the stream was cut into chunks, an observer that has not given up
    holds exactly what the declarative reading of the whole stream says.
   */
  lemma StreamMeaning(decode: Decoder, chunks: seq<Bytes>)
    requires ConsumedAll(decode, FRESH, chunks).err.None?
    ensures Reports(decode, ConsumedAll(decode, FRESH, chunks), Flatten(chunks))
  {
    var stream := Flatten(chunks);
    ChunkingInvisible(decode, FRESH, chunks);
    FeedMeaning(decode, stream);
  }

  lemma FeedMeaning(decode: Decoder, stream: Bytes)
    requires Feed(decode, FRESH, stream).err.None?
    ensures Reports(decode, Feed(decode, FRESH, stream), stream)
  {
    var payloads := Payloads(Lines(stream));
    FeedIsLines(decode, FRESH, stream);
    LinesArePayloads(decode, FRESH, Lines(stream));
    CapturedAllLatest(decode, FRESH, payloads, []);
    assert [] + Announced(decode, payloads) == Announced(decode, payloads);
    ConsumedValid(decode, FRESH, stream);
    ConsumeIsFeed(decode, FRESH, stream);
  }

  // ---------------------------------------------------------------- when it gives up

  /** Bytes held back after `stream`: the unterminated line and the event under construction. */
  function Held(stream: Bytes): nat
  {
    |Unterminated(stream)| + |Pending(Lines(stream))|
  }

  /** The table that a list of announced items makes: each ID once, in first-seen order, latest content. */
  function LatestTable(items: seq<Reasoning>): seq<Reasoning>
  {
    var ids := FirstSeen(items);
    seq(|ids|, k requires 0 <= k < |ids| => Reasoning(ids[k], LatestContent(items, ids[k])))
  }

  lemma LatestTableIs(table: seq<Reasoning>, items: seq<Reasoning>)
    requires IsLatestTable(table, items)
    ensures table == LatestTable(items)
  {
    hide FirstSeen, LatestContent;
  }

  /** After `seen`, storing `items` one by one passes the limit at some point. */
  predicate Overflows(seen: seq<Reasoning>, items: seq<Reasoning>)
  {
    exists n :: 0 < n <= |items| && TotalSize(LatestTable(seen + items[..n])) > LIMIT
  }

  lemma OverflowStep(seen: seq<Reasoning>, r: Reasoning, rest: seq<Reasoning>)
    ensures Overflows(seen, [r] + rest) <==>
              TotalSize(LatestTable(seen + [r])) > LIMIT || Overflows(seen + [r], rest)
  {
    hide LatestTable, TotalSize;
    var all := [r] + rest;
    forall n | 0 < n <= |all|
      ensures seen + all[..n] == (seen + [r]) + rest[..n - 1]
    {}
    assert (seen + [r]) + rest[..0] == seen + [r];
    if Overflows(seen + [r], rest) {
      var n :| 0 < n <= |rest| && TotalSize(LatestTable(seen + [r] + rest[..n])) > LIMIT;
      assert seen + all[..n + 1] == seen + [r] + rest[..n];
    }
    if TotalSize(LatestTable(seen + [r])) > LIMIT {
      assert seen + all[..1] == seen + [r];
    }
  }

  lemma LatestDistinct(table: seq<Reasoning>, items: seq<Reasoning>)
    requires IsLatestTable(table, items)
    ensures DistinctIDs(table)
  {
    hide FirstSeen, LatestContent;
    FirstSeenDistinct(items);
  }

  lemma StoreItemOverflows(st: State, item: Item, seen: seq<Reasoning>)
    requires st.err.None? && st.totalBytes == TotalSize(st.reasoning) && IsLatestTable(st.reasoning, seen) && Opaque(item)
    ensures var next, now := StoreItem(st, item), seen + [Reasoning(item.id, item.encrypted)];
            if TotalSize(LatestTable(now)) > LIMIT then next.err == Some(TableTooLarge)
            else next.err.None? && IsLatestTable(next.reasoning, now) && next.totalBytes == TotalSize(next.reasoning)
  {
    hide IsLatestTable, Upsert, TotalSize, LatestTable;
    var r := Reasoning(item.id, item.encrypted);
    LatestDistinct(st.reasoning, seen);
    UpsertTotals(st.reasoning, r);
    UpsertLatest(st.reasoning, seen, r);
    LatestTableIs(Upsert(st.reasoning, r), seen + [r]);
  }

  /** Storing items fails exactly when the declared table passes the limit at some item. */
  lemma {:induction false} StoreItemsOverflow(st: State, items: seq<Item>, seen: seq<Reasoning>)
    requires st.err.None? && st.totalBytes == TotalSize(st.reasoning) && IsLatestTable(st.reasoning, seen)
    ensures StoreItems(st, items).err == if Overflows(seen, OpaqueItems(items)) then Some(TableTooLarge) else None
    decreases |items|
  {
    hide IsLatestTable, StoreItem, TotalSize, LatestTable, Overflows, Opaque;
    if items == [] {
      NothingOverflows(seen);
    } else {
      var next := StoreItem(st, items[0]);
      if Opaque(items[0]) {
        var r := Reasoning(items[0].id, items[0].encrypted);
        StoreItemOverflows(st, items[0], seen);
        OverflowStep(seen, r, OpaqueItems(items[1..]));
        StoreKeepsBuffers(next, items[1..]);
        if next.err.None? {
          StoreItemsOverflow(next, items[1..], seen + [r]);
        }
      } else {
        StoreSkips(st, items[0]);
        assert OpaqueItems(items) == OpaqueItems(items[1..]);
        StoreItemsOverflow(st, items[1..], seen);
      }
    }
  }

  lemma NothingOverflows(seen: seq<Reasoning>)
    ensures !Overflows(seen, OpaqueItems([]))
  {}

  lemma StoreSkips(st: State, item: Item)
    requires !Opaque(item)
    ensures StoreItem(st, item) == st
  {}

  lemma AnnouncedOne(decode: Decoder, payload: Bytes)
    ensures Announced(decode, [payload])
         == if DecodePayload(decode, payload).None? then OpaqueItems([])
            else OpaqueItems(ItemsOf(DecodePayload(decode, payload).value))
  {
    hide DecodePayload, ItemsOf, Opaque;
    var one := [payload];
    assert one[1..] == [] && Announced(decode, one[1..]) == [];
  }

  lemma CapturedOverflows(decode: Decoder, st: State, payload: Bytes, seen: seq<Reasoning>)
    requires st.err.None? && st.totalBytes == TotalSize(st.reasoning) && IsLatestTable(st.reasoning, seen)
    ensures Captured(decode, st, payload).err
         == if Overflows(seen, Announced(decode, [payload])) then Some(TableTooLarge) else None
  {
    hide IsLatestTable, TotalSize, Overflows, ItemsOf, FaultOf;
    AnnouncedOne(decode, payload);
    match DecodePayload(decode, payload)
    case None =>
      NothingOverflows(seen);
    case Some(event) =>
      var fault := FaultOf(event);
      StoreItemsOverflow(st.(failure := if fault.Some? then fault else st.failure), ItemsOf(event), seen);
  }

  /** What byte `b` does to an observer that has read `stream` without giving up. */
  function GivesUpAt(decode: Decoder, stream: Bytes, b: byte): Option<StreamError>
  {
    if b != LF then (if Held(stream) + 1 > LIMIT then Some(EventTooLarge) else None)
    else if TrimCR(Unterminated(stream)) == []
            && Overflows(Announced(decode, Payloads(Lines(stream))), Announced(decode, [Pending(Lines(stream))]))
    then Some(TableTooLarge)
    else None
  }

  /**
    The observer gives up at byte `b` exactly when holding it back would exceed the limit,
    or when `b` completes an event and some item of it makes the table of everything
    announced so far larger than the limit.
   */
  lemma GivesUpExactly(decode: Decoder, stream: Bytes, b: byte)
    requires Feed(decode, FRESH, stream).err.None?
    ensures Feed(decode, FRESH, stream + [b]).err == GivesUpAt(decode, stream, b)
  {
    hide IsLatestTable, Overflows, Announced, Payloads, Lines, Pending, Captured, Feed;
    FeedMeaning(decode, stream);
    FeedConcat(decode, FRESH, stream, [b]);
    var st := Feed(decode, FRESH, stream);
    FeedOne(decode, st, b);
    CapturedOverflows(decode, st, Pending(Lines(stream)), Announced(decode, Payloads(Lines(stream))));
  }

  lemma FeedOne(decode: Decoder, st: State, b: byte)
    ensures Feed(decode, st, [b]) == Step(decode, st, b)
  {
    hide Step;
    var one: Bytes := [b];
    assert one[1..] == [];
  }

  /** A stream is read to its end exactly when none of its bytes makes the observer give up. */
  lemma {:induction false} SurvivesExactly(decode: Decoder, stream: Bytes)
    ensures Feed(decode, FRESH, stream).err.None? <==>
              forall k :: 0 <= k < |stream| ==> GivesUpAt(decode, stream[..k], stream[k]).None?
  {
    hide GivesUpAt, Feed;
    if stream == [] {
      NothingFed(decode);
    } else {
      var init, b := stream[..|stream| - 1], stream[|stream| - 1];
      assert stream == init + [b];
      SurvivesExactly(decode, init);
      assert forall k :: 0 <= k < |init| ==> init[..k] == stream[..k] && init[k] == stream[k];
      if Feed(decode, FRESH, init).err.None? {
        GivesUpExactly(decode, init, b);
      } else {
        FeedConcat(decode, FRESH, init, [b]);
        FeedStopped(decode, Feed(decode, FRESH, init), [b]);
      }
    }
  }

  lemma NothingFed(decode: Decoder)
    ensures Feed(decode, FRESH, []) == FRESH
  {}

  /** Once given up, no later byte changes anything a caller can see. */
  lemma GivingUpIsFinal(decode: Decoder, st: State, chunks: seq<Bytes>)
    requires st.err.Some?
    ensures ConsumedAll(decode, st, chunks) == st
    decreases |chunks|
  {
    if chunks != [] {
      GivingUpIsFinal(decode, st, chunks[1..]);
    }
  }

  // ---------------------------------------------------------------- restoring a message

  /** One content block of an agentic message; `signature` is present on reasoning blocks. */
  datatype Block = NilBlock | Block(signature: Option<Bytes>, itemID: Bytes, toolCall: bool, body: string)

  predicate HoldsItem(block: Block, id: Bytes)
  {
    block.Block? && block.signature.Some? && block.itemID == id
  }

  /** First reasoning block for `id`, or |blocks| when there is none. */
  function BlockOf(blocks: seq<Block>, id: Bytes): (k: nat)
    ensures k <= |blocks|
    ensures k < |blocks| ==> HoldsItem(blocks[k], id)
    ensures forall i :: 0 <= i < k ==> !HoldsItem(blocks[i], id)
  {
    if blocks == [] || HoldsItem(blocks[0], id) then 0 else 1 + BlockOf(blocks[1..], id)
  }

  function RestoreRow(blocks: seq<Block>, r: Reasoning): seq<Block>
  {
    var k := BlockOf(blocks, r.id);
    if k < |blocks| then blocks[k := blocks[k].(signature := Some(r.encrypted))]
    else blocks + [Block(Some(r.encrypted), r.id, false, "")]
  }

  function Restored(blocks: seq<Block>, table: seq<Reasoning>): seq<Block>
    decreases |table|
  {
    if table == [] then blocks else Restored(RestoreRow(blocks, table[0]), table[1..])
  }

  /** The first reasoning block of `r.id` exists and carries exactly `r.encrypted`. */
  predicate Carries(blocks: seq<Block>, r: Reasoning)
  {
    var k := BlockOf(blocks, r.id);
    k < |blocks| && blocks[k].signature == Some(r.encrypted)
  }

  /** `after` keeps every block of `before` in place, up to the signature of reasoning blocks. */
  predicate KeepsBlocks(before: seq<Block>, after: seq<Block>)
  {
    && |before| <= |after|
    && forall i :: 0 <= i < |before| ==>
         after[i] == before[i]
         || (before[i].Block? && before[i].signature.Some? && after[i].Block?
             && after[i] == before[i].(signature := after[i].signature) && after[i].signature.Some?)
  }

  lemma BlockOfIs(blocks: seq<Block>, id: Bytes, k: nat)
    requires k <= |blocks| && (k < |blocks| ==> HoldsItem(blocks[k], id))
    requires forall i :: 0 <= i < k ==> !HoldsItem(blocks[i], id)
    ensures BlockOf(blocks, id) == k
  {
    var b := BlockOf(blocks, id);
    assert b < |blocks| ==> HoldsItem(blocks[b], id);
  }

  lemma RestoreRowCarries(blocks: seq<Block>, r: Reasoning, other: Reasoning)
    ensures Carries(RestoreRow(blocks, r), r)
    ensures KeepsBlocks(blocks, RestoreRow(blocks, r))
    ensures Carries(blocks, other) && other.id != r.id ==> Carries(RestoreRow(blocks, r), other)
    ensures Carries(blocks, r) ==> RestoreRow(blocks, r) == blocks
  {
    var after := RestoreRow(blocks, r);
    BlockOfIs(after, r.id, BlockOf(blocks, r.id));
    if Carries(blocks, other) && other.id != r.id {
      BlockOfIs(after, other.id, BlockOf(blocks, other.id));
    }
  }

  lemma KeepsBlocksTransitive(a: seq<Block>, b: seq<Block>, c: seq<Block>)
    requires KeepsBlocks(a, b) && KeepsBlocks(b, c)
    ensures KeepsBlocks(a, c)
  {}

  /** Restoring writes every row of the table, and touches nothing but reasoning signatures. */
  lemma {:induction false} RestoredCarriesTable(blocks: seq<Block>, table: seq<Reasoning>)
    requires DistinctIDs(table)
    ensures forall k :: 0 <= k < |table| ==> Carries(Restored(blocks, table), table[k])
    ensures forall r :: Carries(blocks, r) && (forall k :: 0 <= k < |table| ==> table[k].id != r.id)
              ==> Carries(Restored(blocks, table), r)
    ensures KeepsBlocks(blocks, Restored(blocks, table))
    decreases |table|
  {
    hide RestoreRow, Carries, KeepsBlocks;
    if table == [] {
      KeepsSelf(blocks);
    } else {
      var next := RestoreRow(blocks, table[0]);
      RestoredCarriesTable(next, table[1..]);
      RestoreRowCarries(blocks, table[0], table[0]);
      KeepsBlocksTransitive(blocks, next, Restored(blocks, table));
      forall r | Carries(blocks, r) && forall k :: 0 <= k < |table| ==> table[k].id != r.id
        ensures Carries(Restored(blocks, table), r)
      {
        RestoreRowCarries(blocks, table[0], r);
        assert forall k :: 0 <= k < |table[1..]| ==> table[1..][k].id == table[k + 1].id;
      }
      forall k | 0 <= k < |table|
        ensures Carries(Restored(blocks, table), table[k])
      {
        if k > 0 {
          assert table[k] == table[1..][k - 1];
        }
      }
    }
  }

  lemma KeepsSelf(blocks: seq<Block>)
    ensures KeepsBlocks(blocks, blocks)
  {}

  lemma {:induction false} RestoredFixed(blocks: seq<Block>, table: seq<Reasoning>)
    requires forall k :: 0 <= k < |table| ==> Carries(blocks, table[k])
    ensures Restored(blocks, table) == blocks
    decreases |table|
  {
    hide RestoreRow, Carries;
    if table != [] {
      RestoreRowCarries(blocks, table[0], table[0]);
      RestoredFixed(blocks, table[1..]);
    }
  }

  /** Restoring the same table a second time changes nothing. */
  lemma RestoreIdempotent(blocks: seq<Block>, table: seq<Reasoning>)
    requires DistinctIDs(table)
    ensures Restored(Restored(blocks, table), table) == Restored(blocks, table)
  {
    RestoredCarriesTable(blocks, table);
    RestoredFixed(Restored(blocks, table), table);
  }

  // ---------------------------------------------------------------- the object

  datatype RestoreError = GaveUp(error: StreamError) | MissingContinuation

  /** A tool call may be continued only when every reasoning block carries a signature. */
  predicate Continuable(blocks: seq<Block>)
  {
    (exists i :: 0 <= i < |blocks| && blocks[i].Block? && blocks[i].toolCall) ==>
      forall i :: 0 <= i < |blocks| && blocks[i].Block? ==> blocks[i].signature != Some([])
  }

  class AgenticMessage {
    var contentBlocks: seq<Block>

    constructor (blocks: seq<Block>)
      ensures contentBlocks == blocks
    {
      contentBlocks := blocks;
    }
  }

  class StreamMetadata {
    const decode: Decoder
    var line: Bytes
    var data: Bytes
    var reasoning: seq<Reasoning>
    var totalBytes: int
    var err: Option<StreamError>
    var failure: Option<Fault>

    constructor (decode: Decoder)
      ensures this.decode == decode && Value() == FRESH
    {
      this.decode := decode;
      line, data, reasoning, totalBytes, err, failure := [], [], [], 0, None, None;
    }

    function Value(): State
      reads this
    {
      State(line, data, reasoning, totalBytes, err, failure)
    }

    method Consume(chunk: Bytes) returns (e: Option<StreamError>)
      requires Valid(Value())
      modifies this
      ensures Value() == Consumed(decode, old(Value()), chunk)
      ensures e == err && Valid(Value())
    {
      ConsumedValid(decode, Value(), chunk);
      if err.Some? {
        return err;
      }
      var rest := chunk;
      while |rest| > 0
        invariant err.None?
        invariant Consumed(decode, Value(), rest) == Consumed(decode, old(Value()), chunk)
      {
        var end := IndexLF(rest);
        if |line| + |data| + end > LIMIT {
          err := Some(EventTooLarge);
          return err;
        }
        line := line + rest[..end];
        if end == |rest| {
          return None;
        }
        EndOfLine();
        if err.Some? {
          return err;
        }
        rest := rest[end + 1..];
      }
      return None;
    }

    method EndOfLine()
      modifies this
      ensures Value() == EndLine(decode, old(Value()))
    {
      var trimmed := TrimCR(line);
      if trimmed == [] {
        CaptureEvent();
        data := [];
      } else if HasData(trimmed) {
        data := data + DataValue(trimmed);
        data := data + [LF];
        assert data == old(data) + DataValue(trimmed) + [LF];
      }
      line := [];
    }

    method CaptureEvent()
      modifies this
      ensures Value() == Captured(decode, old(Value()), old(data))
    {
      if !Interesting(data) {
        return;
      }
      match decode(data)
      case None =>
      case Some(event) =>
        var fault := FaultOf(event);
        if fault.Some? {
          failure := fault;
        }
        var items := ItemsOf(event);
        var i := 0;
        ghost var start := Value();
        while i < |items|
          invariant i <= |items|
          invariant StoreItems(Value(), items[i..]) == StoreItems(start, items)
        {
          var item := items[i];
          assert items[i..][0] == item && items[i..][1..] == items[i + 1..];
          Store(item);
          if err.Some? {
            StoreKeepsBuffers(Value(), items[i + 1..]);
            return;
          }
          i := i + 1;
        }
        assert items[i..] == [];
    }

    method Store(item: Item)
      modifies this
      ensures Value() == StoreItem(old(Value()), item)
    {
      if err.Some? || !Opaque(item) {
        return;
      }
      var index := |reasoning|;
      var i := 0;
      while i < |reasoning|
        invariant i <= |reasoning| && index == |reasoning|
        invariant Value() == old(Value())
        invariant forall j :: 0 <= j < i ==> reasoning[j].id != item.id
        invariant RowOf(reasoning, item.id) >= i
      {
        if reasoning[i].id == item.id {
          index := i;
          totalBytes := totalBytes - Size(reasoning[i]);
          break;
        }
        i := i + 1;
      }
      totalBytes := totalBytes + |item.id| + |item.encrypted|;
      if totalBytes > LIMIT {
        err := Some(TableTooLarge);
        return;
      }
      var value := Reasoning(item.id, item.encrypted);
      if index == |reasoning| {
        reasoning := reasoning + [value];
      } else {
        reasoning := reasoning[index := value];
      }
    }

    method Restore(message: AgenticMessage) returns (e: Option<RestoreError>)
      modifies message
      ensures err.Some? ==> e == Some(GaveUp(err.value)) && message.contentBlocks == old(message.contentBlocks)
      ensures err.None? ==>
                && message.contentBlocks == Restored(old(message.contentBlocks), reasoning)
                && (e == None || e == Some(MissingContinuation))
                && (e.Some? <==> exists i, j ::
                      && 0 <= i < |message.contentBlocks| && 0 <= j < |message.contentBlocks|
                      && message.contentBlocks[i].Block? && message.contentBlocks[i].toolCall
                      && message.contentBlocks[j].Block? && message.contentBlocks[j].signature == Some([]))
    {
      if err.Some? {
        return Some(GaveUp(err.value));
      }
      var i := 0;
      while i < |reasoning|
        invariant i <= |reasoning|
        invariant Restored(message.contentBlocks, reasoning[i..]) == Restored(old(message.contentBlocks), reasoning)
      {
        assert reasoning[i..][0] == reasoning[i] && reasoning[i..][1..] == reasoning[i + 1..];
        RestoreItem(message, reasoning[i]);
        i := i + 1;
      }
      e := if Continuable(message.contentBlocks) then None else Some(MissingContinuation);
    }

    static method RestoreItem(message: AgenticMessage, item: Reasoning)
      modifies message
      ensures message.contentBlocks == RestoreRow(old(message.contentBlocks), item)
    {
      var k := 0;
      while k < |message.contentBlocks|
        invariant k <= |message.contentBlocks|
        invariant message.contentBlocks == old(message.contentBlocks)
        invariant forall i :: 0 <= i < k ==> !HoldsItem(message.contentBlocks[i], item.id)
      {
        if HoldsItem(message.contentBlocks[k], item.id) {
          BlockOfIs(message.contentBlocks, item.id, k);
          message.contentBlocks := message.contentBlocks[k := message.contentBlocks[k].(signature := Some(item.encrypted))];
          return;
        }
        k := k + 1;
      }
      BlockOfIs(message.contentBlocks, item.id, k);
      message.contentBlocks := message.contentBlocks + [Block(Some(item.encrypted), item.id, false, "")];
    }
  }
}
