/**
  The projection of the append-only conversation log into model messages: a paged fold
  over the durable items with compaction checkpoints that preserve a concurrent tail,
  legacy summaries, checkpoints of other threads and failed-start tombstones.

  JSON payloads are given decoded; the forms that do not decode are cases of their own.
 */
module ConversationProjection {
  import opened Wrappers
  import opened Text
  import opened Chat
  import opened Keyed

  // ---------------------------------------------------------------- the log

  datatype Checkpoint = Checkpoint(
    version: int, threadID: string, replacementHistory: Option<seq<ChatMessage>>, triggerID: string,
    windowNumber: nat, firstWindowID: string, windowID: string,
    priorTokens: int, replacementTokens: int, compactedThrough: int)

  /** What a compaction payload decodes to; a version key makes it a checkpoint. */
  datatype CompactionBody =
    | NotAnObject
    | Versioned(checkpoint: Option<Checkpoint>)
    | Legacy(summary: Option<ChatMessage>)

  datatype Marker = Marker(version: int, userMessageID: string)

  datatype Payload =
    | Compaction(boundary: Option<string>, body: CompactionBody)
    | StartFailure(marker: Option<Marker>)
    | RolloutBudget
    | Recorded(message: Option<ChatMessage>)

  datatype Item = Item(sequence: int, id: string, payload: Payload)

  type Log = seq<Item>

  /** The store numbers items upwards from 1. */
  predicate Ordered(log: Log)
  {
    && (forall i :: 0 <= i < |log| ==> log[i].sequence > 0)
    && forall i, j :: 0 <= i < j < |log| ==> log[i].sequence < log[j].sequence
  }

  /** The largest page the store hands out. */
  const STORE_MAX: nat := 500

  function First(log: Log, after: int, limit: nat): Log
  {
    if log == [] || limit == 0 then []
    else if log[0].sequence > after then [log[0]] + First(log[1..], after, limit - 1)
    else First(log[1..], after, limit)
  }

  /** ListAssistantConversationItems: the first items after a sequence, with a clamped limit. */
  function Listed(log: Log, after: int, limit: int): Log
  {
    First(log, after, if limit <= 0 then 50 else if limit > STORE_MAX then STORE_MAX else limit)
  }

  // ---------------------------------------------------------------- one item

  datatype LoadError =
    | BadBoundary | BadEnvelope | BadCheckpoint | InvalidCheckpoint | BadLegacy | InvalidLegacy | BadMarker

  datatype Tailed = Tailed(sequence: int, message: ChatMessage)

  datatype State = State(
    messages: seq<ChatMessage>, checkpoint: Option<Checkpoint>, lastSequence: int,
    tail: seq<Tailed>, markers: seq<Marker>)

  const EMPTY := State([], None, 0, [], [])

  function TrimPrefix(s: string, prefix: string): string
  {
    if prefix <= s then s[|prefix|..] else s
  }

  function SummaryText(content: string): string
  {
    Trim(TrimPrefix(Trim(TrimPrefix(Trim(content), "Compacted conversation context:")), SUMMARY_PREAMBLE))
  }

  function SummaryMessage(summary: string): ChatMessage
  {
    ChatMessage("user", SUMMARY_PREAMBLE + "\n" + Trim(summary), "", "", [], [], map[], "")
  }

  /** validateProjectAssistantConversationCompactionCheckpoint. */
  predicate ValidCheckpoint(c: Checkpoint)
  {
    && c.version == 1 && c.replacementHistory.Some?
    && Trim(c.triggerID) != "" && c.windowNumber != 0
    && Trim(c.firstWindowID) != "" && Trim(c.windowID) != ""
    && c.priorTokens >= 0 && c.replacementTokens >= 0
  }

  /** Item IDs are not part of the JSON of a replacement history. */
  function Anonymous(messages: seq<ChatMessage>): (r: seq<ChatMessage>)
    ensures |r| == |messages|
    ensures forall i :: 0 <= i < |r| ==> r[i] == messages[i].(itemID := "")
  {
    if messages == [] then [] else [messages[0].(itemID := "")] + Anonymous(messages[1..])
  }

  function CheckpointBase(c: Checkpoint): seq<ChatMessage>
  {
    match c.replacementHistory
    case None => []
    case Some(history) => CloneAll(Anonymous(history))
  }

  /** The item ID a tombstone points at. */
  /** The checkpoint as it is kept, with its own clone of the history. */
  function Copied(c: Checkpoint): Checkpoint
  {
    if c.replacementHistory.None? then c else c.(replacementHistory := Some(CheckpointBase(c)))
  }

  function Target(marker: Marker): string { "message-" + Trim(marker.userMessageID) }

  function MessageID(m: ChatMessage): string { m.itemID }

  function TailedID(t: Tailed): string { t.message.itemID }

  function ScrubBy(st: State, markers: seq<Marker>): State
    decreases |markers|
  {
    if markers == [] then st
    else
      var id := Target(markers[0]);
      ScrubBy(
        st.(messages := WithoutLast(st.messages, MessageID, id), tail := WithoutLast(st.tail, TailedID, id)),
        markers[1..])
  }

  function Scrub(st: State): State { ScrubBy(st, st.markers) }

  /** The part of the tail a checkpoint that compacted through `through` must keep. */
  function Preserved(tail: seq<Tailed>, through: int): seq<Tailed>
    decreases |tail|
  {
    if tail == [] || through <= 0 then []
    else (if tail[0].sequence <= through then [] else [tail[0]]) + Preserved(tail[1..], through)
  }

  function TailMessages(tail: seq<Tailed>): (r: seq<ChatMessage>)
    ensures |r| == |tail|
    ensures forall i :: 0 <= i < |r| ==> r[i] == tail[i].message
  {
    if tail == [] then [] else [tail[0].message] + TailMessages(tail[1..])
  }

  predicate Foreign(threadID: string, boundary: Option<string>)
  {
    threadID != "" && boundary != Some(threadID)
  }

  function StepCompaction(st: State, body: CompactionBody): Result<State, LoadError>
  {
    match body
    case NotAnObject => Failure(BadEnvelope)
    case Versioned(None) => Failure(BadCheckpoint)
    case Versioned(Some(c)) =>
      if !ValidCheckpoint(c) then Failure(InvalidCheckpoint)
      else
        var kept := Preserved(st.tail, c.compactedThrough);
        Success(Scrub(st.(messages := CheckpointBase(c) + CloneAll(TailMessages(kept)), tail := kept,
                          checkpoint := Some(Copied(c)))))
    case Legacy(None) => Failure(BadLegacy)
    case Legacy(Some(m)) =>
      if Trim(m.role) == "" || SummaryText(m.content) == "" then Failure(InvalidLegacy)
      else Success(Scrub(st.(messages := [SummaryMessage(SummaryText(m.content))], tail := [], checkpoint := None)))
  }

  function Step(threadID: string, before: State, item: Item): Result<State, LoadError>
  {
    var st := before.(lastSequence := item.sequence);
    match item.payload
    case Compaction(boundary, body) =>
      if threadID != "" && boundary.None? then Failure(BadBoundary)
      else if Foreign(threadID, boundary) then Success(st)
      else StepCompaction(st, body)
    case StartFailure(None) => Failure(BadMarker)
    case StartFailure(Some(marker)) =>
      if marker.version != 1 || Trim(marker.userMessageID) == "" then Failure(BadMarker)
      else Success(Scrub(st.(markers := st.markers + [marker])))
    case RolloutBudget => Success(st)
    case Recorded(None) => Success(st)
    case Recorded(Some(m)) =>
      if Trim(m.role) == "" then Success(st)
      else
        var message := m.(itemID := item.id);
        Success(st.(messages := st.messages + [message], tail := st.tail + [Tailed(item.sequence, message)]))
  }

  function Fold(threadID: string, st: State, items: Log): Result<State, LoadError>
    decreases |items|
  {
    if items == [] then Success(st)
    else
      match Step(threadID, st, items[0])
      case Failure(e) => Failure(e)
      case Success(next) => Fold(threadID, next, items[1..])
  }

  /** The whole log, with no notion of a page. */
  function Projected(threadID: string, log: Log): Result<State, LoadError>
  {
    Fold(threadID, EMPTY, log)
  }

  // ---------------------------------------------------------------- the loops

  method RemoveStartFailureMessage(messages: seq<ChatMessage>, tail: seq<Tailed>, marker: Marker)
    returns (m: seq<ChatMessage>, t: seq<Tailed>)
    ensures m == WithoutLast(messages, MessageID, Target(marker))
    ensures t == WithoutLast(tail, TailedID, Target(marker))
  {
    m := RemoveMatching(messages, MessageID, Target(marker));
    t := RemoveMatching(tail, TailedID, Target(marker));
  }

  /** Scans from the end and removes the first match. */
  method RemoveMatching<T>(xs: seq<T>, key: T -> string, id: string) returns (r: seq<T>)
    ensures r == WithoutLast(xs, key, id)
  {
    var index := |xs| - 1;
    assert xs[..|xs|] == xs;
    while index >= 0
      invariant -1 <= index < |xs|
      invariant WithoutLast(xs, key, id) == WithoutLast(xs[..index + 1], key, id) + xs[index + 1..]
    {
      assert xs[..index + 1][..index] == xs[..index];
      if key(xs[index]) == id {
        return xs[..index] + xs[index + 1..];
      }
      index := index - 1;
    }
    return xs;
  }

  method ScrubFailedStartMessages(st: State) returns (r: State)
    ensures r == Scrub(st)
  {
    var messages, tail := st.messages, st.tail;
    for i := 0 to |st.markers|
      invariant ScrubBy(st.(messages := messages, tail := tail), st.markers[i..]) == Scrub(st)
    {
      hide WithoutLast, Target;
      assert st.markers[i..][1..] == st.markers[i + 1..];
      messages, tail := RemoveStartFailureMessage(messages, tail, st.markers[i]);
    }
    r := st.(messages := messages, tail := tail);
  }

  method PreserveTail(tail: seq<Tailed>, through: int) returns (kept: seq<Tailed>)
    ensures kept == Preserved(tail, through)
  {
    kept := [];
    if through > 0 {
      for i := 0 to |tail|
        invariant kept + Preserved(tail[i..], through) == Preserved(tail, through)
      {
        assert tail[i..][1..] == tail[i + 1..];
        if tail[i].sequence <= through {
          continue;
        }
        kept := kept + [tail[i]];
      }
    }
  }

  method ApplyCompaction(st: State, body: CompactionBody) returns (r: Result<State, LoadError>)
    ensures r == StepCompaction(st, body)
  {
    hide Scrub, ValidCheckpoint, SummaryText, Trim, CheckpointBase, Preserved;
    match body
    case NotAnObject => return Failure(BadEnvelope);
    case Versioned(None) => return Failure(BadCheckpoint);
    case Versioned(Some(c)) =>
      if !ValidCheckpoint(c) {
        return Failure(InvalidCheckpoint);
      }
      var kept := PreserveTail(st.tail, c.compactedThrough);
      var next := st.(messages := CheckpointBase(c) + CloneAll(TailMessages(kept)), tail := kept,
                      checkpoint := Some(Copied(c)));
      next := ScrubFailedStartMessages(next);
      return Success(next);
    case Legacy(None) => return Failure(BadLegacy);
    case Legacy(Some(m)) =>
      if Trim(m.role) == "" || SummaryText(m.content) == "" {
        return Failure(InvalidLegacy);
      }
      var next := st.(messages := [SummaryMessage(SummaryText(m.content))], tail := [], checkpoint := None);
      next := ScrubFailedStartMessages(next);
      return Success(next);
  }

  method ApplyItem(threadID: string, before: State, item: Item) returns (r: Result<State, LoadError>)
    ensures r == Step(threadID, before, item)
  {
    hide Scrub, StepCompaction, Trim;
    var st := before.(lastSequence := item.sequence);
    match item.payload
    case Compaction(boundary, body) =>
      if threadID != "" && boundary.None? {
        return Failure(BadBoundary);
      }
      if Foreign(threadID, boundary) {
        return Success(st);
      }
      r := ApplyCompaction(st, body);
    case StartFailure(None) => return Failure(BadMarker);
    case StartFailure(Some(marker)) =>
      if marker.version != 1 || Trim(marker.userMessageID) == "" {
        return Failure(BadMarker);
      }
      st := ScrubFailedStartMessages(st.(markers := st.markers + [marker]));
      return Success(st);
    case RolloutBudget => return Success(st);
    case Recorded(None) => return Success(st);
    case Recorded(Some(m)) =>
      if Trim(m.role) == "" {
        return Success(st);
      }
      var message := m.(itemID := item.id);
      return Success(st.(messages := st.messages + [message], tail := st.tail + [Tailed(item.sequence, message)]));
  }

  lemma {:induction false} FirstOfRest(log: Log, k: nat, after: int, limit: nat)
    requires Ordered(log) && k <= |log| && (k > 0 ==> after == log[k - 1].sequence) && (k == 0 ==> after == 0)
    ensures First(log, after, limit) == log[k..if k + limit <= |log| then k + limit else |log|]
  {
    FirstSkips(log, k, after, limit);
    FirstTakes(log[k..], after, limit);
    assert log[k..][..if limit <= |log| - k then limit else |log| - k]
        == log[k..if k + limit <= |log| then k + limit else |log|];
  }

  lemma {:induction false} FirstSkips(log: Log, k: nat, after: int, limit: nat)
    requires k <= |log| && forall i :: 0 <= i < k ==> log[i].sequence <= after
    ensures First(log, after, limit) == First(log[k..], after, limit)
    decreases k
  {
    if k == 0 {
      assert log[0..] == log;
    } else {
      assert log[1..][k - 1..] == log[k..];
      FirstSkips(log[1..], k - 1, after, limit);
    }
  }

  lemma {:induction false} FirstTakes(log: Log, after: int, limit: nat)
    requires forall i :: 0 <= i < |log| ==> log[i].sequence > after
    ensures First(log, after, limit) == log[..if limit <= |log| then limit else |log|]
    decreases |log|
  {
    if log != [] && limit > 0 {
      FirstTakes(log[1..], after, limit - 1);
      var n := if limit <= |log| then limit else |log|;
      assert log[..n] == [log[0]] + log[1..][..n - 1];
    }
  }

  /** loadProjectAssistantConversationProjection, for any page size the store honours. */
  method LoadProjection(log: Log, threadID: string, pageSize: nat) returns (r: Result<State, LoadError>)
    requires Ordered(log) && 1 <= pageSize <= STORE_MAX
    ensures r == Projected(threadID, log)
  {
    hide Step, First, Ordered;
    var st := EMPTY;
    var after := 0;
    ghost var done := 0;
    assert log[0..] == log;
    while true
      invariant done <= |log|
      invariant (done > 0 ==> after == log[done - 1].sequence) && (done == 0 ==> after == 0)
      invariant Fold(threadID, st, log[done..]) == Projected(threadID, log)
      decreases |log| - done
    {
      var page := Listed(log, after, pageSize);
      FirstOfRest(log, done, after, pageSize);
      ghost var next := if done + pageSize <= |log| then done + pageSize else |log|;
      assert page == log[done..next];
      for i := 0 to |page|
        invariant Fold(threadID, st, log[done + i..]) == Projected(threadID, log)
      {
        assert log[done + i..][0] == page[i] && log[done + i..][1..] == log[done + i + 1..];
        var applied := ApplyItem(threadID, st, page[i]);
        match applied
        case Failure(e) => return Failure(e);
        case Success(value) => st := value;
      }
      done := next;
      if |page| < pageSize {
        break;
      }
      after := page[|page| - 1].sequence;
    }
    return Success(st);
  }

  // ---------------------------------------------------------------- the closed form

  /** An item that contributes a message of its own. */
  predicate Ordinary(item: Item)
  {
    item.payload.Recorded? && item.payload.message.Some? && Trim(item.payload.message.value.role) != ""
  }

  /** A compaction of this thread (or any compaction, when no thread was named). */
  predicate Applied(threadID: string, item: Item)
  {
    item.payload.Compaction? && !Foreign(threadID, item.payload.boundary)
  }

  /** Every applied compaction and every tombstone reruns the removal of failed starts. */
  predicate ScrubEvent(threadID: string, item: Item)
  {
    Applied(threadID, item) || item.payload.StartFailure?
  }

  predicate Tombstone(item: Item, id: string)
  {
    item.payload.StartFailure? && item.payload.marker.Some? && Target(item.payload.marker.value) == id
  }

  /** A checkpoint spares an item exactly when it says how far it compacted and the item is newer. */
  predicate Spares(compaction: Item, sequence: int)
  {
    && compaction.payload.Compaction?
    && compaction.payload.body.Versioned? && compaction.payload.body.checkpoint.Some?
    && 0 < compaction.payload.body.checkpoint.value.compactedThrough < sequence
  }

  ghost predicate SparedByAll(threadID: string, log: Log, i: nat)
  {
    forall c :: i < c < |log| && Applied(threadID, log[c]) ==> i < |log| && Spares(log[c], log[i].sequence)
  }

  /** Some removal after item `i` knows a tombstone for it. */
  ghost predicate StartFailed(threadID: string, log: Log, i: nat)
  {
    i < |log|
    && exists e, k :: i < e < |log| && 0 <= k <= e && ScrubEvent(threadID, log[e]) && Tombstone(log[k], log[i].id)
  }

  ghost predicate Kept(threadID: string, log: Log, i: nat)
  {
    i < |log| && Ordinary(log[i]) && SparedByAll(threadID, log, i) && !StartFailed(threadID, log, i)
  }

  function Message(item: Item): ChatMessage
    requires Ordinary(item)
  {
    item.payload.message.value.(itemID := item.id)
  }

  ghost predicate CompactedLater(threadID: string, log: Log, i: nat)
  {
    exists c :: i < c < |log| && Applied(threadID, log[c])
  }

  /** What item `i` contributes: a survivor of a compaction is a clone, any other is as recorded. */
  ghost function MessagesAt(threadID: string, log: Log, i: nat): seq<ChatMessage>
  {
    if !Kept(threadID, log, i) then []
    else if CompactedLater(threadID, log, i) then [Clone(Message(log[i]))]
    else [Message(log[i])]
  }

  ghost function TailAt(threadID: string, log: Log, i: nat): seq<Tailed>
  {
    if Kept(threadID, log, i) then [Tailed(log[i].sequence, Message(log[i]))] else []
  }

  /** The contributions of the first `n` items, in order. */
  ghost function MessagesUpTo(threadID: string, log: Log, n: nat): seq<ChatMessage>
  {
    if n == 0 then [] else MessagesUpTo(threadID, log, n - 1) + MessagesAt(threadID, log, n - 1)
  }

  ghost function TailUpTo(threadID: string, log: Log, n: nat): seq<Tailed>
  {
    if n == 0 then [] else TailUpTo(threadID, log, n - 1) + TailAt(threadID, log, n - 1)
  }

  function LastApplied(threadID: string, log: Log): (c: int)
    ensures -1 <= c < |log|
    ensures c >= 0 ==> Applied(threadID, log[c])
    ensures forall i :: c < i < |log| ==> !Applied(threadID, log[i])
  {
    if log == [] then -1
    else if Applied(threadID, log[|log| - 1]) then |log| - 1
    else LastApplied(threadID, log[..|log| - 1])
  }

  /** The messages a compaction starts from. */
  function BaseOf(body: CompactionBody): seq<ChatMessage>
  {
    match body
    case Versioned(Some(c)) => CheckpointBase(c)
    case Legacy(Some(m)) => [SummaryMessage(SummaryText(m.content))]
    case _ => []
  }

  function CheckpointOf(body: CompactionBody): Option<Checkpoint>
  {
    match body
    case Versioned(Some(c)) => Some(Copied(c))
    case _ => None
  }

  function Base(threadID: string, log: Log): seq<ChatMessage>
  {
    var c := LastApplied(threadID, log);
    if c < 0 then [] else BaseOf(log[c].payload.body)
  }

  function CurrentCheckpoint(threadID: string, log: Log): Option<Checkpoint>
  {
    var c := LastApplied(threadID, log);
    if c < 0 then None else CheckpointOf(log[c].payload.body)
  }

  function MarkersOf(log: Log): seq<Marker>
  {
    if log == [] then []
    else MarkersOf(log[..|log| - 1]) + MarkerAt(log[|log| - 1])
  }

  function MarkerAt(item: Item): seq<Marker>
  {
    if item.payload.StartFailure? && item.payload.marker.Some? then [item.payload.marker.value] else []
  }

  /** Item IDs of ordinary items are unique. */
  predicate UniqueIDs(log: Log)
  {
    forall i, j :: 0 <= i < j < |log| && Ordinary(log[i]) && Ordinary(log[j]) ==> log[i].id != log[j].id
  }

  /**
    The projection without a fold: the base of the last applied compaction, followed by
    exactly the ordinary items that every later applied compaction spares and that no
    failed start removed, in log order.
   */
  ghost predicate ClosedForm(threadID: string, log: Log, st: State)
  {
    && st.messages == Base(threadID, log) + MessagesUpTo(threadID, log, |log|)
    && st.tail == TailUpTo(threadID, log, |log|)
    && st.checkpoint == CurrentCheckpoint(threadID, log)
    && st.markers == MarkersOf(log)
    && st.lastSequence == if log == [] then 0 else log[|log| - 1].sequence
  }

  // ---------------------------------------------------------------- scrubbing as a filter

  function Targets(markers: seq<Marker>): set<string>
  {
    if markers == [] then {} else {Target(markers[0])} + Targets(markers[1..])
  }

  lemma {:induction false} ScrubByIsDrop(st: State, markers: seq<Marker>)
    requires UniqueKeys(st.messages, MessageID) && UniqueKeys(st.tail, TailedID)
    ensures ScrubBy(st, markers)
         == st.(messages := DropAll(st.messages, MessageID, Targets(markers)),
                tail := DropAll(st.tail, TailedID, Targets(markers)))
    decreases |markers|
  {
    hide Trim;
    if markers == [] {
      DropNothing(st.messages, MessageID, {});
      DropNothing(st.tail, TailedID, {});
    } else {
      var id := Target(markers[0]);
      assert |id| > 0;
      hide WithoutLast, DropAll, UniqueKeys, Target;
      WithoutLastIsDrop(st.messages, MessageID, id);
      WithoutLastIsDrop(st.tail, TailedID, id);
      DropKeepsUnique(st.messages, MessageID, {id});
      DropKeepsUnique(st.tail, TailedID, {id});
      var next := st.(messages := DropAll(st.messages, MessageID, {id}), tail := DropAll(st.tail, TailedID, {id}));
      ScrubByIsDrop(next, markers[1..]);
      DropTwice(st.messages, MessageID, {id}, Targets(markers[1..]));
      DropTwice(st.tail, TailedID, {id}, Targets(markers[1..]));
    }
  }

  lemma {:induction false} TargetsAppend(a: seq<Marker>, b: seq<Marker>)
    ensures Targets(a + b) == Targets(a) + Targets(b)
    decreases |a|
  {
    hide Target;
    if a == [] {
      assert a + b == b;
    } else {
      assert (a + b)[1..] == a[1..] + b;
      TargetsAppend(a[1..], b);
    }
  }

  /** The tombstones of a log are the targets of its markers. */
  lemma {:induction false} TargetsOfLog(log: Log, id: string)
    ensures id in Targets(MarkersOf(log)) <==> exists k :: 0 <= k < |log| && Tombstone(log[k], id)
    decreases |log|
  {
    hide Target;
    if log != [] {
      var init, last := log[..|log| - 1], log[|log| - 1];
      TargetsOfLog(init, id);
      TargetsAppend(MarkersOf(init), MarkerAt(last));
      assert id in Targets(MarkerAt(last)) <==> Tombstone(last, id);
      if id in Targets(MarkersOf(init)) {
        var k :| 0 <= k < |init| && Tombstone(init[k], id);
        assert log[k] == init[k];
      }
      if exists k :: 0 <= k < |log| && Tombstone(log[k], id) {
        var k :| 0 <= k < |log| && Tombstone(log[k], id);
        assert k < |init| ==> init[k] == log[k];
      }
    }
  }

  // ---------------------------------------------------------------- one more item

  /** How one more item changes what survives. */
  lemma KeptStep(threadID: string, log: Log, x: Item, i: nat)
    requires i < |log|
    ensures Kept(threadID, log + [x], i) <==>
              && Kept(threadID, log, i)
              && (Applied(threadID, x) ==> Spares(x, log[i].sequence))
              && !(ScrubEvent(threadID, x) && log[i].id in Targets(MarkersOf(log + [x])))
    ensures CompactedLater(threadID, log + [x], i) <==> CompactedLater(threadID, log, i) || Applied(threadID, x)
  {
    var now := log + [x];
    hide Applied, Spares, Ordinary, Tombstone, Targets, MarkersOf;
    assert forall k :: 0 <= k < |log| ==> now[k] == log[k];
    assert now[|log|] == x;
    SparedStep(threadID, log, x, i);
    StartFailedStep(threadID, log, x, i);
    if Applied(threadID, x) {
      assert Applied(threadID, now[|log|]);
    }
    if CompactedLater(threadID, log, i) {
      var c :| i < c < |log| && Applied(threadID, log[c]);
      assert Applied(threadID, now[c]);
    }
  }

  lemma SparedStep(threadID: string, log: Log, x: Item, i: nat)
    requires i < |log|
    ensures SparedByAll(threadID, log + [x], i) <==>
              SparedByAll(threadID, log, i) && (Applied(threadID, x) ==> Spares(x, log[i].sequence))
  {
    hide Applied, Spares;
    var now := log + [x];
    assert forall k :: 0 <= k < |log| ==> now[k] == log[k];
    assert now[|log|] == x;
    if SparedByAll(threadID, now, i) {
      forall c | i < c < |log| && Applied(threadID, log[c])
        ensures Spares(log[c], log[i].sequence)
      {
        assert Applied(threadID, now[c]);
      }
    }
  }

  lemma StartFailedStep(threadID: string, log: Log, x: Item, i: nat)
    requires i < |log|
    ensures StartFailed(threadID, log + [x], i) <==>
              StartFailed(threadID, log, i)
              || (ScrubEvent(threadID, x) && log[i].id in Targets(MarkersOf(log + [x])))
  {
    hide ScrubEvent, Tombstone, Targets, MarkersOf;
    var now := log + [x];
    var id := log[i].id;
    assert forall k :: 0 <= k < |log| ==> now[k] == log[k];
    assert now[|log|] == x && now[i].id == id;
    TargetsOfLog(now, id);
    if StartFailed(threadID, now, i) {
      var e, k :| i < e < |now| && 0 <= k <= e && ScrubEvent(threadID, now[e]) && Tombstone(now[k], now[i].id);
      if e < |log| {
        assert ScrubEvent(threadID, log[e]) && Tombstone(log[k], id);
      }
    }
    if StartFailed(threadID, log, i) {
      var e, k :| i < e < |log| && 0 <= k <= e && ScrubEvent(threadID, log[e]) && Tombstone(log[k], id);
      assert ScrubEvent(threadID, now[e]) && Tombstone(now[k], id);
    }
    if ScrubEvent(threadID, x) && id in Targets(MarkersOf(now)) {
      var k :| 0 <= k < |now| && Tombstone(now[k], id);
      assert ScrubEvent(threadID, now[|log|]);
    }
  }

  lemma NewestKept(threadID: string, log: Log, x: Item)
    ensures Kept(threadID, log + [x], |log|) <==> Ordinary(x)
    ensures !CompactedLater(threadID, log + [x], |log|)
  {
    hide Applied, Spares, Ordinary, Tombstone, ScrubEvent;
    assert (log + [x])[|log|] == x;
  }

  lemma MarkersAppend(log: Log, x: Item)
    ensures MarkersOf(log + [x]) == MarkersOf(log) + MarkerAt(x)
  {
    assert (log + [x])[..|log|] == log;
  }

  lemma LastAppliedAppend(threadID: string, log: Log, x: Item)
    ensures LastApplied(threadID, log + [x]) == if Applied(threadID, x) then |log| else LastApplied(threadID, log)
  {
    hide Applied;
    assert (log + [x])[..|log|] == log;
  }

  lemma BaseAppend(threadID: string, log: Log, x: Item)
    ensures Base(threadID, log + [x])
         == if Applied(threadID, x) then BaseOf(x.payload.body) else Base(threadID, log)
    ensures CurrentCheckpoint(threadID, log + [x])
         == if Applied(threadID, x) then CheckpointOf(x.payload.body) else CurrentCheckpoint(threadID, log)
  {
    hide BaseOf, CheckpointOf;
    LastAppliedAppend(threadID, log, x);
    var c := LastApplied(threadID, log);
    assert c >= 0 ==> (log + [x])[c] == log[c];
  }

  /** An item that is neither a compaction nor a tombstone leaves earlier contributions alone. */
  lemma {:induction false} UntouchedUpTo(threadID: string, log: Log, x: Item, n: nat)
    requires n <= |log| && !ScrubEvent(threadID, x)
    ensures MessagesUpTo(threadID, log + [x], n) == MessagesUpTo(threadID, log, n)
    ensures TailUpTo(threadID, log + [x], n) == TailUpTo(threadID, log, n)
  {
    hide Kept, CompactedLater, Targets, Ordinary;
    if n > 0 {
      UntouchedUpTo(threadID, log, x, n - 1);
      KeptStep(threadID, log, x, n - 1);
    }
  }

  lemma {:induction false} TombstoneUpTo(threadID: string, log: Log, x: Item, n: nat)
    requires n <= |log| && x.payload.StartFailure?
    ensures var gone := Targets(MarkersOf(log + [x]));
            && MessagesUpTo(threadID, log + [x], n) == DropAll(MessagesUpTo(threadID, log, n), MessageID, gone)
            && TailUpTo(threadID, log + [x], n) == DropAll(TailUpTo(threadID, log, n), TailedID, gone)
  {
    hide Kept, CompactedLater, Targets, Ordinary, MarkersOf, DropAll;
    var gone := Targets(MarkersOf(log + [x]));
    if n == 0 {
      DropNothing<ChatMessage>([], MessageID, gone);
      DropNothing<Tailed>([], TailedID, gone);
    } else {
      TombstoneUpTo(threadID, log, x, n - 1);
      TombstoneAt(threadID, log, x, n - 1);
      DropConcat(MessagesUpTo(threadID, log, n - 1), MessagesAt(threadID, log, n - 1), MessageID, gone);
      DropConcat(TailUpTo(threadID, log, n - 1), TailAt(threadID, log, n - 1), TailedID, gone);
    }
  }

  lemma TombstoneAt(threadID: string, log: Log, x: Item, i: nat)
    requires i < |log| && x.payload.StartFailure?
    ensures var gone := Targets(MarkersOf(log + [x]));
            && MessagesAt(threadID, log + [x], i) == DropAll(MessagesAt(threadID, log, i), MessageID, gone)
            && TailAt(threadID, log + [x], i) == DropAll(TailAt(threadID, log, i), TailedID, gone)
  {
    KeptStep(threadID, log, x, i);
    var gone := Targets(MarkersOf(log + [x]));
    if Kept(threadID, log, i) {
      hide CompactedLater, Targets, Ordinary, MarkersOf, DropAll;
      var m := MessagesAt(threadID, log, i)[0];
      DropOne(m, MessageID, gone);
      DropOne(TailAt(threadID, log, i)[0], TailedID, gone);
    }
  }

  lemma {:induction false} PreservedConcat(a: seq<Tailed>, b: seq<Tailed>, through: int)
    ensures Preserved(a + b, through) == Preserved(a, through) + Preserved(b, through)
    decreases |a|
  {
    if a == [] {
      assert a + b == b;
    } else {
      assert (a + b)[1..] == a[1..] + b;
      PreservedConcat(a[1..], b, through);
    }
  }

  /** The messages a checkpoint keeps of a tail, as it stores them. */
  function KeptMessages(tail: seq<Tailed>, through: int): seq<ChatMessage>
  {
    CloneAll(TailMessages(Preserved(tail, through)))
  }

  lemma KeptMessagesConcat(a: seq<Tailed>, b: seq<Tailed>, through: int)
    ensures KeptMessages(a + b, through) == KeptMessages(a, through) + KeptMessages(b, through)
  {
    hide Preserved, Clone;
    PreservedConcat(a, b, through);
  }

  lemma {:induction false} CheckpointUpTo(threadID: string, log: Log, x: Item, n: nat, c: Checkpoint)
    requires n <= |log| && Applied(threadID, x) && x.payload.body == Versioned(Some(c))
    ensures var gone := Targets(MarkersOf(log + [x]));
            && MessagesUpTo(threadID, log + [x], n)
               == DropAll(KeptMessages(TailUpTo(threadID, log, n), c.compactedThrough), MessageID, gone)
            && TailUpTo(threadID, log + [x], n)
               == DropAll(Preserved(TailUpTo(threadID, log, n), c.compactedThrough), TailedID, gone)
  {
    hide *;
    if n == 0 {
      NothingYet(threadID, log, log + [x], c.compactedThrough, Targets(MarkersOf(log + [x])));
    } else {
      CheckpointUpTo(threadID, log, x, n - 1, c);
      CheckpointGrows(threadID, log, x, n, c);
    }
  }

  lemma NothingYet(threadID: string, log: Log, now: Log, through: int, gone: set<string>)
    ensures MessagesUpTo(threadID, now, 0) == DropAll(KeptMessages(TailUpTo(threadID, log, 0), through), MessageID, gone)
    ensures TailUpTo(threadID, now, 0) == DropAll(Preserved(TailUpTo(threadID, log, 0), through), TailedID, gone)
  {
    DropNothing<ChatMessage>([], MessageID, gone);
    DropNothing<Tailed>([], TailedID, gone);
  }

  lemma CheckpointGrows(threadID: string, log: Log, x: Item, n: nat, c: Checkpoint)
    requires 0 < n <= |log| && Applied(threadID, x) && x.payload.body == Versioned(Some(c))
    requires var gone := Targets(MarkersOf(log + [x]));
             && MessagesUpTo(threadID, log + [x], n - 1)
                == DropAll(KeptMessages(TailUpTo(threadID, log, n - 1), c.compactedThrough), MessageID, gone)
             && TailUpTo(threadID, log + [x], n - 1)
                == DropAll(Preserved(TailUpTo(threadID, log, n - 1), c.compactedThrough), TailedID, gone)
    ensures var gone := Targets(MarkersOf(log + [x]));
            && MessagesUpTo(threadID, log + [x], n)
               == DropAll(KeptMessages(TailUpTo(threadID, log, n), c.compactedThrough), MessageID, gone)
            && TailUpTo(threadID, log + [x], n)
               == DropAll(Preserved(TailUpTo(threadID, log, n), c.compactedThrough), TailedID, gone)
  {
    hide *;
    var gone := Targets(MarkersOf(log + [x]));
    var through := c.compactedThrough;
    var tail, last := TailUpTo(threadID, log, n - 1), TailAt(threadID, log, n - 1);
    CheckpointAt(threadID, log, x, n - 1, c);
    UpToStep(threadID, log, n);
    UpToStep(threadID, log + [x], n);
    KeptMessagesConcat(tail, last, through);
    PreservedConcat(tail, last, through);
    DropConcat(KeptMessages(tail, through), KeptMessages(last, through), MessageID, gone);
    DropConcat(Preserved(tail, through), Preserved(last, through), TailedID, gone);
  }

  lemma CheckpointAt(threadID: string, log: Log, x: Item, i: nat, c: Checkpoint)
    requires i < |log| && Applied(threadID, x) && x.payload.body == Versioned(Some(c))
    ensures var gone := Targets(MarkersOf(log + [x]));
            && MessagesAt(threadID, log + [x], i)
               == DropAll(KeptMessages(TailAt(threadID, log, i), c.compactedThrough), MessageID, gone)
            && TailAt(threadID, log + [x], i)
               == DropAll(Preserved(TailAt(threadID, log, i), c.compactedThrough), TailedID, gone)
  {
    KeptStep(threadID, log, x, i);
    var gone := Targets(MarkersOf(log + [x]));
    DropNothing<ChatMessage>([], MessageID, gone);
    DropNothing<Tailed>([], TailedID, gone);
    if Kept(threadID, log, i) {
      hide CompactedLater, Targets, Ordinary, MarkersOf, DropAll, Kept, Applied;
      var t := Tailed(log[i].sequence, Message(log[i]));
      KeptOne(t, c.compactedThrough);
      DropOne(t, TailedID, gone);
      DropOne(Clone(t.message), MessageID, gone);
    }
  }

  lemma KeptOne(t: Tailed, through: int)
    ensures Preserved([t], through) == if 0 < through < t.sequence then [t] else []
    ensures KeptMessages([t], through) == if 0 < through < t.sequence then [Clone(t.message)] else []
  {
    assert [t][1..] == [];
  }

  lemma {:induction false} LegacyUpTo(threadID: string, log: Log, x: Item, n: nat)
    requires n <= |log| && Applied(threadID, x) && x.payload.body.Legacy?
    ensures MessagesUpTo(threadID, log + [x], n) == [] && TailUpTo(threadID, log + [x], n) == []
  {
    hide Kept, CompactedLater, Targets, Ordinary, MarkersOf;
    if n > 0 {
      LegacyUpTo(threadID, log, x, n - 1);
      KeptStep(threadID, log, x, n - 1);
    }
  }

  // ---------------------------------------------------------------- unique IDs

  lemma {:induction false} ContributionIDs(threadID: string, log: Log, n: nat, id: string)
    requires n <= |log|
    requires forall i :: 0 <= i < n && Ordinary(log[i]) ==> log[i].id != id
    ensures forall k :: 0 <= k < |MessagesUpTo(threadID, log, n)| ==> MessagesUpTo(threadID, log, n)[k].itemID != id
    ensures forall k :: 0 <= k < |TailUpTo(threadID, log, n)| ==> TailedID(TailUpTo(threadID, log, n)[k]) != id
  {
    hide Ordinary, SparedByAll, StartFailed, CompactedLater;
    if n > 0 {
      ContributionIDs(threadID, log, n - 1, id);
    }
  }

  lemma UpToStep(threadID: string, log: Log, n: nat)
    requires n > 0
    ensures MessagesUpTo(threadID, log, n) == MessagesUpTo(threadID, log, n - 1) + MessagesAt(threadID, log, n - 1)
    ensures TailUpTo(threadID, log, n) == TailUpTo(threadID, log, n - 1) + TailAt(threadID, log, n - 1)
  {}

  lemma NoKeys()
    ensures UniqueKeys<ChatMessage>([], MessageID) && UniqueKeys<Tailed>([], TailedID)
  {}

  lemma {:induction false} ContributionsUnique(threadID: string, log: Log, n: nat)
    requires n <= |log| && UniqueIDs(log)
    ensures UniqueKeys(MessagesUpTo(threadID, log, n), MessageID)
    ensures UniqueKeys(TailUpTo(threadID, log, n), TailedID)
  {
    hide Ordinary, SparedByAll, StartFailed, CompactedLater, UniqueKeys;
    if n == 0 {
      NoKeys();
    } else {
      ContributionsUnique(threadID, log, n - 1);
      if Kept(threadID, log, n - 1) {
        ContributionIDs(threadID, log, n - 1, log[n - 1].id);
        var m := MessagesAt(threadID, log, n - 1)[0];
        var t := TailAt(threadID, log, n - 1)[0];
        assert MessageID(m) == TailedID(t) == log[n - 1].id;
        var earlier := MessagesUpTo(threadID, log, n - 1);
        forall k | 0 <= k < |earlier|
          ensures MessageID(earlier[k]) != MessageID(m)
        {
          assert earlier[k].itemID != log[n - 1].id;
        }
        AppendUnique(MessagesUpTo(threadID, log, n - 1), m, MessageID);
        AppendUnique(TailUpTo(threadID, log, n - 1), t, TailedID);
        assert MessagesAt(threadID, log, n - 1) == [m] && TailAt(threadID, log, n - 1) == [t];
      } else {
        UpToStep(threadID, log, n);
        assert MessagesUpTo(threadID, log, n) == MessagesUpTo(threadID, log, n - 1);
        assert TailUpTo(threadID, log, n) == TailUpTo(threadID, log, n - 1);
      }
    }
  }

  lemma {:induction false} PreservedUnique(tail: seq<Tailed>, through: int)
    requires UniqueKeys(tail, TailedID)
    ensures UniqueKeys(Preserved(tail, through), TailedID)
    ensures forall t :: t in Preserved(tail, through) ==> t in tail
    decreases |tail|
  {
    if tail != [] && through > 0 {
      assert forall i :: 0 <= i < |tail[1..]| ==> tail[1..][i] == tail[i + 1];
      PreservedUnique(tail[1..], through);
      var rest := Preserved(tail[1..], through);
      forall j | 0 <= j < |rest| && TailedID(tail[0]) != ""
        ensures TailedID(rest[j]) != TailedID(tail[0])
      {
        assert rest[j] in tail[1..];
      }
    }
  }

  lemma KeptMessagesUnique(tail: seq<Tailed>, through: int)
    requires UniqueKeys(tail, TailedID)
    ensures UniqueKeys(KeptMessages(tail, through), MessageID)
  {
    hide Preserved;
    PreservedUnique(tail, through);
    var kept := Preserved(tail, through);
    assert forall i :: 0 <= i < |kept| ==> MessageID(KeptMessages(tail, through)[i]) == TailedID(kept[i]);
  }

  lemma BlankBaseUnique(base: seq<ChatMessage>, rest: seq<ChatMessage>)
    requires UniqueKeys(rest, MessageID) && forall i :: 0 <= i < |base| ==> base[i].itemID == ""
    ensures UniqueKeys(base + rest, MessageID)
  {}

  lemma {:induction false} BlankIsNoTarget(markers: seq<Marker>)
    ensures "" !in Targets(markers)
  {
    hide Trim;
    if markers != [] {
      assert |Target(markers[0])| > 0;
      BlankIsNoTarget(markers[1..]);
    }
  }

  lemma BaseIsBlank(threadID: string, log: Log)
    ensures forall i :: 0 <= i < |Base(threadID, log)| ==> Base(threadID, log)[i].itemID == ""
  {
    hide SummaryText, Trim, LastApplied, Applied;
    var c := LastApplied(threadID, log);
    if c >= 0 && c < |log| && Applied(threadID, log[c]) {
    }
  }

  // ---------------------------------------------------------------- the theorem

  lemma {:induction false} FoldAppend(threadID: string, st: State, log: Log, x: Item)
    ensures Fold(threadID, st, log).Failure? ==> Fold(threadID, st, log + [x]) == Fold(threadID, st, log)
    ensures Fold(threadID, st, log).Success? ==>
              Fold(threadID, st, log + [x]) == Step(threadID, Fold(threadID, st, log).value, x)
    decreases |log|
  {
    hide Step;
    if log == [] {
      assert [x][1..] == [] && log + [x] == [x];
    } else {
      assert (log + [x])[0] == log[0] && (log + [x])[1..] == log[1..] + [x];
      match Step(threadID, st, log[0])
      case Failure(e) =>
      case Success(next) => FoldAppend(threadID, next, log[1..], x);
    }
  }

  lemma LastItem(log: Log, x: Item)
    ensures (log + [x])[|log + [x]| - 1] == x && log + [x] != []
  {}

  lemma Regroup(a: seq<ChatMessage>, b: seq<ChatMessage>, c: seq<ChatMessage>)
    ensures (a + b) + c == a + (b + c)
  {}

  lemma RecordStep(threadID: string, log: Log, st: State, x: Item, next: State)
    requires ClosedForm(threadID, log, st) && Step(threadID, st, x) == Success(next)
    requires !ScrubEvent(threadID, x)
    ensures ClosedForm(threadID, log + [x], next)
  {
    hide *;
    RecordResult(threadID, st, x);
    RecordContribution(threadID, log, x);
    UntouchedUpTo(threadID, log, x, |log|);
    MarkersAppend(log, x);
    BaseAppend(threadID, log, x);
    UpToStep(threadID, log + [x], |log + [x]|);
    ClosedParts(threadID, log, st);
    var own, tail := MessagesUpTo(threadID, log, |log|), TailUpTo(threadID, log, |log|);
    Regroup(Base(threadID, log), own, Contribution(x));
    assert MarkersOf(log) + [] == MarkersOf(log);
    MakeClosed(threadID, log, x, next);
  }

  function Contribution(x: Item): seq<ChatMessage> { if Ordinary(x) then [Message(x)] else [] }

  function TailContribution(x: Item): seq<Tailed>
  {
    if Ordinary(x) then [Tailed(x.sequence, Message(x))] else []
  }

  lemma RecordResult(threadID: string, st: State, x: Item)
    requires Step(threadID, st, x).Success? && !ScrubEvent(threadID, x)
    ensures Step(threadID, st, x).value
         == st.(lastSequence := x.sequence, messages := st.messages + Contribution(x),
                tail := st.tail + TailContribution(x))
    ensures !Applied(threadID, x) && MarkerAt(x) == []
  {
    hide Trim;
    assert st.messages + [] == st.messages && st.tail + [] == st.tail;
  }

  lemma RecordContribution(threadID: string, log: Log, x: Item)
    ensures MessagesAt(threadID, log + [x], |log|) == Contribution(x)
    ensures TailAt(threadID, log + [x], |log|) == TailContribution(x)
  {
    NewestKept(threadID, log, x);
    hide Kept, CompactedLater, Ordinary;
    assert (log + [x])[|log|] == x;
  }

  lemma NewestSilent(threadID: string, log: Log, x: Item)
    requires !Ordinary(x)
    ensures MessagesUpTo(threadID, log + [x], |log + [x]|) == MessagesUpTo(threadID, log + [x], |log|)
    ensures TailUpTo(threadID, log + [x], |log + [x]|) == TailUpTo(threadID, log + [x], |log|)
  {
    NewestKept(threadID, log, x);
    UpToStep(threadID, log + [x], |log| + 1);
    hide Kept, MessagesUpTo, TailUpTo;
  }

  lemma TombstoneStep(threadID: string, log: Log, st: State, x: Item, next: State)
    requires UniqueIDs(log) && ClosedForm(threadID, log, st) && Step(threadID, st, x) == Success(next)
    requires x.payload.StartFailure?
    ensures ClosedForm(threadID, log + [x], next)
  {
    hide BaseOf, Targets, MessagesUpTo, TailUpTo, Base, MarkersOf, CurrentCheckpoint, Trim, DropAll, UniqueKeys, UniqueIDs, ScrubBy;
    var now := log + [x];
    TombstoneUpTo(threadID, log, x, |log|);
    NewestSilent(threadID, log, x);
    MarkersAppend(log, x);
    BaseAppend(threadID, log, x);
    LastItem(log, x);
    var before := st.(lastSequence := x.sequence, markers := MarkersOf(now));
    assert next == ScrubBy(before, MarkersOf(now));
    ScrubClosedForm(threadID, log, st, MarkersOf(now));
    ScrubIgnores(st, before, MarkersOf(now));
  }

  /** Scrubbing a closed form drops every contribution with a tombstone and keeps the base. */
  lemma ScrubClosedForm(threadID: string, log: Log, st: State, markers: seq<Marker>)
    requires UniqueIDs(log) && ClosedForm(threadID, log, st)
    ensures ScrubBy(st, markers)
         == st.(messages := Base(threadID, log) + DropAll(MessagesUpTo(threadID, log, |log|), MessageID, Targets(markers)),
                tail := DropAll(TailUpTo(threadID, log, |log|), TailedID, Targets(markers)))
  {
    hide *;
    ClosedParts(threadID, log, st);
    var base, own := Base(threadID, log), MessagesUpTo(threadID, log, |log|);
    ContributionsUnique(threadID, log, |log|);
    BaseIsBlank(threadID, log);
    BlankBaseUnique(base, own);
    ScrubByIsDrop(st, markers);
    BlankKept(base, own, markers);
  }

  lemma BlankKept(base: seq<ChatMessage>, own: seq<ChatMessage>, markers: seq<Marker>)
    requires forall i :: 0 <= i < |base| ==> base[i].itemID == ""
    ensures DropAll(base + own, MessageID, Targets(markers)) == base + DropAll(own, MessageID, Targets(markers))
  {
    hide DropAll, Targets;
    BlankIsNoTarget(markers);
    DropNothing(base, MessageID, Targets(markers));
    DropConcat(base, own, MessageID, Targets(markers));
  }

  /** Scrubbing looks at messages and tail only. */
  lemma {:induction false} ScrubIgnores(a: State, b: State, markers: seq<Marker>)
    requires a.messages == b.messages && a.tail == b.tail
    ensures ScrubBy(b, markers) == b.(messages := ScrubBy(a, markers).messages, tail := ScrubBy(a, markers).tail)
    decreases |markers|
  {
    hide WithoutLast, Target;
    if markers != [] {
      var id := Target(markers[0]);
      ScrubIgnores(
        a.(messages := WithoutLast(a.messages, MessageID, id), tail := WithoutLast(a.tail, TailedID, id)),
        b.(messages := WithoutLast(b.messages, MessageID, id), tail := WithoutLast(b.tail, TailedID, id)),
        markers[1..]);
    }
  }

  /** What a compaction leaves before failed starts are removed again. */
  function Cut(st: State, x: Item): State
    requires x.payload.Compaction?
  {
    match x.payload.body
    case Versioned(Some(c)) =>
      State(CheckpointBase(c) + KeptMessages(st.tail, c.compactedThrough), Some(Copied(c)), x.sequence,
            Preserved(st.tail, c.compactedThrough), st.markers)
    case _ => State(BaseOf(x.payload.body), None, x.sequence, [], st.markers)
  }

  lemma CompactionResult(threadID: string, st: State, x: Item)
    requires Applied(threadID, x) && Step(threadID, st, x).Success?
    ensures Step(threadID, st, x).value == ScrubBy(Cut(st, x), st.markers)
    ensures x.payload.body.Legacy? || (x.payload.body.Versioned? && x.payload.body.checkpoint.Some?)
  {
    hide ScrubBy, Preserved, Trim, SummaryText, ValidCheckpoint, CheckpointBase, TailMessages, CloneAll;
  }

  lemma CompactionMarkers(log: Log, x: Item)
    requires x.payload.Compaction?
    ensures MarkersOf(log + [x]) == MarkersOf(log)
  {
    MarkersAppend(log, x);
  }

  lemma CheckpointStep(threadID: string, log: Log, st: State, x: Item, next: State, c: Checkpoint)
    requires UniqueIDs(log) && ClosedForm(threadID, log, st) && Step(threadID, st, x) == Success(next)
    requires Applied(threadID, x) && x.payload.body == Versioned(Some(c))
    ensures ClosedForm(threadID, log + [x], next)
  {
    var now := log + [x];
    var gone := Targets(MarkersOf(now));
    var base := CheckpointBase(c);
    var tail := TailUpTo(threadID, log, |log|);
    var kept := Preserved(tail, c.compactedThrough);
    var survivors := KeptMessages(tail, c.compactedThrough);
    assert forall i :: 0 <= i < |base| ==> base[i].itemID == "";
    BaseAppend(threadID, log, x);
    CompactionMarkers(log, x);
    assert Cut(st, x) == State(base + survivors, Some(Copied(c)), x.sequence, kept, st.markers);
    assert BaseOf(x.payload.body) == base && CheckpointOf(x.payload.body) == Some(Copied(c));
    hide Targets, MessagesUpTo, TailUpTo, Base, MarkersOf, CurrentCheckpoint, DropAll, UniqueKeys, UniqueIDs,
         CheckpointBase, KeptMessages, Preserved, ScrubBy, Applied, StepCompaction, Step, Cut, BaseOf, CheckpointOf;
    CompactionResult(threadID, st, x);
    CheckpointUpTo(threadID, log, x, |log|, c);
    NewestSilent(threadID, log, x);
    LastItem(log, x);
    ContributionsUnique(threadID, log, |log|);
    PreservedUnique(tail, c.compactedThrough);
    KeptMessagesUnique(tail, c.compactedThrough);
    BlankBaseUnique(base, survivors);
    BlankKept(base, survivors, st.markers);
    ScrubByIsDrop(Cut(st, x), st.markers);
  }

  lemma LegacyCut(st: State, x: Item)
    requires x.payload.Compaction? && x.payload.body.Legacy?
    ensures Cut(st, x) == State(BaseOf(x.payload.body), None, x.sequence, [], st.markers)
    ensures CheckpointOf(x.payload.body) == None
    ensures forall i :: 0 <= i < |BaseOf(x.payload.body)| ==> BaseOf(x.payload.body)[i].itemID == ""
  {
    hide SummaryText, Trim;
  }

  lemma LegacyStep(threadID: string, log: Log, st: State, x: Item, next: State)
    requires ClosedForm(threadID, log, st) && Step(threadID, st, x) == Success(next)
    requires Applied(threadID, x) && x.payload.body.Legacy?
    ensures ClosedForm(threadID, log + [x], next)
  {
    hide *;
    AppliedIsCompaction(threadID, x);
    var now := log + [x];
    var gone := Targets(MarkersOf(now));
    var base := BaseOf(x.payload.body);
    BaseAppend(threadID, log, x);
    CompactionMarkers(log, x);
    LegacyCut(st, x);
    ClosedParts(threadID, log, st);
    CompactionResult(threadID, st, x);
    LegacyUpTo(threadID, log, x, |log|);
    NewestSilent(threadID, log, x);
    DropNothing<Tailed>([], TailedID, gone);
    DropNothing<ChatMessage>([], MessageID, gone);
    BlankKept(base, [], st.markers);
    assert base + [] == base;
    NoKeys();
    BlankBaseUnique(base, []);
    ScrubByIsDrop(Cut(st, x), st.markers);
    MakeClosed(threadID, log, x, next);
  }

  lemma AppliedIsCompaction(threadID: string, x: Item)
    requires Applied(threadID, x)
    ensures x.payload.Compaction? && !Ordinary(x)
  {}

  lemma EmptyClosedForm(threadID: string)
    ensures Projected(threadID, []) == Success(EMPTY) && ClosedForm(threadID, [], EMPTY)
  {}

  lemma UniquePrefix(log: Log)
    requires UniqueIDs(log) && log != []
    ensures UniqueIDs(log[..|log| - 1])
  {}

  /**
    Closed form. For every log with unique item IDs, and whatever the page size, the
    projection is the closed form above; `threadID` "" stands for no thread.
   */
  lemma {:induction false} ProjectionClosedForm(threadID: string, log: Log)
    requires UniqueIDs(log) && Projected(threadID, log).Success?
    ensures ClosedForm(threadID, log, Projected(threadID, log).value)
    decreases |log|
  {
    hide *;
    if log == [] {
      EmptyClosedForm(threadID);
    } else {
      var init, x := log[..|log| - 1], log[|log| - 1];
      assert log == init + [x];
      ProjectedSplit(threadID, init, x);
      UniquePrefix(log);
      ProjectionClosedForm(threadID, init);
      StepClosedForm(threadID, init, Projected(threadID, init).value, x, Projected(threadID, log).value);
    }
  }

  lemma ProjectedSplit(threadID: string, log: Log, x: Item)
    requires Projected(threadID, log + [x]).Success?
    ensures Projected(threadID, log).Success?
    ensures Step(threadID, Projected(threadID, log).value, x) == Projected(threadID, log + [x])
  {
    hide Step, Fold;
    FoldAppend(threadID, EMPTY, log, x);
  }

  lemma StepClosedForm(threadID: string, log: Log, st: State, x: Item, next: State)
    requires UniqueIDs(log) && ClosedForm(threadID, log, st) && Step(threadID, st, x) == Success(next)
    ensures ClosedForm(threadID, log + [x], next)
  {
    if !ScrubEvent(threadID, x) {
      hide *;
      RecordStep(threadID, log, st, x, next);
    } else if x.payload.StartFailure? {
      hide *;
      TombstoneStep(threadID, log, st, x, next);
    } else if x.payload.body.Legacy? {
      hide *;
      LegacyStep(threadID, log, st, x, next);
    } else {
      var c := x.payload.body.checkpoint.value;
      assert x.payload.body == Versioned(Some(c));
      hide *;
      CheckpointStep(threadID, log, st, x, next, c);
    }
  }

  // ---------------------------------------------------------------- consequences

  /** An item the projection can read. */
  predicate WellFormed(threadID: string, item: Item)
  {
    var p := item.payload;
    && (p.Compaction? ==>
          && (threadID != "" ==> p.boundary.Some?)
          && (Foreign(threadID, p.boundary)
              || (p.body.Versioned? && p.body.checkpoint.Some? && ValidCheckpoint(p.body.checkpoint.value))
              || (p.body.Legacy? && p.body.summary.Some? && Trim(p.body.summary.value.role) != ""
                  && SummaryText(p.body.summary.value.content) != "")))
    && (p.StartFailure? ==>
          p.marker.Some? && p.marker.value.version == 1 && Trim(p.marker.value.userMessageID) != "")
  }

  lemma StepSucceeds(threadID: string, st: State, item: Item)
    ensures Step(threadID, st, item).Success? <==> WellFormed(threadID, item)
  {
    hide Scrub, Trim, SummaryText, ValidCheckpoint, CheckpointBase, Preserved, CloneAll, TailMessages, SummaryMessage;
  }

  lemma AllOfRest(threadID: string, log: Log)
    requires log != []
    ensures (forall i :: 0 <= i < |log| ==> WellFormed(threadID, log[i])) <==>
              WellFormed(threadID, log[0]) && forall j :: 0 <= j < |log[1..]| ==> WellFormed(threadID, log[1..][j])
  {
    hide WellFormed;
    if WellFormed(threadID, log[0]) && forall j :: 0 <= j < |log[1..]| ==> WellFormed(threadID, log[1..][j]) {
      forall i | 0 <= i < |log|
        ensures WellFormed(threadID, log[i])
      {
        assert i > 0 ==> WellFormed(threadID, log[1..][i - 1]);
      }
    }
  }

  /** The projection fails exactly when some item of the log cannot be read. */
  lemma {:induction false} ProjectionSucceeds(threadID: string, st: State, log: Log)
    ensures Fold(threadID, st, log).Success? <==> forall i :: 0 <= i < |log| ==> WellFormed(threadID, log[i])
    decreases |log|
  {
    hide Step, WellFormed;
    if log != [] {
      StepSucceeds(threadID, st, log[0]);
      AllOfRest(threadID, log);
      match Step(threadID, st, log[0])
      case Failure(e) =>
      case Success(next) =>
        ProjectionSucceeds(threadID, next, log[1..]);
    }
  }

  /** Budget items, checkpoints of other threads and unreadable messages. */
  predicate Inert(threadID: string, item: Item)
  {
    WellFormed(threadID, item) && !ScrubEvent(threadID, item) && !Ordinary(item)
  }

  lemma {:induction false} FoldIgnoresLast(threadID: string, a: State, b: State, log: Log)
    requires a.(lastSequence := 0) == b.(lastSequence := 0)
    ensures Fold(threadID, a, log).Success? == Fold(threadID, b, log).Success?
    ensures Fold(threadID, a, log).Success? ==>
              Fold(threadID, a, log).value.(lastSequence := 0) == Fold(threadID, b, log).value.(lastSequence := 0)
    decreases |log|
  {
    hide Step;
    if log != [] {
      assert Step(threadID, a, log[0]) == Step(threadID, b, log[0]) by {
        StepIgnoresLast(threadID, a, b, log[0]);
      }
    }
  }

  lemma StepIgnoresLast(threadID: string, a: State, b: State, item: Item)
    requires a.(lastSequence := 0) == b.(lastSequence := 0)
    ensures Step(threadID, a, item) == Step(threadID, b, item)
  {
    hide Scrub, StepCompaction, Trim;
    assert a.(lastSequence := item.sequence) == b.(lastSequence := item.sequence);
  }

  /** Dropping an inert item anywhere changes nothing but the last sequence number. */
  lemma {:induction false} InertAnywhere(threadID: string, st: State, before: Log, x: Item, after: Log)
    requires Inert(threadID, x)
    ensures Fold(threadID, st, before + [x] + after).Success? == Fold(threadID, st, before + after).Success?
    ensures Fold(threadID, st, before + [x] + after).Success? ==>
              Fold(threadID, st, before + [x] + after).value.(lastSequence := 0)
              == Fold(threadID, st, before + after).value.(lastSequence := 0)
    decreases |before|
  {
    if before == [] {
      assert before + [x] + after == [x] + after && before + after == after;
      InertHead(threadID, st, x, after);
    } else {
      assert before + [x] + after == [before[0]] + (before[1..] + [x] + after);
      assert before + after == [before[0]] + (before[1..] + after);
      hide Step, Inert, Fold;
      FoldHead(threadID, st, before[0], before[1..] + [x] + after);
      FoldHead(threadID, st, before[0], before[1..] + after);
      if Step(threadID, st, before[0]).Success? {
        InertAnywhere(threadID, Step(threadID, st, before[0]).value, before[1..], x, after);
      }
    }
  }

  lemma FoldHead(threadID: string, st: State, x: Item, after: Log)
    ensures Step(threadID, st, x).Failure? ==> Fold(threadID, st, [x] + after).Failure?
    ensures Step(threadID, st, x).Success? ==>
              Fold(threadID, st, [x] + after) == Fold(threadID, Step(threadID, st, x).value, after)
  {
    hide Step;
    assert ([x] + after)[1..] == after;
  }

  lemma InertHead(threadID: string, st: State, x: Item, after: Log)
    requires Inert(threadID, x)
    ensures Fold(threadID, st, [x] + after).Success? == Fold(threadID, st, after).Success?
    ensures Fold(threadID, st, [x] + after).Success? ==>
              Fold(threadID, st, [x] + after).value.(lastSequence := 0)
              == Fold(threadID, st, after).value.(lastSequence := 0)
  {
    assert Step(threadID, st, x) == Success(st.(lastSequence := x.sequence)) by {
      StepSucceeds(threadID, st, x);
      hide Trim;
    }
    hide Fold, Step, WellFormed;
    FoldIgnoresLast(threadID, st.(lastSequence := x.sequence), st, after);
    FoldHead(threadID, st, x, after);
  }

  /** The projected messages hold the message of this item. */
  predicate Shown(messages: seq<ChatMessage>, id: string)
  {
    exists k :: 0 <= k < |messages| && messages[k].itemID == id
  }

  lemma ShownConcat(a: seq<ChatMessage>, b: seq<ChatMessage>, id: string)
    ensures Shown(a + b, id) <==> Shown(a, id) || Shown(b, id)
  {
    var all := a + b;
    if Shown(a, id) {
      var k :| 0 <= k < |a| && a[k].itemID == id;
      assert all[k].itemID == id;
    }
    if Shown(b, id) {
      var k :| 0 <= k < |b| && b[k].itemID == id;
      assert all[|a| + k].itemID == id;
    }
  }

  lemma {:induction false} UpToShows(threadID: string, log: Log, n: nat, i: nat)
    requires n <= |log| && UniqueIDs(log) && i < |log| && Ordinary(log[i])
    ensures Shown(MessagesUpTo(threadID, log, n), log[i].id) <==> i < n && Kept(threadID, log, i)
  {
    hide Ordinary, SparedByAll, StartFailed, CompactedLater, Shown;
    if n == 0 {
      NothingShown(log[i].id);
    } else {
      UpToShows(threadID, log, n - 1, i);
      ShownConcat(MessagesUpTo(threadID, log, n - 1), MessagesAt(threadID, log, n - 1), log[i].id);
      AtShows(threadID, log, n - 1, log[i].id);
    }
  }

  lemma NothingShown(id: string)
    ensures !Shown([], id)
  {}

  lemma AtShows(threadID: string, log: Log, n: nat, id: string)
    requires n < |log|
    ensures Shown(MessagesAt(threadID, log, n), id) <==> Kept(threadID, log, n) && log[n].id == id
  {
    hide Ordinary, SparedByAll, StartFailed, CompactedLater;
    if Kept(threadID, log, n) {
      assert MessagesAt(threadID, log, n)[0].itemID == log[n].id;
    }
  }

  /** An ordinary item is among the projected messages exactly when no later event removed it. */
  lemma ItemShown(threadID: string, log: Log, i: nat)
    requires UniqueIDs(log) && Projected(threadID, log).Success?
    requires i < |log| && Ordinary(log[i]) && log[i].id != ""
    ensures Shown(Projected(threadID, log).value.messages, log[i].id) <==> Kept(threadID, log, i)
  {
    hide *;
    ProjectionClosedForm(threadID, log);
    ClosedParts(threadID, log, Projected(threadID, log).value);
    UpToShows(threadID, log, |log|, i);
    ShownConcat(Base(threadID, log), MessagesUpTo(threadID, log, |log|), log[i].id);
    BaseIsBlank(threadID, log);
    BlankShowsNot(Base(threadID, log), log[i].id);
  }

  lemma BlankShowsNot(base: seq<ChatMessage>, id: string)
    requires (forall k :: 0 <= k < |base| ==> base[k].itemID == "") && id != ""
    ensures !Shown(base, id)
  {}

  lemma TombstoneNames(item: Item, id: string)
    requires Tombstone(item, id)
    ensures id != ""
  {
    hide Trim;
    assert |Target(item.payload.marker.value)| > 0;
  }

  lemma TombstoneFails(threadID: string, log: Log, i: nat, k: nat)
    requires i < k < |log| && Tombstone(log[k], log[i].id)
    ensures StartFailed(threadID, log, i)
  {
    assert ScrubEvent(threadID, log[k]);
  }

  /** A tombstone recorded after its message always removes it from the projection. */
  lemma TombstoneAfterMessage(threadID: string, log: Log, i: nat, k: nat)
    requires UniqueIDs(log) && Projected(threadID, log).Success?
    requires i < k < |log| && Ordinary(log[i]) && Tombstone(log[k], log[i].id)
    ensures !Shown(Projected(threadID, log).value.messages, log[i].id)
  {
    hide Projected, UniqueIDs, Ordinary, SparedByAll, StartFailed, Tombstone, Shown;
    TombstoneNames(log[k], log[i].id);
    TombstoneFails(threadID, log, i, k);
    ItemShown(threadID, log, i);
  }

  lemma FailedFromNextScrub(threadID: string, log: Log, i: nat, k: nat)
    requires k < i < |log| && Tombstone(log[k], log[i].id)
    ensures StartFailed(threadID, log, i) <==> exists e :: i < e < |log| && ScrubEvent(threadID, log[e])
    ensures !StartFailed(threadID, log, i) ==> SparedByAll(threadID, log, i)
  {
    hide Tombstone, Spares;
    if e :| i < e < |log| && ScrubEvent(threadID, log[e]) {
      assert 0 <= k <= e;
    }
  }

  /**
    A tombstone recorded before its message removes it from the projection exactly when a
    later item makes another removal pass.
   */
  lemma TombstoneBeforeMessage(threadID: string, log: Log, i: nat, k: nat)
    requires UniqueIDs(log) && Projected(threadID, log).Success?
    requires k < i < |log| && Ordinary(log[i]) && Tombstone(log[k], log[i].id)
    ensures Shown(Projected(threadID, log).value.messages, log[i].id) <==>
              !(exists e :: i < e < |log| && ScrubEvent(threadID, log[e]))
  {
    hide Projected, UniqueIDs, Ordinary, SparedByAll, StartFailed, Tombstone, Shown, ScrubEvent;
    TombstoneNames(log[k], log[i].id);
    FailedFromNextScrub(threadID, log, i, k);
    ItemShown(threadID, log, i);
  }

  predicate SameMessage(shown: ChatMessage, recorded: ChatMessage)
  {
    shown == recorded || shown == Clone(recorded)
  }

  /** The tail is a suffix of the messages, up to the cloning of compaction survivors. */
  lemma TailIsSuffix(threadID: string, log: Log)
    requires UniqueIDs(log) && Projected(threadID, log).Success?
    ensures var st := Projected(threadID, log).value;
            && |st.tail| <= |st.messages|
            && forall k :: 0 <= k < |st.tail| ==>
                 SameMessage(st.messages[|st.messages| - |st.tail| + k], st.tail[k].message)
  {
    hide *;
    ProjectionClosedForm(threadID, log);
    SameContributions(threadID, log, |log|);
    ClosedParts(threadID, log, Projected(threadID, log).value);
    Suffix(Base(threadID, log), MessagesUpTo(threadID, log, |log|), TailUpTo(threadID, log, |log|));
  }

  lemma Suffix(base: seq<ChatMessage>, own: seq<ChatMessage>, tail: seq<Tailed>)
    requires |own| == |tail| && forall k :: 0 <= k < |tail| ==> SameMessage(own[k], tail[k].message)
    ensures forall k :: 0 <= k < |tail| ==> SameMessage((base + own)[|base + own| - |tail| + k], tail[k].message)
  {
    hide SameMessage;
    assert forall k :: 0 <= k < |own| ==> (base + own)[|base| + k] == own[k];
  }

  lemma ClosedParts(threadID: string, log: Log, st: State)
    requires ClosedForm(threadID, log, st)
    ensures st.messages == Base(threadID, log) + MessagesUpTo(threadID, log, |log|)
    ensures st.tail == TailUpTo(threadID, log, |log|) && st.markers == MarkersOf(log)
    ensures st.checkpoint == CurrentCheckpoint(threadID, log)
  {
    hide BaseOf, MessagesUpTo, TailUpTo;
  }

  lemma MakeClosed(threadID: string, log: Log, x: Item, st: State)
    requires st.messages == Base(threadID, log + [x]) + MessagesUpTo(threadID, log + [x], |log + [x]|)
    requires st.tail == TailUpTo(threadID, log + [x], |log + [x]|)
    requires st.checkpoint == CurrentCheckpoint(threadID, log + [x])
    requires st.markers == MarkersOf(log + [x]) && st.lastSequence == x.sequence
    ensures ClosedForm(threadID, log + [x], st)
  {
    hide BaseOf, MessagesUpTo, TailUpTo, MarkersOf;
  }

  lemma {:induction false} SameContributions(threadID: string, log: Log, n: nat)
    ensures |MessagesUpTo(threadID, log, n)| == |TailUpTo(threadID, log, n)|
    ensures forall k :: 0 <= k < |TailUpTo(threadID, log, n)| ==>
              SameMessage(MessagesUpTo(threadID, log, n)[k], TailUpTo(threadID, log, n)[k].message)
  {
    hide Ordinary, SparedByAll, StartFailed, CompactedLater, Clone;
    if n > 0 {
      SameContributions(threadID, log, n - 1);
    }
  }

  // ---------------------------------------------------------------- legacy prose

  /** A stored chat message; `role` is lower-cased and trimmed. */
  datatype Stored = Stored(role: string, content: string)

  predicate Prose(role: string) { role == "user" || role == "assistant" }

  function ProseOf(messages: seq<ChatMessage>): multiset<Stored>
  {
    if messages == [] then multiset{}
    else
      (if Prose(messages[0].role) then multiset{Stored(messages[0].role, messages[0].content)} else multiset{})
      + ProseOf(messages[1..])
  }

  function StoredProse(recent: seq<Stored>): multiset<Stored>
  {
    if recent == [] then multiset{}
    else (if Prose(recent[0].role) then multiset{recent[0]} else multiset{}) + StoredProse(recent[1..])
  }

  function LegacyMessage(m: Stored): ChatMessage
  {
    ChatMessage(m.role, m.content, "", "", [], [], map[], "")
  }

  /** The stored prose that `seen` does not account for, one for one. */
  function Absent(recent: seq<Stored>, seen: multiset<Stored>): seq<ChatMessage>
    decreases |recent|
  {
    if recent == [] then []
    else if !Prose(recent[0].role) then Absent(recent[1..], seen)
    else if recent[0] in seen then Absent(recent[1..], seen - multiset{recent[0]})
    else [LegacyMessage(recent[0])] + Absent(recent[1..], seen)
  }

  method CountProse(conversation: seq<ChatMessage>) returns (seen: multiset<Stored>)
    ensures seen == ProseOf(conversation)
  {
    seen := multiset{};
    for i := 0 to |conversation|
      invariant seen + ProseOf(conversation[i..]) == ProseOf(conversation)
    {
      assert conversation[i..][1..] == conversation[i + 1..];
      if Prose(conversation[i].role) {
        seen := seen + multiset{Stored(conversation[i].role, conversation[i].content)};
      }
    }
  }

  method MergeLegacyConversation(conversation: seq<ChatMessage>, recent: seq<Stored>)
    returns (merged: seq<ChatMessage>)
    ensures merged == Absent(recent, ProseOf(conversation)) + CloneAll(conversation)
  {
    hide Prose, ProseOf, Absent, LegacyMessage;
    var seen := CountProse(conversation);
    var legacy := [];
    assert recent[0..] == recent;
    for i := 0 to |recent|
      invariant legacy + Absent(recent[i..], seen) == Absent(recent, ProseOf(conversation))
    {
      AbsentStep(recent, i, seen);
      if !Prose(recent[i].role) {
        continue;
      }
      if recent[i] in seen {
        seen := seen - multiset{recent[i]};
        continue;
      }
      legacy := legacy + [LegacyMessage(recent[i])];
    }
    AbsentEnd(recent, seen);
    merged := legacy + CloneAll(conversation);
  }

  lemma AbsentStep(recent: seq<Stored>, i: nat, seen: multiset<Stored>)
    requires i < |recent|
    ensures Absent(recent[i..], seen)
         == if !Prose(recent[i].role) then Absent(recent[i + 1..], seen)
            else if recent[i] in seen then Absent(recent[i + 1..], seen - multiset{recent[i]})
            else [LegacyMessage(recent[i])] + Absent(recent[i + 1..], seen)
  {
    assert recent[i..][1..] == recent[i + 1..];
  }

  lemma AbsentEnd(recent: seq<Stored>, seen: multiset<Stored>)
    ensures Absent(recent[|recent|..], seen) == []
  {}

  /** Merging supplies each piece of prose exactly as often as the two sources jointly require. */
  lemma {:induction false} MergeCounts(recent: seq<Stored>, seen: multiset<Stored>, m: Stored)
    ensures ProseOf(Absent(recent, seen))[m]
         == if StoredProse(recent)[m] > seen[m] then StoredProse(recent)[m] - seen[m] else 0
    ensures !Prose(m.role) ==> StoredProse(recent)[m] == 0
    decreases |recent|
  {
    if recent != [] {
      if !Prose(recent[0].role) {
        MergeCounts(recent[1..], seen, m);
      } else if recent[0] in seen {
        MergeCounts(recent[1..], seen - multiset{recent[0]}, m);
      } else {
        MergeCounts(recent[1..], seen, m);
        var rest := Absent(recent[1..], seen);
        assert ([LegacyMessage(recent[0])] + rest)[1..] == rest;
      }
    }
  }
}
