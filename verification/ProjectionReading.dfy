/**
  The conversation projection read off the fields of the log: which compactions count for a
  thread, which items survive them, what stands in front, what cannot be read, and which
  legacy prose is supplied.
 */
module ProjectionReading {
  import opened Wrappers
  import opened Text
  import opened Chat
  import opened ConversationProjection

  /** The compaction counts for the thread: it names it, or no thread is asked for. */
  predicate Counts(threadID: string, item: Item)
  {
    item.payload.Compaction? && (threadID == "" || item.payload.boundary == Some(threadID))
  }

  lemma CountsIs(threadID: string, item: Item)
    ensures Applied(threadID, item) <==> Counts(threadID, item)
  {}

  // ---------------------------------------------------------------- compactions of other threads

  /** The log without the compactions that name another thread. */
  function Own(threadID: string, log: Log): Log
  {
    if log == [] then []
    else
      var p := log[0].payload;
      (if p.Compaction? && p.boundary.Some? && p.boundary.value != threadID then [] else [log[0]])
      + Own(threadID, log[1..])
  }

  /** The states agree on everything but the last sequence number. */
  predicate Agree(a: Result<State, LoadError>, b: Result<State, LoadError>)
  {
    if a.Success? then b.Success? && b.value == a.value.(lastSequence := b.value.lastSequence) else b == a
  }

  lemma {:induction false} FoldAgrees(threadID: string, st: State, other: State, log: Log)
    requires threadID != "" && other == st.(lastSequence := other.lastSequence)
    ensures Agree(Fold(threadID, st, log), Fold(threadID, other, Own(threadID, log)))
    decreases |log|
  {
    hide Step;
    if log != [] {
      var x, rest := log[0], Own(threadID, log[1..]);
      var p := x.payload;
      assert ([x] + rest)[1..] == rest && [] + rest == rest;
      if p.Compaction? && p.boundary.Some? && p.boundary.value != threadID {
        OtherThread(threadID, st, x);
        FoldAgrees(threadID, st.(lastSequence := x.sequence), other, log[1..]);
      } else {
        StepIgnoresLast(threadID, st, other, x);
        match Step(threadID, st, x)
        case Failure(e) =>
        case Success(next) => FoldAgrees(threadID, next, next, log[1..]);
      }
    }
  }

  lemma OtherThread(threadID: string, st: State, x: Item)
    requires threadID != "" && x.payload.Compaction? && x.payload.boundary.Some? && x.payload.boundary.value != threadID
    ensures Step(threadID, st, x) == Success(st.(lastSequence := x.sequence))
  {}

  /** A compaction that names another thread has no effect on a thread, wherever it stands. */
  lemma OtherThreadsInvisible(threadID: string, log: Log)
    requires threadID != ""
    ensures Agree(Projected(threadID, log), Projected(threadID, Own(threadID, log)))
  {
    FoldAgrees(threadID, EMPTY, EMPTY, log);
  }

  // ---------------------------------------------------------------- what is read, by position

  /** The position holds a message: an item with a role. */
  predicate Spoken(log: Log, i: nat)
  {
    i < |log| && log[i].payload.Recorded? && log[i].payload.message.Some? && Trim(log[i].payload.message.value.role) != ""
  }

  /** The position holds a failed start of the item. */
  predicate Fails(log: Log, k: nat, id: string)
  {
    && k < |log| && log[k].payload.StartFailure? && log[k].payload.marker.Some?
    && "message-" + Trim(log[k].payload.marker.value.userMessageID) == id
  }

  /** The compaction at `c` reaches no further than below position `i`. */
  predicate Passes(log: Log, c: nat, i: nat)
    requires c < |log| && i < |log|
  {
    match log[c].payload
    case Compaction(_, Versioned(Some(checkpoint))) => 0 < checkpoint.compactedThrough < log[i].sequence
    case _ => false
  }

  /** A removal pass behind `i`, at or behind a failed start of it. */
  ghost predicate Removed(threadID: string, log: Log, i: nat)
    requires i < |log|
  {
    exists e: nat, k: nat ::
      && i < e < |log| && k <= e && (Counts(threadID, log[e]) || log[e].payload.StartFailure?)
      && Fails(log, k, log[i].id)
  }

  /** The message at `i` survives every later compaction that counts and no failed start removed it. */
  ghost predicate Survives(threadID: string, log: Log, i: nat)
  {
    && Spoken(log, i)
    && (forall c: nat :: i < c < |log| && Counts(threadID, log[c]) ==> Passes(log, c, i))
    && !Removed(threadID, log, i)
  }

  lemma SurvivesIs(threadID: string, log: Log, i: nat)
    ensures Kept(threadID, log, i) <==> Survives(threadID, log, i)
  {
    hide Trim, Foreign;
    forall c: nat | c < |log|
      ensures Applied(threadID, log[c]) <==> Counts(threadID, log[c])
    {
      CountsIs(threadID, log[c]);
    }
    hide Applied;
    if i < |log| {
      FailedIs(threadID, log, i);
      hide StartFailed, Removed;
      forall c: nat | c < |log| && Counts(threadID, log[c])
        ensures Spares(log[c], log[i].sequence) <==> Passes(log, c, i)
      {}
    }
  }

  lemma FailedIs(threadID: string, log: Log, i: nat)
    requires i < |log| && forall c: nat :: c < |log| ==> (Applied(threadID, log[c]) <==> Counts(threadID, log[c]))
    ensures StartFailed(threadID, log, i) <==> Removed(threadID, log, i)
  {
    hide Trim, Applied, Counts;
    forall k: nat | k < |log|
      ensures Tombstone(log[k], log[i].id) <==> Fails(log, k, log[i].id)
    {}
    hide Tombstone, Fails;
    if StartFailed(threadID, log, i) {
      var e, k :| i < e < |log| && 0 <= k <= e && ScrubEvent(threadID, log[e]) && Tombstone(log[k], log[i].id);
      assert Fails(log, k, log[i].id);
    }
    if Removed(threadID, log, i) {
      var e: nat, k: nat :| i < e < |log| && k <= e && (Counts(threadID, log[e]) || log[e].payload.StartFailure?)
        && Fails(log, k, log[i].id);
      assert ScrubEvent(threadID, log[e]) && Tombstone(log[k], log[i].id);
    }
  }

  /** `r` is a clone of `m`: all fields but the extra ones, of which only the evidence mark stays. */
  predicate Clones(m: ChatMessage, r: ChatMessage)
  {
    && r == m.(extra := r.extra)
    && r.extra == if SYNTHETIC_KIND_KEY in m.extra && m.extra[SYNTHETIC_KIND_KEY] == MUTATION_EVIDENCE
                  then map[SYNTHETIC_KIND_KEY := MUTATION_EVIDENCE] else map[]
  }

  lemma ClonesIs(m: ChatMessage)
    ensures forall r :: Clones(m, r) <==> r == Clone(m)
  {}

  /** What position `i` shows: its message under the ID of the item, cloned if a compaction kept it. */
  ghost predicate Shows(threadID: string, log: Log, i: nat, shown: ChatMessage)
    requires Spoken(log, i)
  {
    var m := log[i].payload.message.value.(itemID := log[i].id);
    if exists c: nat :: i < c < |log| && Counts(threadID, log[c]) then Clones(m, shown) else shown == m
  }

  lemma ShowsIs(threadID: string, log: Log, i: nat)
    requires Kept(threadID, log, i)
    ensures Spoken(log, i) && |MessagesAt(threadID, log, i)| == 1 && Shows(threadID, log, i, MessagesAt(threadID, log, i)[0])
    ensures TailAt(threadID, log, i)
         == [Tailed(log[i].sequence, log[i].payload.message.value.(itemID := log[i].id))]
  {
    hide Trim, Foreign, SparedByAll, StartFailed, Clone, Clones;
    forall c: nat | c < |log|
      ensures Applied(threadID, log[c]) <==> Counts(threadID, log[c])
    {
      CountsIs(threadID, log[c]);
    }
    hide Applied, Counts;
    ClonesIs(log[i].payload.message.value.(itemID := log[i].id));
    if CompactedLater(threadID, log, i) {
      var c :| i < c < |log| && Applied(threadID, log[c]);
      assert Counts(threadID, log[c]);
    }
  }

  /** The surviving positions below `n`, in order. */
  ghost function Positions(threadID: string, log: Log, n: nat): seq<nat>
  {
    if n == 0 then [] else Positions(threadID, log, n - 1) + (if Kept(threadID, log, n - 1) then [n - 1] else [])
  }

  predicate Rising(positions: seq<nat>)
  {
    forall m, n :: 0 <= m < n < |positions| ==> positions[m] < positions[n]
  }

  lemma {:induction false} PositionsMeaning(threadID: string, log: Log, n: nat)
    ensures var positions := Positions(threadID, log, n);
            && Rising(positions) && (forall i: nat :: i in positions <==> i < n && Kept(threadID, log, i))
  {
    hide Kept;
    if n > 0 {
      var before := Positions(threadID, log, n - 1);
      PositionsMeaning(threadID, log, n - 1);
      assert forall m :: 0 <= m < |before| ==> before[m] in before;
    }
  }

  /** The messages and the tail are those of the surviving positions. */
  ghost predicate AreShown(threadID: string, log: Log, positions: seq<nat>, messages: seq<ChatMessage>, tail: seq<Tailed>)
  {
    && |messages| == |positions| == |tail|
    && forall n :: 0 <= n < |positions| ==>
         && Spoken(log, positions[n]) && Shows(threadID, log, positions[n], messages[n])
         && tail[n] == Tailed(log[positions[n]].sequence,
                              log[positions[n]].payload.message.value.(itemID := log[positions[n]].id))
  }

  lemma ShownStep(
    threadID: string, log: Log, positions: seq<nat>, messages: seq<ChatMessage>, tail: seq<Tailed>, i: nat,
    m: ChatMessage, t: Tailed)
    requires AreShown(threadID, log, positions, messages, tail)
    requires Spoken(log, i) && Shows(threadID, log, i, m)
    requires t == Tailed(log[i].sequence, log[i].payload.message.value.(itemID := log[i].id))
    ensures AreShown(threadID, log, positions + [i], messages + [m], tail + [t])
  {
    hide Spoken, Shows;
  }

  lemma {:induction false} PositionsShown(threadID: string, log: Log, n: nat)
    ensures AreShown(threadID, log, Positions(threadID, log, n), MessagesUpTo(threadID, log, n), TailUpTo(threadID, log, n))
  {
    hide Kept, AreShown, MessagesAt, TailAt, Shows, Spoken;
    if n == 0 {
      NothingShown(threadID, log);
    } else {
      PositionsShown(threadID, log, n - 1);
      var positions, messages, tail :=
        Positions(threadID, log, n - 1), MessagesUpTo(threadID, log, n - 1), TailUpTo(threadID, log, n - 1);
      if Kept(threadID, log, n - 1) {
        ShowsIs(threadID, log, n - 1);
        ShownStep(threadID, log, positions, messages, tail, n - 1, MessagesAt(threadID, log, n - 1)[0],
          TailAt(threadID, log, n - 1)[0]);
        assert MessagesAt(threadID, log, n - 1) == [MessagesAt(threadID, log, n - 1)[0]];
      } else {
        DroppedShows(threadID, log, n - 1);
        assert positions + [] == positions && messages + [] == messages && tail + [] == tail;
      }
    }
  }

  lemma DroppedShows(threadID: string, log: Log, i: nat)
    requires !Kept(threadID, log, i)
    ensures MessagesAt(threadID, log, i) == [] && TailAt(threadID, log, i) == []
  {
    hide Kept;
  }

  lemma NothingShown(threadID: string, log: Log)
    ensures AreShown(threadID, log, Positions(threadID, log, 0), MessagesUpTo(threadID, log, 0), TailUpTo(threadID, log, 0))
  {}

  // ---------------------------------------------------------------- what stands in front

  /** The history of a checkpoint as it is shown: cloned, without item IDs. */
  predicate History(history: seq<ChatMessage>, base: seq<ChatMessage>)
  {
    |base| == |history| && forall k :: 0 <= k < |history| ==> Clones(history[k].(itemID := ""), base[k])
  }

  /** What the last compaction that counts puts in front: its history, its summary, or nothing. */
  predicate InFront(threadID: string, log: Log, base: seq<ChatMessage>, checkpoint: Option<Checkpoint>)
  {
    || ((forall c :: 0 <= c < |log| ==> !Counts(threadID, log[c])) && base == [] && checkpoint == None)
    || (exists c: nat :: c < |log| && Counts(threadID, log[c]) && (forall d :: c < d < |log| ==> !Counts(threadID, log[d]))
          && FrontOf(log[c].payload.body, base, checkpoint))
  }

  predicate FrontOf(body: CompactionBody, base: seq<ChatMessage>, checkpoint: Option<Checkpoint>)
  {
    match body
    case Versioned(Some(c)) =>
      if c.replacementHistory.None? then base == [] && checkpoint == Some(c)
      else History(c.replacementHistory.value, base) && checkpoint == Some(c.(replacementHistory := Some(base)))
    case Legacy(Some(m)) =>
      && checkpoint == None
      && base == [ChatMessage("user", SUMMARY_PREAMBLE + "\n" + SummaryText(m.content), "", "", [], [], map[], "")]
    case _ => base == [] && checkpoint == None
  }

  lemma SummaryTight(content: string)
    ensures Trim(SummaryText(content)) == SummaryText(content)
  {
    hide Trim;
    TrimTight(TrimPrefix(Trim(TrimPrefix(Trim(content), "Compacted conversation context:")), SUMMARY_PREAMBLE));
  }

  lemma FrontIs(body: CompactionBody)
    ensures FrontOf(body, BaseOf(body), CheckpointOf(body))
  {
    hide Trim, SummaryText, Clones;
    match body
    case Versioned(Some(c)) =>
      if c.replacementHistory.Some? {
        forall m
          ensures Clones(m, Clone(m))
        {
          ClonesIs(m);
        }
        hide Clone;
      }
    case Legacy(Some(m)) => SummaryTight(m.content);
    case _ =>
  }

  lemma InFrontIs(threadID: string, log: Log)
    ensures InFront(threadID, log, Base(threadID, log), CurrentCheckpoint(threadID, log))
  {
    hide FrontOf, BaseOf, CheckpointOf, LastApplied, Foreign;
    forall c: nat | c < |log|
      ensures Applied(threadID, log[c]) <==> Counts(threadID, log[c])
    {
      CountsIs(threadID, log[c]);
    }
    hide Applied, Counts;
    var c := LastApplied(threadID, log);
    if c >= 0 {
      FrontIs(log[c].payload.body);
      assert Counts(threadID, log[c]);
    }
  }

  /**
    The projection by position: in front, what the last compaction that counts left; behind
    it, in order, exactly the messages that survive, cloned if a compaction has kept them. A
    compaction counts if it names the thread, or if no thread is asked for.
   */
  lemma ProjectionByPosition(threadID: string, log: Log) returns (base: seq<ChatMessage>, positions: seq<nat>)
    requires UniqueIDs(log) && Projected(threadID, log).Success?
    ensures Rising(positions) && forall i: nat :: i in positions <==> Survives(threadID, log, i)
    ensures var st := Projected(threadID, log).value;
            && InFront(threadID, log, base, st.checkpoint)
            && |base| <= |st.messages| && st.messages[..|base|] == base
            && AreShown(threadID, log, positions, st.messages[|base|..], st.tail)
            && st.lastSequence == if log == [] then 0 else log[|log| - 1].sequence
  {
    hide Kept, Survives, AreShown, InFront, Base, CurrentCheckpoint, MessagesUpTo, TailUpTo, MarkersOf, Projected, UniqueIDs;
    base, positions := Base(threadID, log), Positions(threadID, log, |log|);
    ProjectionClosedForm(threadID, log);
    InFrontIs(threadID, log);
    PositionsMeaning(threadID, log, |log|);
    PositionsShown(threadID, log, |log|);
    forall i: nat
      ensures Kept(threadID, log, i) <==> Survives(threadID, log, i)
      ensures Kept(threadID, log, i) ==> i < |log|
    {
      SurvivesIs(threadID, log, i);
      KeptInRange(threadID, log, i);
    }
    assert (base + MessagesUpTo(threadID, log, |log|))[|base|..] == MessagesUpTo(threadID, log, |log|);
  }

  lemma KeptInRange(threadID: string, log: Log, i: nat)
    ensures Kept(threadID, log, i) ==> i < |log|
  {
    hide Ordinary, SparedByAll, StartFailed;
  }

  // ---------------------------------------------------------------- what cannot be read

  /** Why an item cannot be read, if it cannot. */
  predicate Unreadable(threadID: string, item: Item, e: LoadError)
  {
    match item.payload
    case Compaction(boundary, body) =>
      if threadID != "" && boundary.None? then e == BadBoundary
      else Counts(threadID, item) && UnreadableBody(body, e)
    case StartFailure(marker) =>
      e == BadMarker && (marker.None? || marker.value.version != 1 || Trim(marker.value.userMessageID) == "")
    case _ => false
  }

  predicate UnreadableBody(body: CompactionBody, e: LoadError)
  {
    match body
    case NotAnObject => e == BadEnvelope
    case Versioned(None) => e == BadCheckpoint
    case Versioned(Some(c)) =>
      && e == InvalidCheckpoint
      && (|| c.version != 1 || c.replacementHistory.None? || Trim(c.triggerID) == "" || c.windowNumber == 0
          || Trim(c.firstWindowID) == "" || Trim(c.windowID) == "" || c.priorTokens < 0 || c.replacementTokens < 0)
    case Legacy(None) => e == BadLegacy
    case Legacy(Some(m)) => e == InvalidLegacy && (Trim(m.role) == "" || SummaryText(m.content) == "")
  }

  lemma UnreadableIs(threadID: string, st: State, item: Item, e: LoadError)
    ensures Step(threadID, st, item) == Failure(e) <==> Unreadable(threadID, item, e)
  {
    hide Scrub, Trim, SummaryText, CheckpointBase, Preserved, CloneAll, TailMessages, SummaryMessage, Copied;
  }

  /** Position `i` is the first that cannot be read. */
  ghost predicate FirstUnreadable(threadID: string, log: Log, i: nat, e: LoadError)
  {
    i < |log| && Unreadable(threadID, log[i], e) && forall j, f :: 0 <= j < i ==> !Unreadable(threadID, log[j], f)
  }

  lemma FirstStep(threadID: string, log: Log, e: LoadError)
    requires log != []
    ensures (exists i: nat :: FirstUnreadable(threadID, log, i, e)) <==>
              || Unreadable(threadID, log[0], e)
              || ((forall f :: !Unreadable(threadID, log[0], f))
                  && exists i: nat :: FirstUnreadable(threadID, log[1..], i, e))
  {
    hide Unreadable;
    var rest := log[1..];
    assert forall j :: 0 < j < |log| ==> log[j] == rest[j - 1];
    if Unreadable(threadID, log[0], e) {
      assert FirstUnreadable(threadID, log, 0, e);
    }
    if i: nat :| FirstUnreadable(threadID, rest, i, e) {
      if forall f :: !Unreadable(threadID, log[0], f) {
        forall j, f | 0 <= j < i + 1
          ensures !Unreadable(threadID, log[j], f)
        {
          assert j > 0 ==> log[j] == rest[j - 1];
        }
        assert FirstUnreadable(threadID, log, i + 1, e);
      }
    }
    if i: nat :| FirstUnreadable(threadID, log, i, e) && i > 0 {
      forall j, f | 0 <= j < i - 1
        ensures !Unreadable(threadID, rest[j], f)
      {
        assert rest[j] == log[j + 1];
      }
      assert FirstUnreadable(threadID, rest, i - 1, e);
    }
  }

  /** The load fails exactly with the error of the first item that cannot be read. */
  lemma {:induction false} LoadFailsExactly(threadID: string, st: State, log: Log, e: LoadError)
    ensures Fold(threadID, st, log) == Failure(e) <==> exists i: nat :: FirstUnreadable(threadID, log, i, e)
    decreases |log|
  {
    hide Step, Unreadable, FirstUnreadable;
    if log == [] {
      NoneUnreadable(threadID, e);
    } else {
      forall f
        ensures Step(threadID, st, log[0]) == Failure(f) <==> Unreadable(threadID, log[0], f)
      {
        UnreadableIs(threadID, st, log[0], f);
      }
      FirstStep(threadID, log, e);
      match Step(threadID, st, log[0])
      case Failure(f) =>
      case Success(next) => LoadFailsExactly(threadID, next, log[1..], e);
    }
  }

  lemma NoneUnreadable(threadID: string, e: LoadError)
    ensures forall i: nat :: !FirstUnreadable(threadID, [], i, e)
  {}

  // ---------------------------------------------------------------- summaries

  /** A summary is read back from both ways in which it has been written. */
  lemma SummaryReadBack(summary: string)
    requires Trim(summary) == summary && summary != ""
    requires !("Compacted conversation context:" <= summary) && !(SUMMARY_PREAMBLE <= summary)
    ensures SummaryText(SummaryMessage(summary).content) == summary
    ensures SummaryText("Compacted conversation context:" + "\n" + summary) == summary
    ensures SummaryText(summary) == summary
  {
    SummaryBehind(SUMMARY_PREAMBLE, summary);
    SummaryBehind("Compacted conversation context:", summary);
    var shown := SUMMARY_PREAMBLE + "\n" + summary;
    assert shown[0] == 'A' && !("Compacted conversation context:" <= shown);
    OtherPrefix(shown, "Compacted conversation context:");
    OtherPrefix(summary, "Compacted conversation context:");
    OtherPrefix(summary, SUMMARY_PREAMBLE);
    hide Trim, TrimPrefix;
  }

  lemma OtherPrefix(s: string, prefix: string)
    requires !(prefix <= s)
    ensures TrimPrefix(s, prefix) == s
  {}

  lemma TightEnds(s: string)
    requires Trim(s) == s && s != ""
    ensures !IsSpace(s[0]) && !IsSpace(s[|s| - 1])
  {
    TrimTight(s);
  }

  lemma SummaryBehind(head: string, summary: string)
    requires Trim(summary) == summary && summary != "" && head != "" && !IsSpace(head[0])
    ensures Trim(head + "\n" + summary) == head + "\n" + summary
    ensures TrimPrefix(head + "\n" + summary, head) == "\n" + summary && Trim("\n" + summary) == summary
  {
    TightEnds(summary);
    var whole := head + "\n" + summary;
    hide IsSpace;
    TrimTight(whole);
    assert whole[|head|..] == "\n" + summary;
    NewlineTrims(summary);
  }

  lemma NewlineTrims(s: string)
    requires Trim(s) == s
    ensures Trim("\n" + s) == s
  {
    assert ("\n" + s)[1..] == s;
    hide TrimRight;
    assert TrimLeft("\n" + s) == TrimLeft(s);
  }

  // ---------------------------------------------------------------- legacy prose

  /** How often the conversation says this in this role. */
  function Times(conversation: seq<ChatMessage>, role: string, content: string): nat
  {
    if conversation == [] then 0
    else
      (if conversation[0].role == role && conversation[0].content == content then 1 else 0)
      + Times(conversation[1..], role, content)
  }

  function TimesStored(recent: seq<Stored>, m: Stored): nat
  {
    if recent == [] then 0
    else TimesStored(recent[..|recent| - 1], m) + (if recent[|recent| - 1] == m then 1 else 0)
  }

  predicate Speech(m: Stored) { m.role == "user" || m.role == "assistant" }

  lemma {:induction false} ProseTimes(conversation: seq<ChatMessage>, m: Stored)
    ensures ProseOf(conversation)[m] == if Speech(m) then Times(conversation, m.role, m.content) else 0
  {
    if conversation != [] {
      ProseTimes(conversation[1..], m);
    }
  }

  /** Stored message `i` is missing: the conversation does not say it as often as the store up to here. */
  predicate Missing(recent: seq<Stored>, seen: multiset<Stored>, i: nat)
  {
    i < |recent| && Speech(recent[i]) && TimesStored(recent[..i], recent[i]) >= seen[recent[i]]
  }

  function MissingFrom(recent: seq<Stored>, seen: multiset<Stored>, k: nat): seq<nat>
    requires k <= |recent|
    decreases |recent| - k
  {
    if k == |recent| then [] else (if Missing(recent, seen, k) then [k] else []) + MissingFrom(recent, seen, k + 1)
  }

  lemma {:induction false} MissingMeaning(recent: seq<Stored>, seen: multiset<Stored>, k: nat)
    requires k <= |recent|
    ensures var positions := MissingFrom(recent, seen, k);
            && Rising(positions) && forall i: nat :: i in positions <==> k <= i && Missing(recent, seen, i)
    decreases |recent| - k
  {
    MissingInRange(recent, seen);
    hide Missing;
    if k < |recent| {
      var rest := MissingFrom(recent, seen, k + 1);
      MissingMeaning(recent, seen, k + 1);
      RisingCons(k, rest);
      assert [] + rest == rest;
    }
  }

  lemma MissingInRange(recent: seq<Stored>, seen: multiset<Stored>)
    ensures forall i: nat :: Missing(recent, seen, i) ==> i < |recent|
  {}

  lemma RisingCons(k: nat, rest: seq<nat>)
    requires Rising(rest) && forall i :: i in rest ==> k < i
    ensures Rising([k] + rest) && forall i :: i in [k] + rest <==> i == k || i in rest
  {
    assert forall n :: 0 <= n < |rest| ==> rest[n] in rest;
  }

  /** What is left of `seen` when the first `k` stored messages have been looked up. */
  predicate Left(recent: seq<Stored>, k: nat, seen: multiset<Stored>, left: multiset<Stored>, m: Stored)
    requires k <= |recent|
  {
    left[m] == if TimesStored(recent[..k], m) < seen[m] then seen[m] - TimesStored(recent[..k], m) else 0
  }

  lemma TimesNext(recent: seq<Stored>, k: nat, m: Stored)
    requires k < |recent|
    ensures TimesStored(recent[..k + 1], m) == TimesStored(recent[..k], m) + (if recent[k] == m then 1 else 0)
  {
    assert recent[..k + 1][..k] == recent[..k];
  }

  predicate Supplied(recent: seq<Stored>, positions: seq<nat>, legacy: seq<ChatMessage>)
  {
    && |legacy| == |positions|
    && forall n :: 0 <= n < |positions| ==>
         && positions[n] < |recent|
         && legacy[n] == ChatMessage(recent[positions[n]].role, recent[positions[n]].content, "", "", [], [], map[], "")
  }

  lemma SuppliedCons(recent: seq<Stored>, k: nat, positions: seq<nat>, legacy: seq<ChatMessage>)
    requires k < |recent| && Supplied(recent, positions, legacy)
    ensures Supplied(recent, [k] + positions, [LegacyMessage(recent[k])] + legacy)
  {}

  lemma {:induction false} AbsentFrom(recent: seq<Stored>, k: nat, seen: multiset<Stored>, left: multiset<Stored>)
    requires k <= |recent| && forall m :: Speech(m) ==> Left(recent, k, seen, left, m)
    ensures Supplied(recent, MissingFrom(recent, seen, k), Absent(recent[k..], left))
    decreases |recent| - k
  {
    hide Absent, Supplied, TimesStored, LegacyMessage;
    if k == |recent| {
      AbsentEnd(recent, left);
      NoneSupplied(recent);
    } else {
      AbsentStep(recent, k, left);
      var x := recent[k];
      var next := if Speech(x) && x in left then left - multiset{x} else left;
      forall m | Speech(m)
        ensures Left(recent, k + 1, seen, next, m)
      {
        assert Left(recent, k, seen, left, m);
        TimesNext(recent, k, m);
      }
      AbsentFrom(recent, k + 1, seen, next);
      if Speech(x) {
        assert Left(recent, k, seen, left, x);
        SuppliedMore(recent, k, seen, next);
      }
      var rest := MissingFrom(recent, seen, k + 1);
      assert [] + rest == rest;
    }
  }

  lemma NoneSupplied(recent: seq<Stored>)
    ensures Supplied(recent, [], [])
  {}

  lemma SuppliedMore(recent: seq<Stored>, k: nat, seen: multiset<Stored>, left: multiset<Stored>)
    requires k < |recent| && Supplied(recent, MissingFrom(recent, seen, k + 1), Absent(recent[k + 1..], left))
    ensures Supplied(recent, [k] + MissingFrom(recent, seen, k + 1), [LegacyMessage(recent[k])] + Absent(recent[k + 1..], left))
  {
    SuppliedCons(recent, k, MissingFrom(recent, seen, k + 1), Absent(recent[k + 1..], left));
  }

  /**
    The merge supplies, in the order of the store, exactly the user and assistant messages
    that the conversation does not say as often as the store does up to there.
   */
  lemma MergeSuppliesMissing(conversation: seq<ChatMessage>, recent: seq<Stored>) returns (positions: seq<nat>)
    ensures Rising(positions)
    ensures forall i: nat :: i in positions <==>
              && i < |recent| && (recent[i].role == "user" || recent[i].role == "assistant")
              && TimesStored(recent[..i], recent[i]) >= Times(conversation, recent[i].role, recent[i].content)
    ensures Supplied(recent, positions, Absent(recent, ProseOf(conversation)))
  {
    hide Absent, Supplied, TimesStored, Times, ProseOf;
    var seen := ProseOf(conversation);
    positions := MissingFrom(recent, seen, 0);
    MissingMeaning(recent, seen, 0);
    forall m | Speech(m)
      ensures Left(recent, 0, seen, seen, m)
    {
      NoTimes(recent, m);
    }
    AbsentFrom(recent, 0, seen, seen);
    assert recent[0..] == recent;
    forall i: nat | i < |recent|
      ensures Speech(recent[i]) ==> seen[recent[i]] == Times(conversation, recent[i].role, recent[i].content)
    {
      ProseTimes(conversation, recent[i]);
    }
  }

  lemma NoTimes(recent: seq<Stored>, m: Stored)
    ensures TimesStored(recent[..0], m) == 0
  {}
}
